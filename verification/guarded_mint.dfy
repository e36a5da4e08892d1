/** A corrected `checkMintQuote`. The source asks the mint for proofs as soon
    as the quote is paid and only then looks for the wallet's record of the
    quote, among records of every status: with no record the proofs are
    reported but never stored, and a completed record is credited again.
    This variant looks the record up first, among the wallet's *pending*
    `mint` records, and asks for proofs only when there is one. */
module GuardedMint {
  import opened Wrappers
  import opened Errors
  import opened Schema
  import opened Engine
  import opened BotWallet
  import ProofStore
  import TransactionStore

  /** `t` is a `mint` record of the wallet for the quote. */
  predicate Carries(t: TxRecord, wal: Wallet, quoteId: string)
  {
    t.walletId == wal.id && t.txType == TxType.Mint && t.quoteId == Some(quoteId)
  }

  /** The wallet has at most one `mint` record for the quote, which holds
      when quote ids are only ever recorded by `createMintInvoice`. */
  predicate AtMostOneRecord(s: Store, wal: Wallet, quoteId: string)
  {
    forall i, j :: 0 <= i < |s.txs| && 0 <= j < |s.txs| && Carries(s.txs[i], wal, quoteId) && Carries(s.txs[j], wal, quoteId) ==> i == j
  }

  /** The wallet's pending `mint` records, newest first. */
  function PendingMintRecords(s: Store, wal: Wallet): seq<TxRecord>
  {
    TransactionStore.Ordered(s.txs, wal.id, TransactionStore.QueryOptions(Some(TxType.Mint), Some(TxStatus.Pending), None, None))
  }

  /** `checkMintQuote` with the record looked up before any proofs are
      minted. `minted` is consulted only when a pending record exists. */
  function GuardedCheckMintQuote(s: Store, wal: Wallet, quoteId: string,
                                 status: Result<MintQuoteStatus, EngineError>,
                                 minted: Result<seq<EngineProof>, EngineError>): (r: Step<Option<int>>)
    ensures status.Failure? ==> r == Step(s, Failure(status.error))
    ensures status.Success? && status.value.state != Paid ==> r == Step(s, Success(None))
    ensures FindByQuote(PendingMintRecords(s, wal), quoteId).None? && status.Success? ==> r == Step(s, Success(None))
    ensures r.result.Failure? ==> r.store == s
    ensures r.result.Success? && r.result.value.Some? ==> minted.Success? && r.result.value.value == EngineSum(minted.value)
  {
    match status
    case Failure(e) => Step(s, Failure(e))
    case Success(st) =>
      if st.state != Paid then Step(s, Success(None))
      else
        match FindByQuote(PendingMintRecords(s, wal), quoteId)
        case None => Step(s, Success(None))
        case Some(t) =>
          match minted
          case Failure(e) => Step(s, Failure(e))
          case Success(ps) =>
            var ins := ProofStore.InsertProofs(s, wal.id, ps, t.id);
            if ins.failure.Some? then Step(s, Failure(ins.failure.value))
            else Step(TransactionStore.UpdateStatus(ins.store, t.id, TxStatus.Completed, TransactionStore.Updates(Some(EngineSum(ps)), None, None)),
                      Success(Some(EngineSum(ps))))
  }

  /** The record `GuardedCheckMintQuote` claims is a pending `mint` record of
      the wallet for the quote. */
  lemma PendingFound(s: Store, wal: Wallet, quoteId: string)
    ensures var f := FindByQuote(PendingMintRecords(s, wal), quoteId);
      f.Some? ==> f.value in s.txs && Carries(f.value, wal, quoteId) && f.value.status == TxStatus.Pending
  {
    var f := FindByQuote(PendingMintRecords(s, wal), quoteId);
    if f.Some? {
      assert f.value in PendingMintRecords(s, wal);
    }
  }

  /** Whatever amount the guarded call reports, the wallet's balance has
      grown by exactly that amount, and a pending record of the quote has
      become completed with it. */
  lemma GuardedClaimStoresWhatItReports(s: Store, wal: Wallet, quoteId: string,
                                        status: Result<MintQuoteStatus, EngineError>,
                                        minted: Result<seq<EngineProof>, EngineError>)
    ensures var r := GuardedCheckMintQuote(s, wal, quoteId, status, minted);
      r.result.Success? && r.result.value.Some? ==>
        && Balance(r.store.proofs, wal.id) == Balance(s.proofs, wal.id) + r.result.value.value
        && exists i :: 0 <= i < |s.txs| && Carries(s.txs[i], wal, quoteId) && s.txs[i].status == TxStatus.Pending
             && r.store.txs[i].status == TxStatus.Completed && r.store.txs[i].amount == r.result.value.value
  {
    var r := GuardedCheckMintQuote(s, wal, quoteId, status, minted);
    if r.result.Success? && r.result.value.Some? {
      PendingFound(s, wal, quoteId);
      var t := FindByQuote(PendingMintRecords(s, wal), quoteId).value;
      var ps := minted.value;
      var k :| 0 <= k < |s.txs| && s.txs[k] == t;
      BalanceAppend(s.proofs, ProofStore.NewProofs(wal.id, ps, t.id, s.now), wal.id);
      ProofStore.NewProofsBalance(wal.id, ps, t.id, s.now, wal.id);
      assert r.store.txs[k].status == TxStatus.Completed;
    }
  }

  /** Once the quote has been claimed, asking again claims nothing more,
      whatever the mint answers: the only record of the quote is no longer
      pending. */
  lemma GuardedClaimIdempotent(s: Store, wal: Wallet, quoteId: string,
                               status: Result<MintQuoteStatus, EngineError>, minted: Result<seq<EngineProof>, EngineError>,
                               status': Result<MintQuoteStatus, EngineError>, minted': Result<seq<EngineProof>, EngineError>)
    requires AtMostOneRecord(s, wal, quoteId)
    requires GuardedCheckMintQuote(s, wal, quoteId, status, minted).result.Success?
    requires GuardedCheckMintQuote(s, wal, quoteId, status, minted).result.value.Some?
    requires status'.Success?
    ensures var s1 := GuardedCheckMintQuote(s, wal, quoteId, status, minted).store;
      GuardedCheckMintQuote(s1, wal, quoteId, status', minted') == Step(s1, Success(None))
  {
    var s1 := GuardedCheckMintQuote(s, wal, quoteId, status, minted).store;
    PendingFound(s, wal, quoteId);
    var t := FindByQuote(PendingMintRecords(s, wal), quoteId).value;
    var k :| 0 <= k < |s.txs| && s.txs[k] == t;
    PendingFound(s1, wal, quoteId);
    var f := FindByQuote(PendingMintRecords(s1, wal), quoteId);
    if f.Some? {
      assert false;
    }
  }

  /** Where the source behaves as intended the two agree: when the wallet's
      one record of the quote is pending, the guarded call and the source's
      call give the same outcome. */
  lemma GuardedAgreesWithSource(s: Store, wal: Wallet, quoteId: string,
                                status: Result<MintQuoteStatus, EngineError>, minted: Result<seq<EngineProof>, EngineError>, k: int)
    requires AtMostOneRecord(s, wal, quoteId)
    requires 0 <= k < |s.txs| && Carries(s.txs[k], wal, quoteId) && s.txs[k].status == TxStatus.Pending
    ensures GuardedCheckMintQuote(s, wal, quoteId, status, minted) == CheckMintQuote(s, wal, quoteId, status, minted)
  {
    OnlyRecordFound(s, wal, quoteId, k);
    if status.Success? && status.value.state == Paid && minted.Success? {
      ClaimMintFound(s, wal, quoteId, minted.value, s.txs[k]);
    }
  }

  /** The source's database transaction, once the record it finds is
      known. */
  lemma ClaimMintFound(s: Store, wal: Wallet, quoteId: string, ps: seq<EngineProof>, t: TxRecord)
    requires FindByQuote(MintRecords(s, wal), quoteId) == Some(t)
    ensures var ins := ProofStore.InsertProofs(s, wal.id, ps, t.id);
      ClaimMint(s, wal, quoteId, ps)
        == if ins.failure.Some? then Failure(ins.failure.value)
           else Success(TransactionStore.UpdateStatus(ins.store, t.id, TxStatus.Completed, TransactionStore.Updates(Some(EngineSum(ps)), None, None)))
  {
    var o := TransactionStore.QueryOptions(Some(TxType.Mint), None, None, None);
    TransactionStore.PageKeeps(MintRecords(s, wal), o);
  }

  /** With one record of the quote, and that one pending, both look-ups
      find it. */
  lemma OnlyRecordFound(s: Store, wal: Wallet, quoteId: string, k: int)
    requires AtMostOneRecord(s, wal, quoteId)
    requires 0 <= k < |s.txs| && Carries(s.txs[k], wal, quoteId) && s.txs[k].status == TxStatus.Pending
    ensures FindByQuote(PendingMintRecords(s, wal), quoteId) == Some(s.txs[k])
    ensures FindByQuote(MintRecords(s, wal), quoteId) == Some(s.txs[k])
  {
    PendingFound(s, wal, quoteId);
    assert s.txs[k] in PendingMintRecords(s, wal);
    var t := FindByQuote(PendingMintRecords(s, wal), quoteId).value;
    var i :| 0 <= i < |s.txs| && s.txs[i] == t;
    assert s.txs[k] in MintRecords(s, wal);
    var a := FindByQuote(MintRecords(s, wal), quoteId).value;
    assert a in MintRecords(s, wal);
    var j :| 0 <= j < |s.txs| && s.txs[j] == a;
    assert i == k && j == k;
  }

  lemma GuardedValid(s: Store, wal: Wallet, quoteId: string,
                     status: Result<MintQuoteStatus, EngineError>, minted: Result<seq<EngineProof>, EngineError>)
    requires Valid(s)
    ensures Valid(GuardedCheckMintQuote(s, wal, quoteId, status, minted).store)
  {
    var f := FindByQuote(PendingMintRecords(s, wal), quoteId);
    if status.Success? && status.value.state == Paid && f.Some? && minted.Success? {
      var ps := minted.value;
      ProofStore.InsertProofsValid(s, wal.id, ps, f.value.id);
      var ins := ProofStore.InsertProofs(s, wal.id, ps, f.value.id);
      TransactionStore.UpdateStatusValid(ins.store, f.value.id, TxStatus.Completed, TransactionStore.Updates(Some(EngineSum(ps)), None, None));
    }
  }
}
