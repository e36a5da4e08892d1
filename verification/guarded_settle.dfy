/** A corrected `catch` for `send` and `payInvoice` (src/BotWallet.ts).

    As written, one `catch` covers both the engine call and the commit that
    follows it, and it always rolls the reserved proofs back to unspent.
    When the engine call has gone through, though, the mint has already
    consumed those proofs: a commit that fails after that point gives the
    wallet back a balance it no longer owns. `GuardedSendSettle` and
    `GuardedPaySettle` keep the rollback for a failed engine call. Once the
    engine has answered they instead retire the reserved proofs as spent and
    mark the record failed. The error reported is the same. */
module GuardedSettle {
  import opened Wrappers
  import opened Errors
  import opened Schema
  import opened Engine
  import opened BotWallet
  import ProofStore
  import TransactionStore

  /** The reserved rows are all out of the balance: each row whose id is
      listed is spent. */
  ghost predicate Retired(before: seq<Proof>, after: seq<Proof>, ids: seq<string>)
  {
    && |before| <= |after|
    && forall i :: 0 <= i < |before| && before[i].id in ids ==> after[i].state == Spent
  }

  /** The `catch` once the engine has consumed the reserved proofs: they
      are spent, every other row stays, and the record is failed. */
  function Forfeit(s1: Store, txId: string, ids: seq<string>): (r: Store)
    ensures r.wallets == s1.wallets && |r.proofs| == |s1.proofs| && |r.txs| == |s1.txs|
    ensures Retired(s1.proofs, r.proofs, ids)
    ensures forall i :: 0 <= i < |s1.proofs| && s1.proofs[i].id !in ids ==> r.proofs[i] == s1.proofs[i]
    ensures forall i :: 0 <= i < |s1.txs| && s1.txs[i].id == txId ==> r.txs[i].status == TxStatus.Failed
    ensures Valid(s1) ==> Valid(r)
  {
    var s2 := ProofStore.MarkSpent(s1, ids);
    TransactionStore.UpdateStatusValid(s2, txId, TxStatus.Failed, TransactionStore.NoUpdates);
    TransactionStore.UpdateStatus(s2, txId, TxStatus.Failed, TransactionStore.NoUpdates)
  }

  /** A commit that goes through spends every reserved row. */
  lemma CommitRetires(s1: Store, w: string, txId: string, ids: seq<string>, incoming: seq<EngineProof>,
                      status: TxStatus, u: TransactionStore.Updates)
    requires Commit(s1, w, txId, ids, incoming, status, u).Success?
    ensures Retired(s1.proofs, Commit(s1, w, txId, ids, incoming, status, u).value.proofs, ids)
  {
    var spent := ProofStore.MarkSpent(s1, ids);
    ProofStore.InsertProofsPartial(spent, w, incoming, txId);
    var ins := if |incoming| > 0 then ProofStore.InsertProofs(spent, w, incoming, txId) else ProofStore.Partial(spent, None);
    assert ins.store.proofs[..|s1.proofs|] == spent.proofs;
    var r := Commit(s1, w, txId, ids, incoming, status, u).value;
    assert r.proofs == ins.store.proofs;
    forall i | 0 <= i < |s1.proofs| && s1.proofs[i].id in ids
      ensures r.proofs[i].state == Spent
    {
      assert r.proofs[i] == ins.store.proofs[..|s1.proofs|][i];
    }
  }

  /** `send`'s `try` after the reservation, with the corrected `catch`. */
  function GuardedSendSettle(s1: Store, wal: Wallet, txId: string, ids: seq<string>,
                             split: Result<SendData, EngineError>): (r: Step<string>)
    ensures r.result == SendSettle(s1, wal, txId, ids, split).result
    ensures split.Failure? || r.result.Success? ==> r == SendSettle(s1, wal, txId, ids, split)
    ensures split.Success? ==> Retired(s1.proofs, r.store.proofs, ids)
  {
    match split
    case Failure(e) => Step(Abort(s1, txId, ids), Failure(e))
    case Success(d) =>
      match Commit(s1, wal.id, txId, ids, d.keep, TxStatus.Completed, SendUpdates(d))
      case Failure(e) => Step(Forfeit(s1, txId, ids), Failure(e))
      case Success(s2) =>
        CommitRetires(s1, wal.id, txId, ids, d.keep, TxStatus.Completed, SendUpdates(d));
        Step(s2, Success(d.token))
  }

  /** `payInvoice`'s `try` after the reservation, with the corrected
      `catch`. */
  function GuardedPaySettle(s1: Store, wal: Wallet, txId: string, ids: seq<string>, q: MeltQuote,
                            melt: Result<MeltData, EngineError>): (r: Step<MeltResult>)
    ensures r.result == PaySettle(s1, wal, txId, ids, q, melt).result
    ensures melt.Failure? || r.result.Success? ==> r == PaySettle(s1, wal, txId, ids, q, melt)
    ensures melt.Success? ==> Retired(s1.proofs, r.store.proofs, ids)
  {
    match melt
    case Failure(e) => Step(Abort(s1, txId, ids), Failure(e))
    case Success(m) =>
      match Commit(s1, wal.id, txId, ids, m.change, PayStatus(m), PayUpdates(q, m))
      case Failure(e) => Step(Forfeit(s1, txId, ids), Failure(e))
      case Success(s2) =>
        CommitRetires(s1, wal.id, txId, ids, m.change, PayStatus(m), PayUpdates(q, m));
        var change := EngineSum(m.change);
        Step(s2, Success(MeltResult(m.state == Paid, m.preimage, q.feeReserve - change, change)))
  }

  /** As written, a failed commit after the engine's `send` puts every
      reserved row back to unspent, although the mint has consumed them. */
  lemma SendSettleRevives(s1: Store, wal: Wallet, txId: string, ids: seq<string>, split: Result<SendData, EngineError>)
    requires split.Success?
    requires Commit(s1, wal.id, txId, ids, split.value.keep, TxStatus.Completed, SendUpdates(split.value)).Failure?
    ensures var r := SendSettle(s1, wal, txId, ids, split);
      && r.result.Failure?
      && forall i :: 0 <= i < |s1.proofs| && s1.proofs[i].id in ids ==> r.store.proofs[i].state == Unspent
  {
  }

  /** The same for the engine's melt. */
  lemma PaySettleRevives(s1: Store, wal: Wallet, txId: string, ids: seq<string>, q: MeltQuote, melt: Result<MeltData, EngineError>)
    requires melt.Success?
    requires Commit(s1, wal.id, txId, ids, melt.value.change, PayStatus(melt.value), PayUpdates(q, melt.value)).Failure?
    ensures var r := PaySettle(s1, wal, txId, ids, q, melt);
      && r.result.Failure?
      && forall i :: 0 <= i < |s1.proofs| && s1.proofs[i].id in ids ==> r.store.proofs[i].state == Unspent
  {
  }

  /** With the correction, whatever the commit does, no proof the engine
      consumed is counted again, and a failed commit leaves a failed
      record. */
  lemma GuardedSettleNeverRevives(s1: Store, wal: Wallet, txId: string, ids: seq<string>, split: Result<SendData, EngineError>)
    requires split.Success?
    requires Commit(s1, wal.id, txId, ids, split.value.keep, TxStatus.Completed, SendUpdates(split.value)).Failure?
    ensures var r := GuardedSendSettle(s1, wal, txId, ids, split);
      && r.result.Failure?
      && (forall i :: 0 <= i < |s1.proofs| && s1.proofs[i].id in ids ==> r.store.proofs[i].state != Unspent)
      && (forall i :: 0 <= i < |s1.txs| && s1.txs[i].id == txId ==> r.store.txs[i].status == TxStatus.Failed)
  {
  }
}
