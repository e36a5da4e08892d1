/** The wallet operations of `BotWalletImpl` (src/BotWallet.ts). Each is a
    pure transition from the database state and the outcomes of the token
    engine's calls to the new state and what the call returns or throws.

    The local steps run inside `database.transaction`, so each is all or
    nothing: `Reserve`, `Commit` and `Abort` below are those closures, and a
    failing one leaves the state it started from. Transaction ids come from a
    random generator and are passed in. */
module BotWallet {
  import opened Wrappers
  import opened Errors
  import opened Schema
  import opened Engine
  import ProofStore
  import TransactionStore
  import WalletMetaStore

  /** The configuration a `BotWalletImpl` is constructed with. */
  datatype Wallet = Wallet(id: string, mintUrl: string, unit: string)

  /** The state an operation leaves behind and its value or the error it
      throws. */
  datatype Step<T> = Step(store: Store, result: Result<T, Error>)

  /** What `createMintInvoice` returns. */
  datatype MintInvoice = MintInvoice(quoteId: string, invoice: string, amount: int, expiry: int)

  /** What `payInvoice` returns. */
  datatype MeltResult = MeltResult(paid: bool, preimage: Option<string>, fee: int, change: int)

  /** What `getInfo` returns. */
  datatype WalletInfo = WalletInfo(id: string, mintUrl: string, unit: string, balance: int, createdAt: nat)

  // ---------------------------------------------------------------------
  // Construction and reads

  /** The constructor's `metaStore.upsert(id, mintUrl, unit)`: afterwards the
      wallet row exists, and the ledger and the log are as they were. */
  function Open(s: Store, wal: Wallet): (r: Store)
    ensures wal.id in r.wallets
    ensures r.proofs == s.proofs && r.txs == s.txs && r.now == s.now
    ensures wal.id !in s.wallets ==> r.wallets[wal.id].mintUrl == wal.mintUrl && r.wallets[wal.id].unit == wal.unit
    ensures Valid(s) ==> Valid(r)
  {
    WalletMetaStore.UpsertValid(s, wal.id, wal.mintUrl, wal.unit);
    WalletMetaStore.Upsert(s, wal.id, wal.mintUrl, wal.unit)
  }

  /** `getBalance`: the sum of the wallet's unspent proofs. */
  function GetBalance(s: Store, wal: Wallet): (r: int)
    ensures r == SumAmounts(ProofStore.GetUnspentProofs(s, wal.id))
    ensures r == Balance(s.proofs, wal.id)
  {
    ProofStore.BalanceIsUnspentSum(s.proofs, wal.id);
    ProofStore.GetBalance(s, wal.id)
  }

  /** `getTransactions`: the log query for this wallet. It fails exactly
      when an offset comes without a limit; otherwise it is the window the
      paging numbers cut from the wallet's matching records, newest first,
      and without paging it is all of them. */
  function GetTransactions(s: Store, wal: Wallet, o: TransactionStore.QueryOptions): (r: Result<seq<TxRecord>, Error>)
    ensures r.Failure? <==> TransactionStore.Given(o.offset) && !TransactionStore.Given(o.limit)
    ensures r.Failure? ==> r.error == MalformedQuery
    ensures r.Success? ==>
      var xs := TransactionStore.Ordered(s.txs, wal.id, TransactionStore.Unpaged(o));
      var k := TransactionStore.Skip(o);
      && (k >= |xs| ==> r.value == [])
      && (k < |xs| ==> |r.value| <= |xs| - k && r.value == xs[k..k + |r.value|])
      && |r.value| == if TransactionStore.Given(o.limit) && o.limit.value > 0 && k + o.limit.value <= |xs| then o.limit.value
                      else if k <= |xs| then |xs| - k else 0
    ensures r.Success? ==> forall t :: t in r.value ==> t in s.txs && TransactionStore.Matches(t, wal.id, o)
    ensures r.Success? ==> TransactionStore.NewestToOldest(r.value)
    ensures !TransactionStore.Given(o.limit) && !TransactionStore.Given(o.offset) ==>
      r.Success? && multiset(r.value) == multiset(TransactionStore.Filter(s.txs, wal.id, o))
  {
    TransactionStore.Query(s, wal.id, o)
  }

  /** `getInfo`. `now` is the wall-clock reading `getCreatedAt` falls back
      to when the wallet row is missing. */
  function GetInfo(s: Store, wal: Wallet, now: nat): (r: WalletInfo)
    ensures r.id == wal.id && r.mintUrl == wal.mintUrl && r.unit == wal.unit
    ensures r.balance == Balance(s.proofs, wal.id)
    ensures wal.id in s.wallets ==> r.createdAt == s.wallets[wal.id].createdAt
  {
    WalletInfo(wal.id, wal.mintUrl, wal.unit, GetBalance(s, wal), WalletMetaStore.GetCreatedAt(s, wal.id, now))
  }

  // ---------------------------------------------------------------------
  // The database transactions the operations run

  /** The reservation: insert the pending record and mark the selected
      proofs pending under it. */
  function Reserve(s: Store, p: TransactionStore.InsertParams, ids: seq<string>): (r: Result<Store, Error>)
    ensures r.Success? <==> TransactionStore.Insert(s, p).Success?
    ensures r.Failure? ==> r.error.ConstraintViolation?
    ensures r.Success? ==>
      && OneRecordAdded(s, r.value, p.id, p.txType, TxStatus.Pending)
      && r.value.wallets == s.wallets && r.value.now == s.now
      && r.value.proofs == ProofStore.MarkPending(s, ids, p.id).proofs
  {
    match TransactionStore.Insert(s, p)
    case Failure(e) => Failure(e)
    case Success(s1) => Success(ProofStore.MarkPending(s1, ids, p.id))
  }

  /** The commit: the reserved proofs become spent, the engine's new proofs
      (if any) are stored, and the record gets its final status and fields. */
  function Commit(s: Store, w: string, txId: string, ids: seq<string>, incoming: seq<EngineProof>,
                  status: TxStatus, u: TransactionStore.Updates): (r: Result<Store, Error>)
    ensures r.Success? <==> ProofStore.CanInsertAll(s, w, incoming)
    ensures r.Failure? ==> r.error.ConstraintViolation?
  {
    var s1 := ProofStore.MarkSpent(s, ids);
    assert ProofIds(s1.proofs) == ProofIds(s.proofs);
    var ins := if |incoming| > 0 then ProofStore.InsertProofs(s1, w, incoming, txId) else ProofStore.Partial(s1, None);
    ProofStore.InsertProofsPartial(s1, w, incoming, txId);
    match ins.failure
    case Some(e) => Failure(e)
    case None => Success(TransactionStore.UpdateStatus(ins.store, txId, status, u))
  }

  /** The `catch` of `send` and `payInvoice`: the reserved proofs go back to
      unspent and the record is marked failed. */
  function Abort(s: Store, txId: string, ids: seq<string>): (r: Store)
    ensures r.wallets == s.wallets && |r.proofs| == |s.proofs| && |r.txs| == |s.txs|
    ensures forall i :: 0 <= i < |s.proofs| && s.proofs[i].id in ids ==> r.proofs[i].state == Unspent
    ensures forall i :: 0 <= i < |s.txs| && s.txs[i].id == txId ==> r.txs[i].status == TxStatus.Failed
    ensures Valid(s) ==> Valid(r)
  {
    var s1 := ProofStore.RollbackPending(s, ids);
    TransactionStore.UpdateStatusValid(s1, txId, TxStatus.Failed, TransactionStore.NoUpdates);
    TransactionStore.UpdateStatus(s1, txId, TxStatus.Failed, TransactionStore.NoUpdates)
  }

  /** The `receive` record: the token's face value, the memo and the token. */
  function ReceiveParams(wal: Wallet, token: string, memo: Option<TransactionStore.Memo>, txId: string, ps: seq<EngineProof>): TransactionStore.InsertParams
  {
    TransactionStore.InsertParams(txId, wal.id, TxType.Receive, EngineSum(ps), memo, Some(token), None, None)
  }

  /** The `send` record: the amount asked for and the memo, no token yet. */
  function SendParams(wal: Wallet, amount: int, memo: Option<TransactionStore.Memo>, txId: string): TransactionStore.InsertParams
  {
    TransactionStore.InsertParams(txId, wal.id, TxType.Send, amount, memo, None, None, None)
  }

  /** The `melt` record: the quote's amount, the memo, the invoice and the
      quote id. */
  function PayParams(wal: Wallet, invoice: string, memo: Option<TransactionStore.Memo>, txId: string, q: MeltQuote): TransactionStore.InsertParams
  {
    TransactionStore.InsertParams(txId, wal.id, TxType.Melt, q.amount, memo, None, Some(invoice), Some(q.quote))
  }

  /** `paid ? 'completed' : 'failed'`. */
  function PayStatus(m: MeltData): TxStatus
  {
    if m.state == Paid then TxStatus.Completed else TxStatus.Failed
  }

  /** `{ fee: fee - changeAmount }`. */
  function PayUpdates(q: MeltQuote, m: MeltData): TransactionStore.Updates
  {
    TransactionStore.Updates(None, Some(q.feeReserve - EngineSum(m.change)), None)
  }

  // ---------------------------------------------------------------------
  // receive

  /** `receive(token, memo)`. `decoded` is `engine.decodeToken`'s proofs, or
      None when the token does not decode; `redeemed` is the outcome of
      `engine.receive`. The record is inserted before the engine is called,
      at the token's face value. */
  function Receive(s: Store, wal: Wallet, token: string, memo: Option<TransactionStore.Memo>, txId: string,
                   decoded: Option<seq<EngineProof>>, redeemed: Result<seq<EngineProof>, EngineError>): (r: Step<int>)
    ensures decoded.None? ==> r == Step(s, Failure(InvalidToken(DefaultInvalidTokenMessage)))
    ensures r.result.Success? ==> redeemed.Success? && r.result.value == EngineSum(redeemed.value)
  {
    match decoded
    case None => Step(s, Failure(InvalidToken(DefaultInvalidTokenMessage)))
    case Some(ps) =>
      var p := ReceiveParams(wal, token, memo, txId, ps);
      match TransactionStore.Insert(s, p)
      case Failure(e) => Step(s, Failure(e))
      case Success(s1) =>
        match redeemed
        case Failure(e) => Step(TransactionStore.UpdateStatus(s1, txId, TxStatus.Failed, TransactionStore.NoUpdates), Failure(e))
        case Success(incoming) =>
          var received := EngineSum(incoming);
          var ins := ProofStore.InsertProofs(s1, wal.id, incoming, txId);
          if ins.failure.Some? then
            Step(TransactionStore.UpdateStatus(s1, txId, TxStatus.Failed, TransactionStore.NoUpdates), Failure(ins.failure.value))
          else
            Step(TransactionStore.UpdateStatus(ins.store, txId, TxStatus.Completed, TransactionStore.Updates(Some(received), None, None)),
                 Success(received))
  }

  // ---------------------------------------------------------------------
  // send

  /** `send(amount, memo)`. `split` is the outcome of `engine.send` followed
      by `engine.encodeToken`. */
  function Send(s: Store, wal: Wallet, amount: int, memo: Option<TransactionStore.Memo>, txId: string,
                split: Result<SendData, EngineError>): (r: Step<string>)
    ensures r.result.Failure? && r.result.error.InsufficientBalance? <==> amount <= 0 || Balance(s.proofs, wal.id) < amount
    ensures amount <= 0 || Balance(s.proofs, wal.id) < amount ==>
      r == Step(s, Failure(InsufficientBalance(amount, Balance(s.proofs, wal.id))))
    ensures r.result.Success? ==> split.Success? && r.result.value == split.value.token
  {
    var balance := GetBalance(s, wal);
    if balance < amount then Step(s, Failure(InsufficientBalance(amount, balance)))
    else
      var selected := ProofStore.SelectProofsForAmount(s, wal.id, amount);
      if |selected| == 0 then Step(s, Failure(InsufficientBalance(amount, balance)))
      else
        var ids := ProofIds(selected);
        match Reserve(s, SendParams(wal, amount, memo, txId), ids)
        case Failure(e) => Step(s, Failure(e))
        case Success(s1) => SendSettle(s1, wal, txId, ids, split)
  }

  /** `{ token: tokenString }`. */
  function SendUpdates(d: SendData): TransactionStore.Updates
  {
    TransactionStore.Updates(None, None, Some(d.token))
  }

  /** The `try` of `send` after the reservation: commit when the engine
      split the proofs, and the `catch` when it or the commit failed. */
  function SendSettle(s1: Store, wal: Wallet, txId: string, ids: seq<string>, split: Result<SendData, EngineError>): (r: Step<string>)
    ensures r.result.Success? <==>
      split.Success? && Commit(s1, wal.id, txId, ids, split.value.keep, TxStatus.Completed, SendUpdates(split.value)).Success?
    ensures r.result.Success? ==>
      && r.result.value == split.value.token
      && r.store == Commit(s1, wal.id, txId, ids, split.value.keep, TxStatus.Completed, SendUpdates(split.value)).value
    ensures r.result.Failure? ==> r.store == Abort(s1, txId, ids) && !r.result.error.InsufficientBalance?
    ensures split.Failure? ==> r.result == Failure(split.error)
    ensures split.Success? ==>
      var c := Commit(s1, wal.id, txId, ids, split.value.keep, TxStatus.Completed, SendUpdates(split.value));
      c.Failure? ==> r.result == Failure(c.error) && c.error.ConstraintViolation?
  {
    match split
    case Failure(e) => Step(Abort(s1, txId, ids), Failure(e))
    case Success(d) =>
      match Commit(s1, wal.id, txId, ids, d.keep, TxStatus.Completed, SendUpdates(d))
      case Failure(e) => Step(Abort(s1, txId, ids), Failure(e))
      case Success(s2) => Step(s2, Success(d.token))
  }

  // ---------------------------------------------------------------------
  // createMintInvoice and checkMintQuote

  /** `createMintInvoice(amount)`: ask the mint for a quote, then log a
      pending `mint` record carrying its id and invoice. */
  function CreateMintInvoice(s: Store, wal: Wallet, amount: int, txId: string,
                             quote: Result<MintQuote, EngineError>): (r: Step<MintInvoice>)
    ensures r.store.proofs == s.proofs && r.store.wallets == s.wallets
    ensures r.result.Success? ==>
      && quote.Success?
      && r.result.value == MintInvoice(quote.value.quote, quote.value.request, quote.value.amount, quote.value.expiry)
      && OneRecordAdded(s, r.store, txId, TxType.Mint, TxStatus.Pending)
      && r.store.txs[|s.txs|].quoteId == Some(quote.value.quote)
      && r.store.txs[|s.txs|].invoice == Some(quote.value.request)
      && r.store.txs[|s.txs|].amount == amount
    ensures r.result.Failure? ==> r.store == s
  {
    match quote
    case Failure(e) => Step(s, Failure(e))
    case Success(q) =>
      var p := TransactionStore.InsertParams(txId, wal.id, TxType.Mint, amount, None, None, Some(q.request), Some(q.quote));
      match TransactionStore.Insert(s, p)
      case Failure(e) => Step(s, Failure(e))
      case Success(s1) => Step(s1, Success(MintInvoice(q.quote, q.request, q.amount, q.expiry)))
  }

  /** The position of the first record carrying the quote id, or `|ts|`
      when none does. */
  function FirstWithQuote(ts: seq<TxRecord>, quoteId: string): (k: nat)
    ensures k <= |ts|
    ensures forall i :: 0 <= i < k ==> ts[i].quoteId != Some(quoteId)
    ensures k < |ts| ==> ts[k].quoteId == Some(quoteId)
  {
    if |ts| == 0 then 0
    else if ts[0].quoteId == Some(quoteId) then 0
    else 1 + FirstWithQuote(ts[1..], quoteId)
  }

  /** `txRows.find((t) => t.quoteId === quoteId)`: the first record carrying
      the quote id, whatever its status. */
  function FindByQuote(ts: seq<TxRecord>, quoteId: string): (r: Option<TxRecord>)
    ensures r.None? <==> forall i :: 0 <= i < |ts| ==> ts[i].quoteId != Some(quoteId)
    ensures r.Some? ==> r.value == ts[FirstWithQuote(ts, quoteId)]
  {
    var k := FirstWithQuote(ts, quoteId);
    if k < |ts| then Some(ts[k]) else None
  }

  /** The wallet's `mint` records, newest first. */
  function MintRecords(s: Store, wal: Wallet): seq<TxRecord>
  {
    TransactionStore.Ordered(s.txs, wal.id, TransactionStore.QueryOptions(Some(TxType.Mint), None, None, None))
  }

  /** The database transaction of `checkMintQuote`: find the record and, if
      there is one, store the minted proofs under it and complete it. */
  function ClaimMint(s: Store, wal: Wallet, quoteId: string, ps: seq<EngineProof>): (r: Result<Store, Error>)
    ensures FindByQuote(MintRecords(s, wal), quoteId).None? ==> r == Success(s)
    ensures r.Failure? ==> r.error.ConstraintViolation?
  {
    var o := TransactionStore.QueryOptions(Some(TxType.Mint), None, None, None);
    var rows := TransactionStore.Query(s, wal.id, o);
    TransactionStore.PageKeeps(MintRecords(s, wal), o);
    match FindByQuote(rows.value, quoteId)
    case None => Success(s)
    case Some(t) =>
      var ins := ProofStore.InsertProofs(s, wal.id, ps, t.id);
      ProofStore.InsertProofsPartial(s, wal.id, ps, t.id);
      if ins.failure.Some? then Failure(ins.failure.value)
      else Success(TransactionStore.UpdateStatus(ins.store, t.id, TxStatus.Completed, TransactionStore.Updates(Some(EngineSum(ps)), None, None)))
  }

  /** `checkMintQuote(quoteId)`. `status` is `engine.checkMintQuote`'s
      outcome and `minted` that of `engine.mintProofs`, which runs before the
      record is looked up. */
  function CheckMintQuote(s: Store, wal: Wallet, quoteId: string,
                          status: Result<MintQuoteStatus, EngineError>,
                          minted: Result<seq<EngineProof>, EngineError>): (r: Step<Option<int>>)
    ensures status.Success? && status.value.state != Paid ==> r == Step(s, Success(None))
    ensures r.result.Failure? ==> r.store == s
    ensures r.result.Success? && r.result.value.Some? ==> minted.Success? && r.result.value.value == EngineSum(minted.value)
  {
    match status
    case Failure(e) => Step(s, Failure(e))
    case Success(st) =>
      if st.state != Paid then Step(s, Success(None))
      else
        match minted
        case Failure(e) => Step(s, Failure(e))
        case Success(ps) =>
          match ClaimMint(s, wal, quoteId, ps)
          case Failure(e) => Step(s, Failure(e))
          case Success(s1) => Step(s1, Success(Some(EngineSum(ps))))
  }

  // ---------------------------------------------------------------------
  // payInvoice

  /** `payInvoice(invoice, memo)`. `quote` is `engine.createMeltQuote`'s
      outcome and `melt` that of `engine.meltProofs`. The fee recorded and
      returned is the reserve minus the change. */
  function PayInvoice(s: Store, wal: Wallet, invoice: string, memo: Option<TransactionStore.Memo>, txId: string,
                      quote: Result<MeltQuote, EngineError>, melt: Result<MeltData, EngineError>): (r: Step<MeltResult>)
    ensures quote.Failure? ==> r == Step(s, Failure(quote.error))
    ensures quote.Success? ==>
      var needed := quote.value.amount + quote.value.feeReserve;
      && (r.result.Failure? && r.result.error.InsufficientBalance? <==> needed <= 0 || Balance(s.proofs, wal.id) < needed)
      && (needed <= 0 || Balance(s.proofs, wal.id) < needed ==>
            r == Step(s, Failure(InsufficientBalance(needed, Balance(s.proofs, wal.id)))))
    ensures r.result.Success? ==>
      && quote.Success? && melt.Success?
      && r.result.value.paid == (melt.value.state == Paid)
      && r.result.value.preimage == melt.value.preimage
      && r.result.value.change == EngineSum(melt.value.change)
      && r.result.value.fee == quote.value.feeReserve - EngineSum(melt.value.change)
  {
    match quote
    case Failure(e) => Step(s, Failure(e))
    case Success(q) =>
      var needed := q.amount + q.feeReserve;
      var balance := GetBalance(s, wal);
      if balance < needed then Step(s, Failure(InsufficientBalance(needed, balance)))
      else
        var selected := ProofStore.SelectProofsForAmount(s, wal.id, needed);
        if |selected| == 0 then Step(s, Failure(InsufficientBalance(needed, balance)))
        else
          var ids := ProofIds(selected);
          match Reserve(s, PayParams(wal, invoice, memo, txId, q), ids)
          case Failure(e) => Step(s, Failure(e))
          case Success(s1) => PaySettle(s1, wal, txId, ids, q, melt)
  }

  /** The `try` of `payInvoice` after the reservation: commit whatever state
      the melt reports, and the `catch` when the engine or the commit failed. */
  function PaySettle(s1: Store, wal: Wallet, txId: string, ids: seq<string>, q: MeltQuote,
                     melt: Result<MeltData, EngineError>): (r: Step<MeltResult>)
    ensures r.result.Success? <==>
      melt.Success? && Commit(s1, wal.id, txId, ids, melt.value.change, PayStatus(melt.value), PayUpdates(q, melt.value)).Success?
    ensures r.result.Success? ==>
      && r.result.value.paid == (melt.value.state == Paid)
      && r.result.value.preimage == melt.value.preimage
      && r.result.value.change == EngineSum(melt.value.change)
      && r.result.value.fee == q.feeReserve - EngineSum(melt.value.change)
      && r.store == Commit(s1, wal.id, txId, ids, melt.value.change, PayStatus(melt.value), PayUpdates(q, melt.value)).value
    ensures r.result.Failure? ==> r.store == Abort(s1, txId, ids) && !r.result.error.InsufficientBalance?
    ensures melt.Failure? ==> r.result == Failure(melt.error)
    ensures melt.Success? ==>
      var c := Commit(s1, wal.id, txId, ids, melt.value.change, PayStatus(melt.value), PayUpdates(q, melt.value));
      c.Failure? ==> r.result == Failure(c.error) && c.error.ConstraintViolation?
  {
    match melt
    case Failure(e) => Step(Abort(s1, txId, ids), Failure(e))
    case Success(m) =>
      match Commit(s1, wal.id, txId, ids, m.change, PayStatus(m), PayUpdates(q, m))
      case Failure(e) => Step(Abort(s1, txId, ids), Failure(e))
      case Success(s2) =>
        var change := EngineSum(m.change);
        Step(s2, Success(MeltResult(m.state == Paid, m.preimage, q.feeReserve - change, change)))
  }
}
