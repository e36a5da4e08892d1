/** What the wallet operations of src/BotWallet.ts guarantee about the
    ledger and the log: the table invariants survive every call, value is
    conserved against what the engine hands back, a failure after the
    reservation gives every reserved proof back, and no call leaves a proof
    pending. */
module BotWalletProperties {
  import opened Wrappers
  import opened Errors
  import opened Sequences
  import opened Schema
  import opened Engine
  import ProofStore
  import TransactionStore
  import opened BotWallet

  // ---------------------------------------------------------------------
  // The database transactions

  /** With unique ids, every row whose id the selection lists is one of the
      selected proofs: an unspent proof of the wallet. */
  lemma SelectedAreUnspent(s: Store, w: string, target: int)
    requires UniqueProofIds(s.proofs)
    ensures var ids := ProofIds(ProofStore.SelectProofsForAmount(s, w, target));
      forall i :: 0 <= i < |s.proofs| && s.proofs[i].id in ids ==>
        s.proofs[i].state == Unspent && s.proofs[i].walletId == w
  {
    var sel := ProofStore.SelectProofsForAmount(s, w, target);
    var ids := ProofIds(sel);
    forall i | 0 <= i < |s.proofs| && s.proofs[i].id in ids
      ensures s.proofs[i].state == Unspent && s.proofs[i].walletId == w
    {
      var k :| 0 <= k < |ids| && ids[k] == s.proofs[i].id;
      assert sel[k] in sel;
      assert sel[k] in s.proofs && sel[k].state == Unspent && sel[k].walletId == w;
      var j :| 0 <= j < |s.proofs| && s.proofs[j] == sel[k];
      assert s.proofs[j].id == s.proofs[i].id;
      SameIdSameProof(s.proofs, i, j);
    }
  }

  /** Updating the record a step has just appended leaves the older records
      alone: the log still differs by that one record, now in its new status. */
  lemma UpdateNewRecord(s0: Store, s1: Store, id: string, t: TxType, st: TxStatus, status: TxStatus, u: TransactionStore.Updates)
    requires OneRecordAdded(s0, s1, id, t, st)
    requires id !in TxIds(s0.txs)
    ensures OneRecordAdded(s0, TransactionStore.UpdateStatus(s1, id, status, u), id, t, status)
  {
    var r := TransactionStore.UpdateStatus(s1, id, status, u);
    forall i | 0 <= i < |s0.txs|
      ensures r.txs[i] == s0.txs[i]
    {
      assert s1.txs[..|s0.txs|][i] == s1.txs[i];
      assert s0.txs[i].id == TxIds(s0.txs)[i];
    }
    assert r.txs[..|s0.txs|] == s0.txs;
  }

  /** A reservation followed by the `catch`: when the reserved proofs were
      unspent, the ledger is exactly what it was and the log has gained one
      failed record. */
  lemma ReserveAbortRestores(s: Store, p: TransactionStore.InsertParams, ids: seq<string>)
    requires Valid(s)
    requires Reserve(s, p, ids).Success?
    requires forall i :: 0 <= i < |s.proofs| && s.proofs[i].id in ids ==> s.proofs[i].state == Unspent
    ensures var r := Abort(Reserve(s, p, ids).value, p.id, ids);
      && r.proofs == s.proofs && r.wallets == s.wallets
      && OneRecordAdded(s, r, p.id, p.txType, TxStatus.Failed)
  {
    var s1 := TransactionStore.Insert(s, p).value;
    ProofStore.RollbackUndoesMarkPending(s1, ids, p.id);
    var back := ProofStore.RollbackPending(ProofStore.MarkPending(s1, ids, p.id), ids);
    assert back == s1;
    UpdateNewRecord(s, back, p.id, p.txType, TxStatus.Pending, TxStatus.Failed, TransactionStore.NoUpdates);
  }

  /** A reservation followed by the commit changes wallet `v`'s balance by
      the listed proofs it loses and the engine's proofs it gains. */
  lemma ReserveCommitBalance(s: Store, p: TransactionStore.InsertParams, ids: seq<string>, incoming: seq<EngineProof>,
                             status: TxStatus, u: TransactionStore.Updates, v: string)
    requires Reserve(s, p, ids).Success?
    requires Commit(Reserve(s, p, ids).value, p.walletId, p.id, ids, incoming, status, u).Success?
    ensures var r := Commit(Reserve(s, p, ids).value, p.walletId, p.id, ids, incoming, status, u).value;
      Balance(r.proofs, v) == Balance(s.proofs, v) - ListedBalance(s.proofs, v, ids)
                              + (if v == p.walletId then EngineSum(incoming) else 0)
  {
    var s1 := Reserve(s, p, ids).value;
    var spent := ProofStore.MarkSpent(s1, ids);
    assert spent.proofs == ProofStore.MarkSpent(ProofStore.MarkPending(s, ids, p.id), ids).proofs;
    ProofStore.SpendReservedBalance(s, ids, p.id, v);
    if |incoming| > 0 {
      var ins := ProofStore.InsertProofs(spent, p.walletId, incoming, p.id);
      BalanceAppend(spent.proofs, ProofStore.NewProofs(p.walletId, incoming, p.id, spent.now), v);
      ProofStore.NewProofsBalance(p.walletId, incoming, p.id, spent.now, v);
    }
  }

  /** After a reservation and its commit, every listed proof is spent, every
      other row is as it was, the engine's proofs follow as unspent rows, and
      the record has its final status. */
  lemma ReserveCommitShape(s: Store, p: TransactionStore.InsertParams, ids: seq<string>, incoming: seq<EngineProof>,
                           status: TxStatus, u: TransactionStore.Updates)
    requires Reserve(s, p, ids).Success?
    requires Commit(Reserve(s, p, ids).value, p.walletId, p.id, ids, incoming, status, u).Success?
    ensures var r := Commit(Reserve(s, p, ids).value, p.walletId, p.id, ids, incoming, status, u).value;
      && r.wallets == s.wallets
      && r.proofs == ProofStore.MarkSpent(ProofStore.MarkPending(s, ids, p.id), ids).proofs
                     + ProofStore.NewProofs(p.walletId, incoming, p.id, s.now)
      && OneRecordAdded(s, r, p.id, p.txType, status)
      && NoNewPending(s, r)
  {
    var s1 := Reserve(s, p, ids).value;
    var spent := ProofStore.MarkSpent(s1, ids);
    assert spent.proofs == ProofStore.MarkSpent(ProofStore.MarkPending(s, ids, p.id), ids).proofs;
    var ins := if |incoming| > 0 then ProofStore.InsertProofs(spent, p.walletId, incoming, p.id) else ProofStore.Partial(spent, None);
    assert ins.store.proofs == spent.proofs + ProofStore.NewProofs(p.walletId, incoming, p.id, s.now);
    assert ins.store.txs == s1.txs;
    UpdateNewRecord(s, ins.store, p.id, p.txType, TxStatus.Pending, status, u);
  }

  lemma ReserveValid(s: Store, p: TransactionStore.InsertParams, ids: seq<string>)
    requires Valid(s)
    ensures Reserve(s, p, ids).Success? ==> Valid(Reserve(s, p, ids).value)
  {
    TransactionStore.InsertValid(s, p);
  }

  lemma CommitValid(s: Store, w: string, txId: string, ids: seq<string>, incoming: seq<EngineProof>,
                    status: TxStatus, u: TransactionStore.Updates)
    requires Valid(s)
    ensures Commit(s, w, txId, ids, incoming, status, u).Success? ==> Valid(Commit(s, w, txId, ids, incoming, status, u).value)
  {
    var s1 := ProofStore.MarkSpent(s, ids);
    ProofStore.InsertProofsValid(s1, w, incoming, txId);
    var ins := if |incoming| > 0 then ProofStore.InsertProofs(s1, w, incoming, txId) else ProofStore.Partial(s1, None);
    TransactionStore.UpdateStatusValid(ins.store, txId, status, u);
  }

  /** A reservation then the `catch` leaves no proof pending. */
  lemma ReserveAbortNoPending(s: Store, p: TransactionStore.InsertParams, ids: seq<string>)
    requires Reserve(s, p, ids).Success?
    ensures NoNewPending(s, Abort(Reserve(s, p, ids).value, p.id, ids))
  {
  }

  // ---------------------------------------------------------------------
  // send

  /** A `send` that throws leaves the ledger exactly as it was, and the log
      either as it was or with one failed `send` record: the reserved proofs
      are all unspent again and the balance is the one before the call. */
  lemma SendFailureRestores(s: Store, wal: Wallet, amount: int, memo: Option<TransactionStore.Memo>, txId: string,
                            split: Result<SendData, EngineError>)
    requires Valid(s)
    ensures var r := BotWallet.Send(s, wal, amount, memo, txId, split);
      r.result.Failure? ==>
        && r.store.proofs == s.proofs && r.store.wallets == s.wallets
        && Balance(r.store.proofs, wal.id) == Balance(s.proofs, wal.id)
        && (r.store.txs == s.txs || OneRecordAdded(s, r.store, txId, TxType.Send, TxStatus.Failed))
  {
    SendPaths(s, wal, amount, memo, txId, split);
    if Balance(s.proofs, wal.id) >= amount {
      var sel := ProofStore.SelectProofsForAmount(s, wal.id, amount);
      var p := SendParams(wal, amount, memo, txId);
      if |sel| > 0 && Reserve(s, p, ProofIds(sel)).Success? {
        SelectedAreUnspent(s, wal.id, amount);
        ReserveAbortRestores(s, p, ProofIds(sel));
      }
    }
  }

  /** Once the reservation is made, a failing `send` throws what failed:
      the engine's error, or the commit's constraint violation. */
  lemma SendRethrows(s: Store, wal: Wallet, amount: int, memo: Option<TransactionStore.Memo>, txId: string,
                     split: Result<SendData, EngineError>)
    ensures var r := BotWallet.Send(s, wal, amount, memo, txId, split);
      var ids := ProofIds(ProofStore.SelectProofsForAmount(s, wal.id, amount));
      var s1 := Reserve(s, SendParams(wal, amount, memo, txId), ids);
      amount > 0 && Balance(s.proofs, wal.id) >= amount && s1.Success? ==>
        && (split.Failure? ==> r.result == Failure(split.error))
        && (split.Success? ==>
              var c := Commit(s1.value, wal.id, txId, ids, split.value.keep, TxStatus.Completed, SendUpdates(split.value));
              c.Failure? ==> r.result == Failure(c.error) && c.error.ConstraintViolation?)
  {
    var ids := ProofIds(ProofStore.SelectProofsForAmount(s, wal.id, amount));
    var p := SendParams(wal, amount, memo, txId);
    if amount > 0 && Balance(s.proofs, wal.id) >= amount && Reserve(s, p, ids).Success? {
      SendReaches(s, wal, amount, memo, txId, split);
    }
  }

  /** Past the balance check, with the reservation made, `send` is its
      settlement. */
  lemma SendReaches(s: Store, wal: Wallet, amount: int, memo: Option<TransactionStore.Memo>, txId: string,
                    split: Result<SendData, EngineError>)
    requires amount > 0 && Balance(s.proofs, wal.id) >= amount
    requires Reserve(s, SendParams(wal, amount, memo, txId), ProofIds(ProofStore.SelectProofsForAmount(s, wal.id, amount))).Success?
    ensures var ids := ProofIds(ProofStore.SelectProofsForAmount(s, wal.id, amount));
      BotWallet.Send(s, wal, amount, memo, txId, split)
        == SendSettle(Reserve(s, SendParams(wal, amount, memo, txId), ids).value, wal, txId, ids, split)
  {
    assert ProofStore.SelectProofsForAmount(s, wal.id, amount) != [];
  }

  /** A commit refused after the engine's `send` went through (a kept
      proof's `C` already in the table, say) still ends in the `catch`: the
      call throws, and every selected proof is unspent again, so the balance
      is the one before the call although the mint has consumed them. */
  lemma SendCommitFailureRevives(s: Store, wal: Wallet, amount: int, memo: Option<TransactionStore.Memo>, txId: string,
                                 split: Result<SendData, EngineError>)
    requires Valid(s)
    requires amount > 0 && Balance(s.proofs, wal.id) >= amount && split.Success?
    requires var ids := ProofIds(ProofStore.SelectProofsForAmount(s, wal.id, amount));
      var s1 := Reserve(s, SendParams(wal, amount, memo, txId), ids);
      s1.Success? && !ProofStore.CanInsertAll(s1.value, wal.id, split.value.keep)
    ensures var r := BotWallet.Send(s, wal, amount, memo, txId, split);
      var sel := ProofStore.SelectProofsForAmount(s, wal.id, amount);
      && r.result.Failure? && r.result.error.ConstraintViolation?
      && sel != [] && SumAmounts(sel) >= amount
      && (forall p :: p in sel ==> p in r.store.proofs && p.state == Unspent)
      && Balance(r.store.proofs, wal.id) == Balance(s.proofs, wal.id)
  {
    var r := BotWallet.Send(s, wal, amount, memo, txId, split);
    assert r.result.Failure? && r.result.error.ConstraintViolation? by {
      SendRethrows(s, wal, amount, memo, txId, split);
    }
    assert r.store.proofs == s.proofs by {
      SendFailureRestores(s, wal, amount, memo, txId, split);
    }
  }

  /** The three ways a `send` can end: before the reservation with nothing
      changed, in the `catch` after it, or committed. */
  lemma SendPaths(s: Store, wal: Wallet, amount: int, memo: Option<TransactionStore.Memo>, txId: string,
                  split: Result<SendData, EngineError>)
    ensures var r := BotWallet.Send(s, wal, amount, memo, txId, split);
      var ids := ProofIds(ProofStore.SelectProofsForAmount(s, wal.id, amount));
      var p := SendParams(wal, amount, memo, txId);
      || r.store == s
      || (Reserve(s, p, ids).Success? && r.store == Abort(Reserve(s, p, ids).value, txId, ids))
      || (&& r.result.Success? && split.Success?
          && Reserve(s, p, ids).Success?
          && var u := SendUpdates(split.value);
             && Commit(Reserve(s, p, ids).value, wal.id, txId, ids, split.value.keep, TxStatus.Completed, u).Success?
             && r.store == Commit(Reserve(s, p, ids).value, wal.id, txId, ids, split.value.keep, TxStatus.Completed, u).value)
    ensures var r := BotWallet.Send(s, wal, amount, memo, txId, split);
      var ids := ProofIds(ProofStore.SelectProofsForAmount(s, wal.id, amount));
      var p := SendParams(wal, amount, memo, txId);
      r.result.Success? ==>
        && split.Success?
        && Reserve(s, p, ids).Success?
        && var u := SendUpdates(split.value);
           && Commit(Reserve(s, p, ids).value, wal.id, txId, ids, split.value.keep, TxStatus.Completed, u).Success?
           && r.store == Commit(Reserve(s, p, ids).value, wal.id, txId, ids, split.value.keep, TxStatus.Completed, u).value
  {
  }

  /** `r` is the store a reservation of the proofs selected for `needed`
      and its commit leave: the selection has left the balance and the
      engine's proofs have joined it. */
  lemma CommittedBalance(s: Store, r: Store, p: TransactionStore.InsertParams, needed: int, incoming: seq<EngineProof>,
                         status: TxStatus, u: TransactionStore.Updates)
    requires UniqueProofIds(s.proofs)
    requires Committed(s, r, p, ProofIds(ProofStore.SelectProofsForAmount(s, p.walletId, needed)), incoming, status, u)
    ensures var sel := ProofStore.SelectProofsForAmount(s, p.walletId, needed);
      Balance(r.proofs, p.walletId) == Balance(s.proofs, p.walletId) - SumAmounts(sel) + EngineSum(incoming)
  {
    var sel := ProofStore.SelectProofsForAmount(s, p.walletId, needed);
    var ids := ProofIds(sel);
    ReserveCommitBalance(s, p, ids, incoming, status, u, p.walletId);
    ProofStore.SelectedBalance(s, p.walletId, needed);
  }

  /** `r` is the store a reservation of `ids` and its commit leave: the
      owner's balance has lost the listed proofs and gained the engine's. */
  lemma CommittedBalanceOf(s: Store, r: Store, p: TransactionStore.InsertParams, ids: seq<string>, incoming: seq<EngineProof>,
                           status: TxStatus, u: TransactionStore.Updates)
    requires Committed(s, r, p, ids, incoming, status, u)
    ensures Balance(r.proofs, p.walletId) == Balance(s.proofs, p.walletId) - ListedBalance(s.proofs, p.walletId, ids) + EngineSum(incoming)
  {
    ReserveCommitBalance(s, p, ids, incoming, status, u, p.walletId);
  }

  /** Every row of `before` whose id is listed is, in `after`, the same
      row spent by `txId`. */
  ghost predicate SpendsListed(before: seq<Proof>, after: seq<Proof>, ids: seq<string>, txId: string)
  {
    && |before| <= |after|
    && forall i :: 0 <= i < |before| && before[i].id in ids ==>
         after[i] == before[i].(state := Spent, spentByTx := Some(txId))
  }

  /** After a reservation and its commit, every row whose id was listed is
      spent by the record. */
  lemma ReserveCommitSpends(s: Store, p: TransactionStore.InsertParams, ids: seq<string>, incoming: seq<EngineProof>,
                            status: TxStatus, u: TransactionStore.Updates)
    requires Reserve(s, p, ids).Success?
    requires Commit(Reserve(s, p, ids).value, p.walletId, p.id, ids, incoming, status, u).Success?
    ensures var r := Commit(Reserve(s, p, ids).value, p.walletId, p.id, ids, incoming, status, u).value;
      SpendsListed(s.proofs, r.proofs, ids, p.id)
  {
    ReserveCommitShape(s, p, ids, incoming, status, u);
  }

  /** A `send` that returns a token has stored the kept change and
      completed its record with the token: the balance is the old one minus
      the selection plus the change. */
  lemma SendSuccess(s: Store, wal: Wallet, amount: int, memo: Option<TransactionStore.Memo>, txId: string,
                    split: Result<SendData, EngineError>)
    requires Valid(s)
    ensures var r := BotWallet.Send(s, wal, amount, memo, txId, split);
      var sel := ProofStore.SelectProofsForAmount(s, wal.id, amount);
      r.result.Success? && split.Success? ==>
        && Balance(r.store.proofs, wal.id)
           == Balance(s.proofs, wal.id) - SumAmounts(sel) + EngineSum(split.value.keep)
        && SumAmounts(sel) >= amount
        && OneRecordAdded(s, r.store, txId, TxType.Send, TxStatus.Completed)
        && r.store.txs[|s.txs|].token == Some(r.result.value)
        && r.store.txs[|s.txs|].amount == amount
  {
    var r := BotWallet.Send(s, wal, amount, memo, txId, split);
    SendPaths(s, wal, amount, memo, txId, split);
    if r.result.Success? {
      var p := SendParams(wal, amount, memo, txId);
      var ids := ProofIds(ProofStore.SelectProofsForAmount(s, wal.id, amount));
      CommittedBalance(s, r.store, p, amount, split.value.keep, TxStatus.Completed, SendUpdates(split.value));
      CommittedStore(s, r.store, p, ids, split.value.keep, TxStatus.Completed, SendUpdates(split.value));
      SendRecord(s, wal, amount, memo, txId, split);
    }
  }

  /** A `send` that returns a token has spent every selected proof, on
      behalf of its record. */
  lemma SendSpends(s: Store, wal: Wallet, amount: int, memo: Option<TransactionStore.Memo>, txId: string,
                   split: Result<SendData, EngineError>)
    ensures var r := BotWallet.Send(s, wal, amount, memo, txId, split);
      var ids := ProofIds(ProofStore.SelectProofsForAmount(s, wal.id, amount));
      r.result.Success? && split.Success? ==>
        SpendsListed(s.proofs, r.store.proofs, ids, txId)
  {
    var r := BotWallet.Send(s, wal, amount, memo, txId, split);
    SendPaths(s, wal, amount, memo, txId, split);
    if r.result.Success? {
      var ids := ProofIds(ProofStore.SelectProofsForAmount(s, wal.id, amount));
      CommittedStore(s, r.store, SendParams(wal, amount, memo, txId), ids, split.value.keep, TxStatus.Completed, SendUpdates(split.value));
    }
  }

  /** The record a successful `send` completes carries the token and the
      amount asked for. */
  lemma SendRecord(s: Store, wal: Wallet, amount: int, memo: Option<TransactionStore.Memo>, txId: string,
                   split: Result<SendData, EngineError>)
    requires BotWallet.Send(s, wal, amount, memo, txId, split).result.Success?
    ensures var r := BotWallet.Send(s, wal, amount, memo, txId, split);
      |r.store.txs| > |s.txs| && r.store.txs[|s.txs|].token == Some(r.result.value) && r.store.txs[|s.txs|].amount == amount
  {
    var ids := ProofIds(ProofStore.SelectProofsForAmount(s, wal.id, amount));
    var p := SendParams(wal, amount, memo, txId);
    SendPaths(s, wal, amount, memo, txId, split);
    var d := split.value;
    var u := SendUpdates(d);
    var s1 := Reserve(s, p, ids).value;
    var spent := ProofStore.MarkSpent(s1, ids);
    var ins := if |d.keep| > 0 then ProofStore.InsertProofs(spent, wal.id, d.keep, txId) else ProofStore.Partial(spent, None);
    assert Commit(s1, wal.id, txId, ids, d.keep, TxStatus.Completed, u).value
        == TransactionStore.UpdateStatus(ins.store, txId, TxStatus.Completed, u);
    assert ins.store.txs == s1.txs;
  }

  /** Whatever the engine does, `send` leaves no proof pending that was not
      pending before. */
  lemma SendNoPending(s: Store, wal: Wallet, amount: int, memo: Option<TransactionStore.Memo>, txId: string,
                      split: Result<SendData, EngineError>)
    ensures NoNewPending(s, BotWallet.Send(s, wal, amount, memo, txId, split).store)
  {
    var ids := ProofIds(ProofStore.SelectProofsForAmount(s, wal.id, amount));
    var p := SendParams(wal, amount, memo, txId);
    SendPaths(s, wal, amount, memo, txId, split);
    if Reserve(s, p, ids).Success? {
      ReserveAbortNoPending(s, p, ids);
      if split.Success? {
        var u := SendUpdates(split.value);
        if Commit(Reserve(s, p, ids).value, wal.id, txId, ids, split.value.keep, TxStatus.Completed, u).Success? {
          ReserveCommitShape(s, p, ids, split.value.keep, TxStatus.Completed, u);
        }
      }
    }
  }

  lemma SendValid(s: Store, wal: Wallet, amount: int, memo: Option<TransactionStore.Memo>, txId: string,
                  split: Result<SendData, EngineError>)
    requires Valid(s)
    ensures Valid(BotWallet.Send(s, wal, amount, memo, txId, split).store)
  {
    var sel := ProofStore.SelectProofsForAmount(s, wal.id, amount);
    var p := SendParams(wal, amount, memo, txId);
    var ids := ProofIds(sel);
    ReserveValid(s, p, ids);
    if Reserve(s, p, ids).Success? && split.Success? {
      var u := SendUpdates(split.value);
      CommitValid(Reserve(s, p, ids).value, wal.id, txId, ids, split.value.keep, TxStatus.Completed, u);
    }
  }

  // ---------------------------------------------------------------------
  // payInvoice

  /** The three ways a `payInvoice` can end, as for `send`. */
  lemma PayPaths(s: Store, wal: Wallet, invoice: string, memo: Option<TransactionStore.Memo>, txId: string,
                 quote: Result<MeltQuote, EngineError>, melt: Result<MeltData, EngineError>)
    ensures var r := PayInvoice(s, wal, invoice, memo, txId, quote, melt);
      || r.store == s
      || (&& quote.Success?
          && var ids := ProofIds(ProofStore.SelectProofsForAmount(s, wal.id, quote.value.amount + quote.value.feeReserve));
             var p := PayParams(wal, invoice, memo, txId, quote.value);
             Reserve(s, p, ids).Success? && r.store == Abort(Reserve(s, p, ids).value, txId, ids))
      || r.result.Success?
  {
  }

  /** A `payInvoice` that returns has reserved the selection and committed
      the melt's outcome. */
  lemma PayCommits(s: Store, wal: Wallet, invoice: string, memo: Option<TransactionStore.Memo>, txId: string,
                   quote: Result<MeltQuote, EngineError>, melt: Result<MeltData, EngineError>)
    ensures var r := PayInvoice(s, wal, invoice, memo, txId, quote, melt);
      r.result.Success? ==>
        && quote.Success? && melt.Success?
        && Committed(s, r.store, PayParams(wal, invoice, memo, txId, quote.value),
                     ProofIds(ProofStore.SelectProofsForAmount(s, wal.id, quote.value.amount + quote.value.feeReserve)),
                     melt.value.change, PayStatus(melt.value), PayUpdates(quote.value, melt.value))
  {
  }

  /** `r` is the store left by reserving `ids` for the record `p` and then
      committing: the reserved proofs spent, `incoming` stored and the record
      closed with `status` and `u`. */
  ghost predicate Committed(s: Store, r: Store, p: TransactionStore.InsertParams, ids: seq<string>, incoming: seq<EngineProof>,
                            status: TxStatus, u: TransactionStore.Updates)
  {
    && Reserve(s, p, ids).Success?
    && Commit(Reserve(s, p, ids).value, p.walletId, p.id, ids, incoming, status, u).Success?
    && r == Commit(Reserve(s, p, ids).value, p.walletId, p.id, ids, incoming, status, u).value
  }

  /** A `payInvoice` that throws after the quote leaves the ledger exactly as
      it was, and the log as it was or with one failed `melt` record. */
  lemma PayInvoiceFailureRestores(s: Store, wal: Wallet, invoice: string, memo: Option<TransactionStore.Memo>, txId: string,
                                  quote: Result<MeltQuote, EngineError>, melt: Result<MeltData, EngineError>)
    requires Valid(s)
    ensures var r := PayInvoice(s, wal, invoice, memo, txId, quote, melt);
      r.result.Failure? ==>
        && r.store.proofs == s.proofs && r.store.wallets == s.wallets
        && Balance(r.store.proofs, wal.id) == Balance(s.proofs, wal.id)
        && (r.store.txs == s.txs || OneRecordAdded(s, r.store, txId, TxType.Melt, TxStatus.Failed))
  {
    PayPaths(s, wal, invoice, memo, txId, quote, melt);
    if quote.Success? {
      var needed := quote.value.amount + quote.value.feeReserve;
      var ids := ProofIds(ProofStore.SelectProofsForAmount(s, wal.id, needed));
      var p := PayParams(wal, invoice, memo, txId, quote.value);
      if Reserve(s, p, ids).Success? {
        SelectedAreUnspent(s, wal.id, needed);
        ReserveAbortRestores(s, p, ids);
      }
    }
  }

  /** Once the reservation is made, a failing `payInvoice` throws what
      failed: the engine's error, or the commit's constraint violation. */
  lemma PayInvoiceRethrows(s: Store, wal: Wallet, invoice: string, memo: Option<TransactionStore.Memo>, txId: string,
                           quote: Result<MeltQuote, EngineError>, melt: Result<MeltData, EngineError>)
    ensures var r := PayInvoice(s, wal, invoice, memo, txId, quote, melt);
      quote.Success? ==>
        var q := quote.value;
        var ids := ProofIds(ProofStore.SelectProofsForAmount(s, wal.id, q.amount + q.feeReserve));
        var s1 := Reserve(s, PayParams(wal, invoice, memo, txId, q), ids);
        q.amount + q.feeReserve > 0 && Balance(s.proofs, wal.id) >= q.amount + q.feeReserve && s1.Success? ==>
          && (melt.Failure? ==> r.result == Failure(melt.error))
          && (melt.Success? ==>
                var c := Commit(s1.value, wal.id, txId, ids, melt.value.change, PayStatus(melt.value), PayUpdates(q, melt.value));
                c.Failure? ==> r.result == Failure(c.error) && c.error.ConstraintViolation?)
  {
    if quote.Success? {
      var q := quote.value;
      var ids := ProofIds(ProofStore.SelectProofsForAmount(s, wal.id, q.amount + q.feeReserve));
      var p := PayParams(wal, invoice, memo, txId, q);
      if q.amount + q.feeReserve > 0 && Balance(s.proofs, wal.id) >= q.amount + q.feeReserve && Reserve(s, p, ids).Success? {
        PayReaches(s, wal, invoice, memo, txId, quote, melt);
      }
    }
  }

  /** Past the balance check, with the reservation made, `payInvoice` is
      its settlement. */
  lemma PayReaches(s: Store, wal: Wallet, invoice: string, memo: Option<TransactionStore.Memo>, txId: string,
                   quote: Result<MeltQuote, EngineError>, melt: Result<MeltData, EngineError>)
    requires quote.Success?
    requires quote.value.amount + quote.value.feeReserve > 0
    requires Balance(s.proofs, wal.id) >= quote.value.amount + quote.value.feeReserve
    requires var q := quote.value;
      Reserve(s, PayParams(wal, invoice, memo, txId, q), ProofIds(ProofStore.SelectProofsForAmount(s, wal.id, q.amount + q.feeReserve))).Success?
    ensures var q := quote.value;
      var ids := ProofIds(ProofStore.SelectProofsForAmount(s, wal.id, q.amount + q.feeReserve));
      PayInvoice(s, wal, invoice, memo, txId, quote, melt)
        == PaySettle(Reserve(s, PayParams(wal, invoice, memo, txId, q), ids).value, wal, txId, ids, q, melt)
  {
  }

  /** A commit refused after the engine's melt went through (a change
      proof's `C` already in the table, say) still ends in the `catch`: the
      call throws, and every selected proof is unspent again, so the balance
      is the one before the call although the mint has consumed them. */
  lemma PayCommitFailureRevives(s: Store, wal: Wallet, invoice: string, memo: Option<TransactionStore.Memo>, txId: string,
                                q: MeltQuote, melt: Result<MeltData, EngineError>)
    requires Valid(s)
    requires q.amount + q.feeReserve > 0 && Balance(s.proofs, wal.id) >= q.amount + q.feeReserve && melt.Success?
    requires var ids := ProofIds(ProofStore.SelectProofsForAmount(s, wal.id, q.amount + q.feeReserve));
      var s1 := Reserve(s, PayParams(wal, invoice, memo, txId, q), ids);
      s1.Success? && !ProofStore.CanInsertAll(s1.value, wal.id, melt.value.change)
    ensures var r := PayInvoice(s, wal, invoice, memo, txId, Success(q), melt);
      var sel := ProofStore.SelectProofsForAmount(s, wal.id, q.amount + q.feeReserve);
      && r.result.Failure? && r.result.error.ConstraintViolation?
      && sel != [] && SumAmounts(sel) >= q.amount + q.feeReserve
      && (forall p :: p in sel ==> p in r.store.proofs && p.state == Unspent)
      && Balance(r.store.proofs, wal.id) == Balance(s.proofs, wal.id)
  {
    PayReaches(s, wal, invoice, memo, txId, Success(q), melt);
    PayInvoiceFailureRestores(s, wal, invoice, memo, txId, Success(q), melt);
  }

  /** When the engine's melt returns, paid or not, the selection covered
      the amount and the fee reserve, and the balance is the old one minus
      the selection plus the change. */
  lemma PayInvoiceSuccess(s: Store, wal: Wallet, invoice: string, memo: Option<TransactionStore.Memo>, txId: string,
                          quote: Result<MeltQuote, EngineError>, melt: Result<MeltData, EngineError>)
    requires Valid(s)
    ensures var r := PayInvoice(s, wal, invoice, memo, txId, quote, melt);
      r.result.Success? && quote.Success? && melt.Success? ==>
        var sel := ProofStore.SelectProofsForAmount(s, wal.id, quote.value.amount + quote.value.feeReserve);
        && Balance(r.store.proofs, wal.id)
           == Balance(s.proofs, wal.id) - SumAmounts(sel) + EngineSum(melt.value.change)
        && SumAmounts(sel) >= quote.value.amount + quote.value.feeReserve
  {
    var r := PayInvoice(s, wal, invoice, memo, txId, quote, melt);
    PayCommits(s, wal, invoice, memo, txId, quote, melt);
    if r.result.Success? {
      PayCommittedBalance(s, r.store, wal, invoice, memo, txId, quote.value, melt.value);
    }
  }

  /** The balance in the store a melt's commit leaves. */
  lemma PayCommittedBalance(s: Store, r: Store, wal: Wallet, invoice: string, memo: Option<TransactionStore.Memo>, txId: string,
                            q: MeltQuote, m: MeltData)
    requires UniqueProofIds(s.proofs)
    requires Committed(s, r, PayParams(wal, invoice, memo, txId, q), ProofIds(ProofStore.SelectProofsForAmount(s, wal.id, q.amount + q.feeReserve)),
                       m.change, PayStatus(m), PayUpdates(q, m))
    ensures var sel := ProofStore.SelectProofsForAmount(s, wal.id, q.amount + q.feeReserve);
      Balance(r.proofs, wal.id) == Balance(s.proofs, wal.id) - SumAmounts(sel) + EngineSum(m.change)
  {
    var p := PayParams(wal, invoice, memo, txId, q);
    var needed := q.amount + q.feeReserve;
    var ids := ProofIds(ProofStore.SelectProofsForAmount(s, wal.id, needed));
    assert p.walletId == wal.id;
    CommittedBalanceOf(s, r, p, ids, m.change, PayStatus(m), PayUpdates(q, m));
    ProofStore.SelectedBalance(s, wal.id, needed);
  }

  /** When the engine's melt returns, the `melt` record is completed exactly
      when the quote is paid, with the quote's amount and id and
      fee = reserve - change. */
  lemma PayInvoiceRecord(s: Store, wal: Wallet, invoice: string, memo: Option<TransactionStore.Memo>, txId: string,
                         quote: Result<MeltQuote, EngineError>, melt: Result<MeltData, EngineError>)
    ensures var r := PayInvoice(s, wal, invoice, memo, txId, quote, melt);
      r.result.Success? && quote.Success? && melt.Success? ==>
        && OneRecordAdded(s, r.store, txId, TxType.Melt, if melt.value.state == Paid then TxStatus.Completed else TxStatus.Failed)
        && r.store.txs[|s.txs|].fee == quote.value.feeReserve - EngineSum(melt.value.change)
        && r.store.txs[|s.txs|].amount == quote.value.amount
        && r.store.txs[|s.txs|].quoteId == Some(quote.value.quote)
  {
    var r := PayInvoice(s, wal, invoice, memo, txId, quote, melt);
    PayCommits(s, wal, invoice, memo, txId, quote, melt);
    if r.result.Success? {
      PayCommittedRecord(s, r.store, wal, invoice, memo, txId, quote.value, melt.value);
    }
  }

  /** The `melt` record in the store a melt's commit leaves. */
  lemma PayCommittedRecord(s: Store, r: Store, wal: Wallet, invoice: string, memo: Option<TransactionStore.Memo>, txId: string,
                           q: MeltQuote, m: MeltData)
    requires Committed(s, r, PayParams(wal, invoice, memo, txId, q), ProofIds(ProofStore.SelectProofsForAmount(s, wal.id, q.amount + q.feeReserve)),
                       m.change, PayStatus(m), PayUpdates(q, m))
    ensures OneRecordAdded(s, r, txId, TxType.Melt, if m.state == Paid then TxStatus.Completed else TxStatus.Failed)
    ensures r.txs[|s.txs|].fee == q.feeReserve - EngineSum(m.change)
    ensures r.txs[|s.txs|].amount == q.amount
    ensures r.txs[|s.txs|].quoteId == Some(q.quote)
  {
    var ids := ProofIds(ProofStore.SelectProofsForAmount(s, wal.id, q.amount + q.feeReserve));
    CommittedStore(s, r, PayParams(wal, invoice, memo, txId, q), ids, m.change, PayStatus(m), PayUpdates(q, m));
  }

  /** When the engine's melt returns, every selected proof is spent by the
      `melt` record. */
  lemma PayInvoiceSpends(s: Store, wal: Wallet, invoice: string, memo: Option<TransactionStore.Memo>, txId: string,
                         quote: Result<MeltQuote, EngineError>, melt: Result<MeltData, EngineError>)
    ensures var r := PayInvoice(s, wal, invoice, memo, txId, quote, melt);
      r.result.Success? && quote.Success? && melt.Success? ==>
        var ids := ProofIds(ProofStore.SelectProofsForAmount(s, wal.id, quote.value.amount + quote.value.feeReserve));
        SpendsListed(s.proofs, r.store.proofs, ids, txId)
  {
    if quote.Success? && melt.Success? {
      var r := PayInvoice(s, wal, invoice, memo, txId, quote, melt);
      if r.result.Success? {
        PayCommits(s, wal, invoice, memo, txId, quote, melt);
        PayCommittedSpends(s, r.store, wal, invoice, memo, txId, quote.value, melt.value);
      }
    }
  }

  /** The rows a melt's commit spends. */
  lemma PayCommittedSpends(s: Store, r: Store, wal: Wallet, invoice: string, memo: Option<TransactionStore.Memo>, txId: string,
                           q: MeltQuote, m: MeltData)
    requires Committed(s, r, PayParams(wal, invoice, memo, txId, q), ProofIds(ProofStore.SelectProofsForAmount(s, wal.id, q.amount + q.feeReserve)),
                       m.change, PayStatus(m), PayUpdates(q, m))
    ensures var ids := ProofIds(ProofStore.SelectProofsForAmount(s, wal.id, q.amount + q.feeReserve));
      SpendsListed(s.proofs, r.proofs, ids, txId)
  {
    var ids := ProofIds(ProofStore.SelectProofsForAmount(s, wal.id, q.amount + q.feeReserve));
    CommittedStore(s, r, PayParams(wal, invoice, memo, txId, q), ids, m.change, PayStatus(m), PayUpdates(q, m));
  }

  /** `r` is the store a reservation and its commit leave: the record's
      fields and the spent rows, stated of `r` itself. */
  lemma CommittedStore(s: Store, r: Store, p: TransactionStore.InsertParams, ids: seq<string>, incoming: seq<EngineProof>,
                       status: TxStatus, u: TransactionStore.Updates)
    requires Committed(s, r, p, ids, incoming, status, u)
    ensures OneRecordAdded(s, r, p.id, p.txType, status)
    ensures r.txs[|s.txs|].amount == (if u.amount.Some? then u.amount.value else p.amount)
    ensures r.txs[|s.txs|].fee == (if u.fee.Some? then u.fee.value else 0)
    ensures r.txs[|s.txs|].token == (if u.token.Some? then u.token else p.token)
    ensures r.txs[|s.txs|].quoteId == p.quoteId
    ensures SpendsListed(s.proofs, r.proofs, ids, p.id)
  {
    ReserveCommitShape(s, p, ids, incoming, status, u);
    ReserveCommitRecord(s, p, ids, incoming, status, u);
    ReserveCommitSpends(s, p, ids, incoming, status, u);
  }

  /** The record a reservation adds and its commit completes carries the
      inserted fields, overwritten by the commit's updates. */
  lemma ReserveCommitRecord(s: Store, p: TransactionStore.InsertParams, ids: seq<string>, incoming: seq<EngineProof>,
                            status: TxStatus, u: TransactionStore.Updates)
    requires Reserve(s, p, ids).Success?
    requires Commit(Reserve(s, p, ids).value, p.walletId, p.id, ids, incoming, status, u).Success?
    ensures var r := Commit(Reserve(s, p, ids).value, p.walletId, p.id, ids, incoming, status, u).value;
      && |r.txs| > |s.txs|
      && r.txs[|s.txs|].amount == (if u.amount.Some? then u.amount.value else p.amount)
      && r.txs[|s.txs|].fee == (if u.fee.Some? then u.fee.value else 0)
      && r.txs[|s.txs|].token == (if u.token.Some? then u.token else p.token)
      && r.txs[|s.txs|].quoteId == p.quoteId
      && r.txs[|s.txs|].invoice == p.invoice
  {
    var s0 := TransactionStore.Insert(s, p).value;
    var s1 := Reserve(s, p, ids).value;
    assert s1.txs == s0.txs;
    var spent := ProofStore.MarkSpent(s1, ids);
    var ins := if |incoming| > 0 then ProofStore.InsertProofs(spent, p.walletId, incoming, p.id) else ProofStore.Partial(spent, None);
    assert Commit(s1, p.walletId, p.id, ids, incoming, status, u).value
        == TransactionStore.UpdateStatus(ins.store, p.id, status, u);
    assert ins.store.txs == s1.txs;
    assert s0.txs[|s.txs|].id == p.id;
  }

  lemma PayInvoiceNoPending(s: Store, wal: Wallet, invoice: string, memo: Option<TransactionStore.Memo>, txId: string,
                            quote: Result<MeltQuote, EngineError>, melt: Result<MeltData, EngineError>)
    ensures NoNewPending(s, PayInvoice(s, wal, invoice, memo, txId, quote, melt).store)
  {
    PayPaths(s, wal, invoice, memo, txId, quote, melt);
    if quote.Success? {
      var ids := ProofIds(ProofStore.SelectProofsForAmount(s, wal.id, quote.value.amount + quote.value.feeReserve));
      var p := PayParams(wal, invoice, memo, txId, quote.value);
      if Reserve(s, p, ids).Success? {
        ReserveAbortNoPending(s, p, ids);
        if melt.Success? {
          var u := PayUpdates(quote.value, melt.value);
          if Commit(Reserve(s, p, ids).value, wal.id, txId, ids, melt.value.change, PayStatus(melt.value), u).Success? {
            ReserveCommitShape(s, p, ids, melt.value.change, PayStatus(melt.value), u);
          }
        }
      }
    }
  }

  lemma PayInvoiceValid(s: Store, wal: Wallet, invoice: string, memo: Option<TransactionStore.Memo>, txId: string,
                        quote: Result<MeltQuote, EngineError>, melt: Result<MeltData, EngineError>)
    requires Valid(s)
    ensures Valid(PayInvoice(s, wal, invoice, memo, txId, quote, melt).store)
  {
    PayPaths(s, wal, invoice, memo, txId, quote, melt);
    if quote.Success? {
      var ids := ProofIds(ProofStore.SelectProofsForAmount(s, wal.id, quote.value.amount + quote.value.feeReserve));
      var p := PayParams(wal, invoice, memo, txId, quote.value);
      ReserveValid(s, p, ids);
      if Reserve(s, p, ids).Success? && melt.Success? {
        CommitValid(Reserve(s, p, ids).value, wal.id, txId, ids, melt.value.change, PayStatus(melt.value), PayUpdates(quote.value, melt.value));
      }
    }
  }

  // ---------------------------------------------------------------------
  // receive

  /** A `receive` that returns has stored the engine's proofs as unspent
      rows of the wallet created by its record, raised the balance by their
      sum, and completed the record with that sum rather than the token's
      face value. */
  lemma ReceiveSuccess(s: Store, wal: Wallet, token: string, memo: Option<TransactionStore.Memo>, txId: string,
                       decoded: Option<seq<EngineProof>>, redeemed: Result<seq<EngineProof>, EngineError>)
    ensures var r := BotWallet.Receive(s, wal, token, memo, txId, decoded, redeemed);
      r.result.Success? && redeemed.Success? ==>
        && r.store.proofs == s.proofs + ProofStore.NewProofs(wal.id, redeemed.value, txId, s.now)
        && r.store.wallets == s.wallets
        && Balance(r.store.proofs, wal.id) == Balance(s.proofs, wal.id) + EngineSum(redeemed.value)
        && OneRecordAdded(s, r.store, txId, TxType.Receive, TxStatus.Completed)
        && r.store.txs[|s.txs|].amount == EngineSum(redeemed.value)
        && r.store.txs[|s.txs|].token == Some(token)
  {
    var r := BotWallet.Receive(s, wal, token, memo, txId, decoded, redeemed);
    if r.result.Success? {
      var p := ReceiveParams(wal, token, memo, txId, decoded.value);
      var s1 := TransactionStore.Insert(s, p).value;
      var ins := ProofStore.InsertProofs(s1, wal.id, redeemed.value, txId);
      var u := TransactionStore.Updates(Some(EngineSum(redeemed.value)), None, None);
      assert r.store == TransactionStore.UpdateStatus(ins.store, txId, TxStatus.Completed, u);
      UpdateNewRecord(s, ins.store, txId, TxType.Receive, TxStatus.Pending, TxStatus.Completed, u);
      BalanceAppend(s.proofs, ProofStore.NewProofs(wal.id, redeemed.value, txId, s.now), wal.id);
      ProofStore.NewProofsBalance(wal.id, redeemed.value, txId, s.now, wal.id);
    }
  }

  /** A `receive` that throws has not touched the ledger. An undecodable
      token or a refused insert leaves the log as it was; a failure of the
      engine or of storing its proofs leaves one failed `receive` record at
      the token's face value. */
  lemma ReceiveFailure(s: Store, wal: Wallet, token: string, memo: Option<TransactionStore.Memo>, txId: string,
                       decoded: Option<seq<EngineProof>>, redeemed: Result<seq<EngineProof>, EngineError>)
    ensures var r := BotWallet.Receive(s, wal, token, memo, txId, decoded, redeemed);
      r.result.Failure? ==>
        && r.store.proofs == s.proofs && r.store.wallets == s.wallets
        && (|| r.store == s
            || (&& decoded.Some?
                && OneRecordAdded(s, r.store, txId, TxType.Receive, TxStatus.Failed)
                && r.store.txs[|s.txs|].amount == EngineSum(decoded.value)))
  {
    var r := BotWallet.Receive(s, wal, token, memo, txId, decoded, redeemed);
    if r.result.Failure? && decoded.Some? {
      var p := ReceiveParams(wal, token, memo, txId, decoded.value);
      if TransactionStore.Insert(s, p).Success? {
        var s1 := TransactionStore.Insert(s, p).value;
        assert r.store == TransactionStore.UpdateStatus(s1, txId, TxStatus.Failed, TransactionStore.NoUpdates);
        UpdateNewRecord(s, s1, txId, TxType.Receive, TxStatus.Pending, TxStatus.Failed, TransactionStore.NoUpdates);
      }
    }
  }

  lemma ReceiveValid(s: Store, wal: Wallet, token: string, memo: Option<TransactionStore.Memo>, txId: string,
                     decoded: Option<seq<EngineProof>>, redeemed: Result<seq<EngineProof>, EngineError>)
    requires Valid(s)
    ensures Valid(BotWallet.Receive(s, wal, token, memo, txId, decoded, redeemed).store)
  {
    if decoded.Some? {
      var p := ReceiveParams(wal, token, memo, txId, decoded.value);
      TransactionStore.InsertValid(s, p);
      if TransactionStore.Insert(s, p).Success? {
        var s1 := TransactionStore.Insert(s, p).value;
        TransactionStore.UpdateStatusValid(s1, txId, TxStatus.Failed, TransactionStore.NoUpdates);
        if redeemed.Success? {
          ProofStore.InsertProofsValid(s1, wal.id, redeemed.value, txId);
          var ins := ProofStore.InsertProofs(s1, wal.id, redeemed.value, txId);
          TransactionStore.UpdateStatusValid(ins.store, txId, TxStatus.Completed, TransactionStore.Updates(Some(EngineSum(redeemed.value)), None, None));
        }
      }
    }
  }

  lemma ReceiveNoPending(s: Store, wal: Wallet, token: string, memo: Option<TransactionStore.Memo>, txId: string,
                         decoded: Option<seq<EngineProof>>, redeemed: Result<seq<EngineProof>, EngineError>)
    ensures NoNewPending(s, BotWallet.Receive(s, wal, token, memo, txId, decoded, redeemed).store)
  {
    ReceiveSuccess(s, wal, token, memo, txId, decoded, redeemed);
    ReceiveFailure(s, wal, token, memo, txId, decoded, redeemed);
  }

  // ---------------------------------------------------------------------
  // createMintInvoice

  /** `createMintInvoice` is the one operation that leaves a record
      pending; it keeps the table invariants. */
  lemma CreateMintInvoiceValid(s: Store, wal: Wallet, amount: int, txId: string, quote: Result<MintQuote, EngineError>)
    requires Valid(s)
    ensures Valid(CreateMintInvoice(s, wal, amount, txId, quote).store)
  {
    if quote.Success? {
      var q := quote.value;
      TransactionStore.InsertValid(s, TransactionStore.InsertParams(txId, wal.id, TxType.Mint, amount, None, None, Some(q.request), Some(q.quote)));
    }
  }

  // ---------------------------------------------------------------------
  // checkMintQuote

  /** Every record `MintRecords` lists is a `mint` record of the wallet. */
  lemma MintRecordsAreMints(s: Store, wal: Wallet, quoteId: string)
    ensures var f := FindByQuote(MintRecords(s, wal), quoteId);
      f.Some? ==> && f.value in s.txs && f.value.walletId == wal.id && f.value.txType == TxType.Mint
                  && f.value.quoteId == Some(quoteId)
  {
    var rows := MintRecords(s, wal);
    var f := FindByQuote(rows, quoteId);
    if f.Some? {
      assert f.value in rows;
    }
  }

  /** When the quote is paid and the wallet has a `mint` record for it, the
      first such record in query order, whatever its status, receives the
      minted proofs and is completed with their sum, which is returned. */
  lemma CheckMintQuoteCredits(s: Store, wal: Wallet, quoteId: string,
                              status: Result<MintQuoteStatus, EngineError>, minted: Result<seq<EngineProof>, EngineError>)
    requires status.Success? && status.value.state == Paid && minted.Success?
    requires FindByQuote(MintRecords(s, wal), quoteId).Some?
    requires ProofStore.CanInsertAll(s, wal.id, minted.value)
    ensures var r := CheckMintQuote(s, wal, quoteId, status, minted);
      var t := FindByQuote(MintRecords(s, wal), quoteId).value;
      && r.result == Success(Some(EngineSum(minted.value)))
      && t in s.txs && t.txType == TxType.Mint && t.walletId == wal.id && t.quoteId == Some(quoteId)
      && r.store.proofs == s.proofs + ProofStore.NewProofs(wal.id, minted.value, t.id, s.now)
      && Balance(r.store.proofs, wal.id) == Balance(s.proofs, wal.id) + EngineSum(minted.value)
      && |r.store.txs| == |s.txs|
      && (forall i :: 0 <= i < |s.txs| && s.txs[i].id != t.id ==> r.store.txs[i] == s.txs[i])
      && (forall i :: 0 <= i < |s.txs| && s.txs[i].id == t.id ==>
            r.store.txs[i].status == TxStatus.Completed && r.store.txs[i].amount == EngineSum(minted.value))
  {
    var ps := minted.value;
    MintRecordsAreMints(s, wal, quoteId);
    var o := TransactionStore.QueryOptions(Some(TxType.Mint), None, None, None);
    TransactionStore.PageKeeps(MintRecords(s, wal), o);
    var t := FindByQuote(MintRecords(s, wal), quoteId).value;
    BalanceAppend(s.proofs, ProofStore.NewProofs(wal.id, ps, t.id, s.now), wal.id);
    ProofStore.NewProofsBalance(wal.id, ps, t.id, s.now, wal.id);
  }

  /** The source's behaviour when no record matches: the proofs were minted
      and their sum is reported, but nothing is stored, so the balance does
      not include them. */
  lemma CheckMintQuoteDropsUnmatchedMint(s: Store, wal: Wallet, quoteId: string,
                                         status: Result<MintQuoteStatus, EngineError>, minted: Result<seq<EngineProof>, EngineError>)
    requires status.Success? && status.value.state == Paid && minted.Success?
    requires forall i :: 0 <= i < |s.txs| && s.txs[i].walletId == wal.id && s.txs[i].txType == TxType.Mint ==>
      s.txs[i].quoteId != Some(quoteId)
    ensures var r := CheckMintQuote(s, wal, quoteId, status, minted);
      && r == Step(s, Success(Some(EngineSum(minted.value))))
      && Balance(r.store.proofs, wal.id) == Balance(s.proofs, wal.id)
  {
    MintRecordsAreMints(s, wal, quoteId);
  }

  /** A concrete run: a fresh wallet asks about a paid quote it holds no
      record for, the mint issues a 64 proof, the call reports 64, and the
      balance stays 0. */
  lemma CheckMintQuoteLosesMintedProofs()
    ensures var wal := Wallet("bw_1", "https://testnut.cashu.space", "sat");
      var s := Open(EmptyStore(0), wal);
      var minted := [EngineProof("k1", 64, "s1", "C1")];
      var r := CheckMintQuote(s, wal, "q1", Success(MintQuoteStatus(Paid, 64)), Success(minted));
      r.result == Success(Some(64)) && Balance(r.store.proofs, wal.id) == 0
  {
    var wal := Wallet("bw_1", "https://testnut.cashu.space", "sat");
    var s := Open(EmptyStore(0), wal);
    var minted := [EngineProof("k1", 64, "s1", "C1")];
    CheckMintQuoteDropsUnmatchedMint(s, wal, "q1", Success(MintQuoteStatus(Paid, 64)), Success(minted));
  }

  /** A `mint` record of the wallet carrying the quote id is always found. */
  lemma FoundIfPresent(s: Store, wal: Wallet, quoteId: string, k: int)
    requires 0 <= k < |s.txs|
    requires s.txs[k].walletId == wal.id && s.txs[k].txType == TxType.Mint && s.txs[k].quoteId == Some(quoteId)
    ensures FindByQuote(MintRecords(s, wal), quoteId).Some?
  {
    assert s.txs[k] in MintRecords(s, wal);
  }

  /** No status guard: a paid quote whose record is already completed is
      credited again when the engine mints again, so two checks credit
      twice. */
  lemma CheckMintQuoteCreditsTwice(s: Store, wal: Wallet, quoteId: string, st: MintQuoteStatus,
                                   ps1: seq<EngineProof>, ps2: seq<EngineProof>)
    requires st.state == Paid
    requires FindByQuote(MintRecords(s, wal), quoteId).Some?
    requires ProofStore.CanInsertAll(s, wal.id, ps1)
    requires ProofStore.CanInsertAll(CheckMintQuote(s, wal, quoteId, Success(st), Success(ps1)).store, wal.id, ps2)
    ensures var r1 := CheckMintQuote(s, wal, quoteId, Success(st), Success(ps1));
      var r2 := CheckMintQuote(r1.store, wal, quoteId, Success(st), Success(ps2));
      && r2.result == Success(Some(EngineSum(ps2)))
      && Balance(r2.store.proofs, wal.id) == Balance(s.proofs, wal.id) + EngineSum(ps1) + EngineSum(ps2)
  {
    var r1 := CheckMintQuote(s, wal, quoteId, Success(st), Success(ps1));
    CreditedOnce(s, wal, quoteId, st, ps1);
    CreditedOnce(r1.store, wal, quoteId, st, ps2);
  }

  /** One paid check with a record: the sum is reported and credited, and
      the record is still there to be found. */
  lemma CreditedOnce(s: Store, wal: Wallet, quoteId: string, st: MintQuoteStatus, ps: seq<EngineProof>)
    requires st.state == Paid
    requires FindByQuote(MintRecords(s, wal), quoteId).Some?
    requires ProofStore.CanInsertAll(s, wal.id, ps)
    ensures var r := CheckMintQuote(s, wal, quoteId, Success(st), Success(ps));
      && r.result == Success(Some(EngineSum(ps)))
      && Balance(r.store.proofs, wal.id) == Balance(s.proofs, wal.id) + EngineSum(ps)
      && FindByQuote(MintRecords(r.store, wal), quoteId).Some?
  {
    var r := CheckMintQuote(s, wal, quoteId, Success(st), Success(ps));
    CheckMintQuoteCredits(s, wal, quoteId, Success(st), Success(ps));
    var t := FindByQuote(MintRecords(s, wal), quoteId).value;
    var k :| 0 <= k < |s.txs| && s.txs[k] == t;
    FoundIfPresent(r.store, wal, quoteId, k);
  }

  lemma CheckMintQuoteValid(s: Store, wal: Wallet, quoteId: string,
                            status: Result<MintQuoteStatus, EngineError>, minted: Result<seq<EngineProof>, EngineError>)
    requires Valid(s)
    ensures Valid(CheckMintQuote(s, wal, quoteId, status, minted).store)
  {
    if status.Success? && status.value.state == Paid && minted.Success? {
      var f := FindByQuote(MintRecords(s, wal), quoteId);
      var o := TransactionStore.QueryOptions(Some(TxType.Mint), None, None, None);
      TransactionStore.PageKeeps(MintRecords(s, wal), o);
      if f.Some? {
        var ps := minted.value;
        var t := f.value;
        ProofStore.InsertProofsValid(s, wal.id, ps, t.id);
        var ins := ProofStore.InsertProofs(s, wal.id, ps, t.id);
        TransactionStore.UpdateStatusValid(ins.store, t.id, TxStatus.Completed, TransactionStore.Updates(Some(EngineSum(ps)), None, None));
      }
    }
  }

  /** `checkMintQuote` never reserves anything and stores only unspent rows. */
  lemma CheckMintQuoteNoPending(s: Store, wal: Wallet, quoteId: string,
                                status: Result<MintQuoteStatus, EngineError>, minted: Result<seq<EngineProof>, EngineError>)
    ensures NoNewPending(s, CheckMintQuote(s, wal, quoteId, status, minted).store)
  {
    var r := CheckMintQuote(s, wal, quoteId, status, minted);
    if status.Success? && status.value.state == Paid && minted.Success? && FindByQuote(MintRecords(s, wal), quoteId).Some? && r.result.Success? {
      var o := TransactionStore.QueryOptions(Some(TxType.Mint), None, None, None);
      TransactionStore.PageKeeps(MintRecords(s, wal), o);
      var ps := minted.value;
      var t := FindByQuote(MintRecords(s, wal), quoteId).value;
      var ins := ProofStore.InsertProofs(s, wal.id, ps, t.id);
      assert ins.failure.None?;
      assert r.store.proofs == s.proofs + ProofStore.NewProofs(wal.id, ps, t.id, s.now);
    }
  }

  /** Paging `getTransactions` with the same filters neither skips nor
      repeats a record: two consecutive pages of `n` are one page of `2n`. */
  lemma GetTransactionsPagesTile(s: Store, wal: Wallet, t: Option<TxType>, st: Option<TxStatus>, n: int, k: nat)
    requires n > 0
    ensures var first := GetTransactions(s, wal, TransactionStore.QueryOptions(t, st, Some(n), Some(k)));
      var second := GetTransactions(s, wal, TransactionStore.QueryOptions(t, st, Some(n), Some(k + n)));
      var both := GetTransactions(s, wal, TransactionStore.QueryOptions(t, st, Some(2 * n), Some(k)));
      && first.Success? && second.Success? && both.Success?
      && first.value + second.value == both.value
  {
    TransactionStore.QueryPagesTile(s, wal.id, t, st, n, k);
  }
}
