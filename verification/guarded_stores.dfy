/** Guarded versions of three store updates (src/storage/ProofStore.ts,
    src/storage/TransactionStore.ts).

    As written, `markPending` and `rollbackPending` match a proof by id
    alone, and `updateStatus` matches a record by id alone. So a spent proof
    can be reserved and then rolled back to `unspent`, where it is counted
    again. A completed or failed record can also be moved to another status.
    The ledger's own invariants rule both out: a spent proof is terminal,
    and so is a finished record. The guarded updates add the state to the
    WHERE clause:
    `... WHERE id = ? AND state = 'unspent'`,
    `... WHERE id = ? AND state = 'pending' AND spent_by_tx = ?` and
    `... WHERE id = ? AND status = 'pending'`. On the states the
    orchestration reaches in one process they agree with the unguarded
    statements. */
module GuardedStores {
  import opened Wrappers
  import opened Schema
  import ProofStore
  import TransactionStore

  // ---------------------------------------------------------------------
  // Proofs

  /** `UPDATE proofs SET state = 'pending', spent_by_tx = ?
      WHERE id = ? AND state = 'unspent'`, once per listed id. */
  function ReserveUnspent(s: Store, ids: seq<string>, txId: string): (r: Store)
    ensures r == s.(proofs := r.proofs) && |r.proofs| == |s.proofs|
    ensures forall i :: 0 <= i < |s.proofs| && s.proofs[i].state != Unspent ==> r.proofs[i] == s.proofs[i]
    ensures forall i :: 0 <= i < |s.proofs| && s.proofs[i].id !in ids ==> r.proofs[i] == s.proofs[i]
    ensures forall i :: 0 <= i < |s.proofs| && s.proofs[i].id in ids && s.proofs[i].state == Unspent ==>
      r.proofs[i].state == ProofState.Pending && r.proofs[i].spentByTx == Some(txId)
    ensures Valid(s) ==> Valid(r)
  {
    var ps := seq(|s.proofs|, i requires 0 <= i < |s.proofs| =>
                  if s.proofs[i].id in ids && s.proofs[i].state == Unspent
                  then s.proofs[i].(state := ProofState.Pending, spentByTx := Some(txId))
                  else s.proofs[i]);
    assert forall i :: 0 <= i < |ps| ==> ps[i].id == s.proofs[i].id && ps[i].walletId == s.proofs[i].walletId;
    s.(proofs := ps)
  }

  /** `UPDATE proofs SET state = 'unspent', spent_by_tx = NULL
      WHERE id = ? AND state = 'pending' AND spent_by_tx = ?`, once per
      listed id: only this transaction's own reservations are released. */
  function ReleaseReservation(s: Store, ids: seq<string>, txId: string): (r: Store)
    ensures r == s.(proofs := r.proofs) && |r.proofs| == |s.proofs|
    ensures forall i :: 0 <= i < |s.proofs| && s.proofs[i].state != ProofState.Pending ==> r.proofs[i] == s.proofs[i]
    ensures forall i :: 0 <= i < |s.proofs| && s.proofs[i].spentByTx != Some(txId) ==> r.proofs[i] == s.proofs[i]
    ensures forall i :: 0 <= i < |s.proofs| && s.proofs[i].id !in ids ==> r.proofs[i] == s.proofs[i]
    ensures forall i :: 0 <= i < |s.proofs| && s.proofs[i].id in ids
                        && s.proofs[i].state == ProofState.Pending && s.proofs[i].spentByTx == Some(txId) ==>
      r.proofs[i].state == Unspent && r.proofs[i].spentByTx.None?
    ensures Valid(s) ==> Valid(r)
  {
    var ps := seq(|s.proofs|, i requires 0 <= i < |s.proofs| =>
                  if s.proofs[i].id in ids && s.proofs[i].state == ProofState.Pending && s.proofs[i].spentByTx == Some(txId)
                  then s.proofs[i].(state := Unspent, spentByTx := None)
                  else s.proofs[i]);
    assert forall i :: 0 <= i < |ps| ==> ps[i].id == s.proofs[i].id && ps[i].walletId == s.proofs[i].walletId;
    s.(proofs := ps)
  }

  /** A reservation under a fresh transaction id, released again, gives back
      the ledger it started from, whatever the listed rows' states were. */
  lemma ReserveReleaseRoundTrip(s: Store, ids: seq<string>, txId: string)
    requires ReservationsConsistent(s.proofs)
    requires forall i :: 0 <= i < |s.proofs| ==> s.proofs[i].spentByTx != Some(txId)
    ensures ReleaseReservation(ReserveUnspent(s, ids, txId), ids, txId) == s
  {
    var r := ReleaseReservation(ReserveUnspent(s, ids, txId), ids, txId);
    forall i | 0 <= i < |s.proofs|
      ensures r.proofs[i] == s.proofs[i]
    {
      if s.proofs[i].id in ids && s.proofs[i].state == Unspent {
        assert s.proofs[i].spentByTx.None?;
      }
    }
    assert r.proofs == s.proofs;
  }

  /** With the guards, a reservation followed by a release, under any
      transaction ids and lists, leaves a spent proof as it was. */
  lemma GuardedNeverRevivesSpent(s: Store, reserve: seq<string>, release: seq<string>, t1: string, t2: string, i: nat)
    requires i < |s.proofs| && s.proofs[i].state == Spent
    ensures ReleaseReservation(ReserveUnspent(s, reserve, t1), release, t2).proofs[i] == s.proofs[i]
  {
  }

  /** As written, reserving a spent proof and rolling the reservation back
      leaves it `unspent`: the guarded pair leaves it spent. */
  lemma MarkPendingRevivesSpent(s: Store, ids: seq<string>, txId: string, i: nat)
    requires i < |s.proofs| && s.proofs[i].state == Spent && s.proofs[i].id in ids
    ensures ProofStore.RollbackPending(ProofStore.MarkPending(s, ids, txId), ids).proofs[i].state == Unspent
    ensures ReleaseReservation(ReserveUnspent(s, ids, txId), ids, txId).proofs[i].state == Spent
  {
  }

  /** A concrete ledger: one spent proof of 8 that `send` reserved under
      "tx-1" comes back into wallet "w"'s balance after a second reservation
      under "tx-2" is rolled back. */
  lemma MarkPendingRevivesExample()
    ensures var p := Proof("p", "w", 8, "s", "C", "k", Spent, Some("tx-0"), Some("tx-1"), 0);
      var s := Store(map[], [p], [], 0);
      && Balance(s.proofs, "w") == 0
      && Balance(ProofStore.RollbackPending(ProofStore.MarkPending(s, ["p"], "tx-2"), ["p"]).proofs, "w") == 8
      && Balance(ReleaseReservation(ReserveUnspent(s, ["p"], "tx-2"), ["p"], "tx-2").proofs, "w") == 0
  {
    var p := Proof("p", "w", 8, "s", "C", "k", Spent, Some("tx-0"), Some("tx-1"), 0);
    var s := Store(map[], [p], [], 0);
    var back := ProofStore.RollbackPending(ProofStore.MarkPending(s, ["p"], "tx-2"), ["p"]);
    assert back.proofs == [p.(state := Unspent, spentByTx := None)];
    var kept := ReleaseReservation(ReserveUnspent(s, ["p"], "tx-2"), ["p"], "tx-2");
    assert kept.proofs == [p];
  }

  /** When every listed row is unspent, the guarded reservation is
      `markPending`. */
  lemma ReserveAgreesWithMarkPending(s: Store, ids: seq<string>, txId: string)
    requires forall i :: 0 <= i < |s.proofs| && s.proofs[i].id in ids ==> s.proofs[i].state == Unspent
    ensures ReserveUnspent(s, ids, txId) == ProofStore.MarkPending(s, ids, txId)
  {
    assert ReserveUnspent(s, ids, txId).proofs == ProofStore.MarkPending(s, ids, txId).proofs;
  }

  /** After a reservation of unspent rows, the guarded release is
      `rollbackPending`. */
  lemma ReleaseAgreesWithRollback(s: Store, ids: seq<string>, txId: string)
    requires forall i :: 0 <= i < |s.proofs| && s.proofs[i].id in ids ==> s.proofs[i].state == Unspent
    ensures var held := ProofStore.MarkPending(s, ids, txId);
      ReleaseReservation(held, ids, txId) == ProofStore.RollbackPending(held, ids)
  {
    var held := ProofStore.MarkPending(s, ids, txId);
    assert ReleaseReservation(held, ids, txId).proofs == ProofStore.RollbackPending(held, ids).proofs;
  }

  // ---------------------------------------------------------------------
  // Transactions

  /** `UPDATE transactions SET status = ?, ... WHERE id = ? AND status =
      'pending'`: a record is finished once. */
  function FinishPending(s: Store, txId: string, status: TxStatus, u: TransactionStore.Updates): (r: Store)
    ensures r == s.(txs := r.txs) && |r.txs| == |s.txs|
    ensures forall i :: 0 <= i < |s.txs| && s.txs[i].status != TxStatus.Pending ==> r.txs[i] == s.txs[i]
    ensures forall i :: 0 <= i < |s.txs| && s.txs[i].id != txId ==> r.txs[i] == s.txs[i]
    ensures forall i :: 0 <= i < |s.txs| && s.txs[i].id == txId && s.txs[i].status == TxStatus.Pending ==>
      r.txs[i] == TransactionStore.UpdateStatus(s, txId, status, u).txs[i]
    ensures Valid(s) ==> Valid(r)
  {
    var ts := seq(|s.txs|, i requires 0 <= i < |s.txs| =>
                  if s.txs[i].id == txId && s.txs[i].status == TxStatus.Pending
                  then TransactionStore.Patch(s.txs[i], status, u, s.now)
                  else s.txs[i]);
    assert forall i :: 0 <= i < |ts| ==> ts[i].id == s.txs[i].id && ts[i].walletId == s.txs[i].walletId;
    s.(txs := ts)
  }

  /** With the guard a finished record stays as it is, whatever a later
      update asks for; as written it takes the new status. */
  lemma TerminalStaysTerminal(s: Store, i: nat, status: TxStatus, u: TransactionStore.Updates)
    requires i < |s.txs| && s.txs[i].status != TxStatus.Pending
    ensures FinishPending(s, s.txs[i].id, status, u).txs[i] == s.txs[i]
    ensures TransactionStore.UpdateStatus(s, s.txs[i].id, status, u).txs[i].status == status
  {
  }

  /** On a pending record, the guarded update is `updateStatus`. */
  lemma FinishAgreesWithUpdateStatus(s: Store, txId: string, status: TxStatus, u: TransactionStore.Updates)
    requires forall i :: 0 <= i < |s.txs| && s.txs[i].id == txId ==> s.txs[i].status == TxStatus.Pending
    ensures FinishPending(s, txId, status, u) == TransactionStore.UpdateStatus(s, txId, status, u)
  {
    assert FinishPending(s, txId, status, u).txs == TransactionStore.UpdateStatus(s, txId, status, u).txs;
  }
}
