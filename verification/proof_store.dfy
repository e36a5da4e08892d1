/** The proof ledger (src/storage/ProofStore.ts): inserting proofs, reading a
    wallet's unspent proofs and balance, coin selection, and the three bulk
    state changes. */
module ProofStore {
  import opened Wrappers
  import opened Errors
  import opened Sequences
  import opened Schema
  import opened Engine

  // ---------------------------------------------------------------------
  // insertProofs

  /** The row one execution of the prepared INSERT creates: the id is the
      proof's `C`, the state `unspent`, `created_by_tx` the transaction and
      `spent_by_tx` left NULL. */
  function NewProof(w: string, e: EngineProof, txId: string, now: nat): Proof
  {
    Proof(e.c, w, e.amount, e.secret, e.c, e.keysetId, Unspent, Some(txId), None, now)
  }

  function NewProofs(w: string, es: seq<EngineProof>, txId: string, now: nat): (r: seq<Proof>)
    ensures |r| == |es|
    ensures forall i :: 0 <= i < |es| ==> r[i] == NewProof(w, es[i], txId, now)
  {
    if |es| == 0 then [] else [NewProof(w, es[0], txId, now)] + NewProofs(w, es[1..], txId, now)
  }

  lemma NewProofsCons(w: string, e: EngineProof, es: seq<EngineProof>, txId: string, now: nat)
    ensures NewProofs(w, [e] + es, txId, now) == [NewProof(w, e, txId, now)] + NewProofs(w, es, txId, now)
  {
    assert ([e] + es)[1..] == es;
  }

  /** Inserted proofs add their amounts to their own wallet's balance only. */
  lemma {:induction false} NewProofsBalance(w: string, es: seq<EngineProof>, txId: string, now: nat, v: string)
    ensures Balance(NewProofs(w, es, txId, now), v) == if v == w then EngineSum(es) else 0
  {
    if |es| > 0 {
      var ps := NewProofs(w, es, txId, now);
      assert ps[1..] == NewProofs(w, es[1..], txId, now);
      NewProofsBalance(w, es[1..], txId, now, v);
    }
  }

  /** One execution of the prepared INSERT. SQLite refuses it when the id
      is already taken (primary key) or the wallet row is missing (foreign
      key). */
  function InsertProof(s: Store, w: string, e: EngineProof, txId: string): (r: Result<Store, Error>)
    ensures r.Success? <==> e.c !in ProofIds(s.proofs) && w in s.wallets
    ensures r.Success? ==> r.value == s.(proofs := s.proofs + [NewProof(w, e, txId, s.now)])
    ensures r.Failure? ==> r.error.ConstraintViolation?
  {
    if e.c in ProofIds(s.proofs) then Failure(ConstraintViolation(PrimaryKey))
    else if w !in s.wallets then Failure(ConstraintViolation(ForeignKey))
    else Success(s.(proofs := s.proofs + [NewProof(w, e, txId, s.now)]))
  }

  lemma InsertProofValid(s: Store, w: string, e: EngineProof, txId: string)
    requires Valid(s)
    requires InsertProof(s, w, e, txId).Success?
    ensures Valid(InsertProof(s, w, e, txId).value)
  {
    assert forall i :: 0 <= i < |s.proofs| ==> s.proofs[i].id == ProofIds(s.proofs)[i];
  }

  /** The statements that ran before a failure, or None when all of them did. */
  datatype Partial = Partial(store: Store, failure: Option<Error>)

  /** When `insertProofs` goes through: nothing to insert, or the wallet
      exists and every `C` is new, both to the table and within the list. */
  predicate CanInsertAll(s: Store, w: string, es: seq<EngineProof>)
  {
    |es| == 0 ||
    (&& w in s.wallets
     && (forall i :: 0 <= i < |es| ==> es[i].c !in ProofIds(s.proofs))
     && (forall i, j :: 0 <= i < j < |es| ==> es[i].c != es[j].c))
  }

  /** `insertProofs`: one INSERT per proof, in order. Outside a
      `database.transaction` each INSERT commits on its own, so a failure
      leaves the rows inserted before it in place (see `InsertProofsPartial`). */
  function InsertProofs(s: Store, w: string, es: seq<EngineProof>, txId: string): (r: Partial)
    ensures r.failure.None? <==> CanInsertAll(s, w, es)
    ensures r.failure.None? ==> r.store == s.(proofs := s.proofs + NewProofs(w, es, txId, s.now))
    decreases |es|
  {
    if |es| == 0 then
      assert s.proofs + NewProofs(w, es, txId, s.now) == s.proofs;
      Partial(s, None)
    else
      match InsertProof(s, w, es[0], txId)
      case Failure(e) => Partial(s, Some(e))
      case Success(s1) =>
        InsertStep(s, w, es, txId);
        InsertProofs(s1, w, es[1..], txId)
  }

  /** A failed `insertProofs` leaves behind the rows of the proofs before the
      one that was refused, and the refusal is a constraint violation. */
  lemma {:induction false} InsertProofsPartial(s: Store, w: string, es: seq<EngineProof>, txId: string)
    ensures var r := InsertProofs(s, w, es, txId);
      r.failure.Some? ==>
        && |s.proofs| <= |r.store.proofs| < |s.proofs| + |es|
        && r.store.proofs == s.proofs + NewProofs(w, es[..|r.store.proofs| - |s.proofs|], txId, s.now)
        && r.store.wallets == s.wallets && r.store.txs == s.txs && r.store.now == s.now
        && r.failure.value.ConstraintViolation?
    decreases |es|
  {
    if |es| > 0 {
      var r0 := InsertProof(s, w, es[0], txId);
      if r0.Failure? {
        assert es[..0] == [];
      } else {
        var s1 := r0.value;
        InsertProofsPartial(s1, w, es[1..], txId);
        var r := InsertProofs(s1, w, es[1..], txId);
        if r.failure.Some? {
          PrefixStep(s.proofs, w, es, |r.store.proofs| - |s1.proofs|, txId, s.now);
        }
      }
    }
  }

  /** Rows for a prefix of `es`, with the first one split off. */
  lemma PrefixStep(ps: seq<Proof>, w: string, es: seq<EngineProof>, k: nat, txId: string, now: nat)
    requires k < |es|
    ensures (ps + [NewProof(w, es[0], txId, now)]) + NewProofs(w, es[1..][..k], txId, now)
         == ps + NewProofs(w, es[..k + 1], txId, now)
  {
    assert es[..k + 1] == [es[0]] + es[1..][..k];
    NewProofsCons(w, es[0], es[1..][..k], txId, now);
  }

  /** Whatever part of `insertProofs` ran, the table constraints still hold. */
  lemma {:induction false} InsertProofsValid(s: Store, w: string, es: seq<EngineProof>, txId: string)
    requires Valid(s)
    ensures Valid(InsertProofs(s, w, es, txId).store)
    decreases |es|
  {
    if |es| > 0 {
      match InsertProof(s, w, es[0], txId)
      case Failure(e) =>
      case Success(s1) =>
        InsertProofValid(s, w, es[0], txId);
        InsertProofsValid(s1, w, es[1..], txId);
    }
  }

  /** Inserting the first proof turns the condition for the whole list into
      the condition for the rest. */
  lemma InsertStep(s: Store, w: string, es: seq<EngineProof>, txId: string)
    requires |es| > 0
    requires InsertProof(s, w, es[0], txId).Success?
    ensures var s1 := InsertProof(s, w, es[0], txId).value;
      && (CanInsertAll(s1, w, es[1..]) <==> CanInsertAll(s, w, es))
      && s1.(proofs := s1.proofs + NewProofs(w, es[1..], txId, s1.now))
         == s.(proofs := s.proofs + NewProofs(w, es, txId, s.now))
  {
    InsertStepCondition(s, w, es, txId);
    InsertStepRows(s, w, es, txId);
  }

  lemma InsertStepRows(s: Store, w: string, es: seq<EngineProof>, txId: string)
    requires |es| > 0
    ensures (s.proofs + [NewProof(w, es[0], txId, s.now)]) + NewProofs(w, es[1..], txId, s.now)
         == s.proofs + NewProofs(w, es, txId, s.now)
  {
  }

  lemma InsertStepCondition(s: Store, w: string, es: seq<EngineProof>, txId: string)
    requires |es| > 0
    requires InsertProof(s, w, es[0], txId).Success?
    ensures CanInsertAll(InsertProof(s, w, es[0], txId).value, w, es[1..]) <==> CanInsertAll(s, w, es)
  {
    var s1 := InsertProof(s, w, es[0], txId).value;
    assert ProofIds(s1.proofs) == ProofIds(s.proofs) + [es[0].c];
    if CanInsertAll(s1, w, es[1..]) {
      forall i, j | 0 <= i < j < |es|
        ensures es[i].c != es[j].c
      {
        if i == 0 {
          assert es[j] == es[1..][j - 1];
          assert es[0].c in ProofIds(s1.proofs);
        } else {
          assert es[i] == es[1..][i - 1] && es[j] == es[1..][j - 1];
        }
      }
      forall i | 0 <= i < |es|
        ensures es[i].c !in ProofIds(s.proofs)
      {
        if i > 0 {
          assert es[i] == es[1..][i - 1];
        }
      }
    }
  }

  // ---------------------------------------------------------------------
  // getUnspentProofs and getBalance

  /** `SELECT * FROM proofs WHERE wallet_id = ? AND state = 'unspent'`, in
      rowid order. */
  function UnspentOf(ps: seq<Proof>, w: string): (r: seq<Proof>)
    ensures |r| <= |ps|
    ensures forall p :: p in r <==> p in ps && p.walletId == w && p.state == Unspent
  {
    if |ps| == 0 then []
    else
      assert ps == [ps[0]] + ps[1..];
      (if ps[0].walletId == w && ps[0].state == Unspent then [ps[0]] else []) + UnspentOf(ps[1..], w)
  }

  function GetUnspentProofs(s: Store, w: string): (r: seq<Proof>)
    ensures forall p :: p in r <==> p in s.proofs && p.walletId == w && p.state == Unspent
  {
    UnspentOf(s.proofs, w)
  }

  lemma {:induction false} BalanceIsUnspentSum(ps: seq<Proof>, w: string)
    ensures SumAmounts(UnspentOf(ps, w)) == Balance(ps, w)
  {
    if |ps| > 0 {
      BalanceIsUnspentSum(ps[1..], w);
      var head := if ps[0].walletId == w && ps[0].state == Unspent then [ps[0]] else [];
      SumByAppend(head, UnspentOf(ps[1..], w), Amount);
    }
  }

  /** `getBalance`: `COALESCE(SUM(amount), 0)` over the wallet's unspent
      rows, which is the wallet balance and 0 when there are none. */
  function GetBalance(s: Store, w: string): (r: int)
    ensures r == Balance(s.proofs, w)
    ensures GetUnspentProofs(s, w) == [] ==> r == 0
  {
    BalanceIsUnspentSum(s.proofs, w);
    SumAmounts(UnspentOf(s.proofs, w))
  }

  lemma {:induction false} UnspentOfDistinct(ps: seq<Proof>, w: string)
    requires UniqueProofIds(ps)
    ensures DistinctBy(UnspentOf(ps, w), ProofId)
  {
    if |ps| > 0 {
      UnspentOfDistinct(ps[1..], w);
      var rest := UnspentOf(ps[1..], w);
      if ps[0].walletId == w && ps[0].state == Unspent {
        var r := [ps[0]] + rest;
        forall j | 0 < j < |r|
          ensures r[0].id != r[j].id
        {
          assert r[j] in rest;
          var k :| 0 <= k < |ps[1..]| && ps[1..][k] == r[j];
          assert ps[k + 1] == r[j];
        }
        assert DistinctBy(r, ProofId);
      } else {
        assert UnspentOf(ps, w) == rest;
      }
    }
  }

  // ---------------------------------------------------------------------
  // selectProofsForAmount

  /** The wallet's unspent proofs after `all.sort((a, b) => a.amount - b.amount)`
      (a stable sort: equal amounts keep rowid order). */
  function SortedUnspent(ps: seq<Proof>, w: string): (r: seq<Proof>)
    ensures SortedBy(r, Amount)
    ensures multiset(r) == multiset(UnspentOf(ps, w))
    ensures SumAmounts(r) == Balance(ps, w)
    ensures forall p :: p in r <==> p in ps && p.walletId == w && p.state == Unspent
  {
    var u := UnspentOf(ps, w);
    SortBySum(u, Amount, Amount);
    BalanceIsUnspentSum(ps, w);
    var r := SortBy(u, Amount);
    assert forall p :: p in r <==> p in multiset(u);
    r
  }

  /** The selection loop: while the running total is below the target, take
      the next proof. `need` is what the proofs taken so far still miss. */
  function TakeUntilCovered(ps: seq<Proof>, need: int): (r: seq<Proof>)
    ensures |r| <= |ps| && r == ps[..|r|]
    ensures forall k :: 0 <= k < |r| ==> SumAmounts(ps[..k]) < need
    ensures SumAmounts(r) >= need || r == ps
  {
    if need <= 0 || |ps| == 0 then []
    else
      var rest := TakeUntilCovered(ps[1..], need - ps[0].amount);
      var r := [ps[0]] + rest;
      assert r[1..] == rest;
      forall k | 0 <= k < |r|
        ensures SumAmounts(ps[..k]) < need
      {
        if k > 0 {
          assert ps[..k][1..] == ps[1..][..k - 1];
        }
      }
      assert ps == [ps[0]] + ps[1..];
      r
  }

  /** The loop followed by `if (total < amount) return []`. */
  function SelectFrom(sorted: seq<Proof>, target: int): seq<Proof>
  {
    var taken := TakeUntilCovered(sorted, target);
    if SumAmounts(taken) < target then [] else taken
  }

  /** On an ascending list, the selection is empty exactly when the target is
      not positive or the whole list does not cover it. Amounts may be zero or
      negative, so this rests on the order: once the greedy prefix covers a
      positive target its last proof is positive, and so is everything after. */
  lemma SelectFromSpec(sorted: seq<Proof>, target: int)
    requires SortedBy(sorted, Amount)
    ensures var r := SelectFrom(sorted, target);
      && |r| <= |sorted|
      && r == sorted[..|r|]
      && (r == [] <==> target <= 0 || SumAmounts(sorted) < target)
      && (r != [] ==> SumAmounts(r) >= target && SumAmounts(r[..|r| - 1]) < target)
  {
    var taken := TakeUntilCovered(sorted, target);
    var n := |taken|;
    if n > 0 {
      assert taken[..n - 1] == sorted[..n - 1];
    }
    if target > 0 && SumAmounts(taken) >= target && SumAmounts(sorted) < target {
      CoveredPrefixBound(sorted, taken, target);
    }
  }

  /** Once an ascending list's greedy prefix covers a positive target, the
      rest of the list only adds to it. */
  lemma CoveredPrefixBound(sorted: seq<Proof>, taken: seq<Proof>, target: int)
    requires SortedBy(sorted, Amount)
    requires 0 < |taken| <= |sorted| && taken == sorted[..|taken|]
    requires SumAmounts(taken[..|taken| - 1]) < target <= SumAmounts(taken)
    ensures SumAmounts(sorted) >= SumAmounts(taken)
  {
    var n := |taken|;
    SumBySnoc(taken, Amount);
    assert sorted[n - 1].amount > 0;
    var rest := sorted[n..];
    assert forall i :: 0 <= i < |rest| ==> Amount(rest[i]) >= 0 by {
      forall i | 0 <= i < |rest|
        ensures Amount(rest[i]) >= 0
      {
        assert rest[i] == sorted[n + i];
      }
    }
    SumByNonNegative(rest, Amount);
    assert sorted == taken + rest;
    SumByAppend(taken, rest, Amount);
  }

  /** What a prefix holds, the whole list holds. */
  lemma PrefixMembers(xs: seq<Proof>, n: nat)
    requires n <= |xs|
    ensures forall p :: p in xs[..n] ==> p in xs
  {
    forall p | p in xs[..n]
      ensures p in xs
    {
      var i :| 0 <= i < n && xs[..n][i] == p;
      assert xs[i] == p;
    }
  }

  /** `selectProofsForAmount`: a prefix of the wallet's unspent proofs in
      ascending amount order that covers the target and stops as soon as it
      does, or nothing when the target is not positive or the balance does
      not cover it. */
  function SelectProofsForAmount(s: Store, w: string, target: int): (r: seq<Proof>)
    ensures r == [] <==> target <= 0 || Balance(s.proofs, w) < target
    ensures r != [] ==> SumAmounts(r) >= target && SumAmounts(r[..|r| - 1]) < target
    ensures forall p :: p in r ==> p in s.proofs && p.walletId == w && p.state == Unspent
  {
    var sorted := SortedUnspent(s.proofs, w);
    SelectFromSpec(sorted, target);
    var r := SelectFrom(sorted, target);
    PrefixMembers(sorted, |r|);
    r
  }

  /** The selection is taken from the front of the wallet's unspent proofs
      sorted by amount. */
  lemma SelectionIsSortedPrefix(s: Store, w: string, target: int)
    ensures var r := SelectProofsForAmount(s, w, target);
      |r| <= |SortedUnspent(s.proofs, w)| && r == SortedUnspent(s.proofs, w)[..|r|]
  {
    SelectFromSpec(SortedUnspent(s.proofs, w), target);
  }

  /** `p => listed(p) ? p.amount : 0`. */
  function AmountIfListed(ids: seq<string>): Proof -> int
  {
    (p: Proof) => if p.id in ids then p.amount else 0
  }

  function Zero(p: Proof): int { 0 }

  lemma {:induction false} SumByZero(ps: seq<Proof>)
    ensures SumBy(ps, Zero) == 0
  {
    if |ps| > 0 {
      SumByZero(ps[1..]);
    }
  }

  lemma {:induction false} ListedBalanceIsSum(ps: seq<Proof>, w: string, ids: seq<string>)
    ensures ListedBalance(ps, w, ids) == SumBy(UnspentOf(ps, w), AmountIfListed(ids))
  {
    if |ps| > 0 {
      ListedBalanceIsSum(ps[1..], w, ids);
      var head := if ps[0].walletId == w && ps[0].state == Unspent then [ps[0]] else [];
      SumByAppend(head, UnspentOf(ps[1..], w), AmountIfListed(ids));
    }
  }

  /** In a list without repeated ids, the proofs a prefix lists are the
      prefix itself. */
  lemma ListedPrefixSum(v: seq<Proof>, k: nat)
    requires k <= |v|
    requires DistinctBy(v, ProofId)
    ensures SumBy(v, AmountIfListed(ProofIds(v[..k]))) == SumAmounts(v[..k])
  {
    var sel := v[..k];
    var rest := v[k..];
    var ids := ProofIds(sel);
    var f := AmountIfListed(ids);
    assert v == sel + rest;
    SumByAppend(sel, rest, f);
    forall i | 0 <= i < |sel|
      ensures f(sel[i]) == Amount(sel[i])
    {
      assert ids[i] == sel[i].id;
    }
    SumByAgree(sel, f, Amount);
    forall i | 0 <= i < |rest|
      ensures f(rest[i]) == Zero(rest[i])
    {
      assert rest[i] == v[k + i];
      if v[k + i].id in ids {
        assert false;
      }
    }
    SumByAgree(rest, f, Zero);
    SumByZero(rest);
  }

  /** With unique ids, the unspent proofs of `w` whose id the selection
      lists are exactly the selected proofs. */
  lemma SelectedBalance(s: Store, w: string, target: int)
    requires UniqueProofIds(s.proofs)
    ensures var sel := SelectProofsForAmount(s, w, target);
      ListedBalance(s.proofs, w, ProofIds(sel)) == SumAmounts(sel)
  {
    var sel := SelectProofsForAmount(s, w, target);
    var ids := ProofIds(sel);
    var u := UnspentOf(s.proofs, w);
    var v := SortedUnspent(s.proofs, w);
    SelectionIsSortedPrefix(s, w, target);
    ListedBalanceIsSum(s.proofs, w, ids);
    SortBySum(u, Amount, AmountIfListed(ids));
    UnspentOfDistinct(s.proofs, w);
    SortByDistinct(u, Amount, ProofId);
    ListedPrefixSum(v, |sel|);
  }

  // ---------------------------------------------------------------------
  // markPending, markSpent, rollbackPending

  /** What one of the three UPDATE statements does to a matching row. */
  datatype Change = ToPending(txId: string) | ToSpent | ToUnspent

  function Apply(c: Change, p: Proof): Proof
  {
    match c
    case ToPending(txId) => p.(state := ProofState.Pending, spentByTx := Some(txId))
    case ToSpent => p.(state := Spent)
    case ToUnspent => p.(state := Unspent, spentByTx := None)
  }

  /** One execution of an `UPDATE proofs SET ... WHERE id = ?`. */
  function UpdateById(ps: seq<Proof>, id: string, c: Change): seq<Proof>
  {
    seq(|ps|, i requires 0 <= i < |ps| => if ps[i].id == id then Apply(c, ps[i]) else ps[i])
  }

  /** The loop that runs the prepared UPDATE once per listed id. Its net
      effect: every row whose id is listed (once or several times) changes,
      every other row stays, and ids nobody has are ignored. */
  function UpdateEach(ps: seq<Proof>, ids: seq<string>, c: Change): (r: seq<Proof>)
    ensures |r| == |ps|
    ensures forall i :: 0 <= i < |ps| ==> r[i] == if ps[i].id in ids then Apply(c, ps[i]) else ps[i]
    decreases |ids|
  {
    if |ids| == 0 then ps
    else
      var once := UpdateById(ps, ids[0], c);
      var r := UpdateEach(once, ids[1..], c);
      assert forall x :: x in ids <==> x == ids[0] || x in ids[1..] by {
        assert ids == [ids[0]] + ids[1..];
      }
      r
  }

  lemma UpdateEachValid(s: Store, ids: seq<string>, c: Change)
    ensures Valid(s) ==> Valid(s.(proofs := UpdateEach(s.proofs, ids, c)))
  {
    var ps := UpdateEach(s.proofs, ids, c);
    assert forall i :: 0 <= i < |ps| ==> ps[i].id == s.proofs[i].id && ps[i].walletId == s.proofs[i].walletId;
  }

  /** `markPending`: every listed row becomes `pending`, reserved by `txId`,
      whatever its state was; unknown ids are ignored and other rows stay. */
  function MarkPending(s: Store, ids: seq<string>, txId: string): (r: Store)
    ensures r == s.(proofs := r.proofs) && |r.proofs| == |s.proofs|
    ensures forall i :: 0 <= i < |s.proofs| ==>
      r.proofs[i] == (if s.proofs[i].id in ids
                      then s.proofs[i].(state := ProofState.Pending, spentByTx := Some(txId))
                      else s.proofs[i])
    ensures Valid(s) ==> Valid(r)
  {
    UpdateEachValid(s, ids, ToPending(txId));
    s.(proofs := UpdateEach(s.proofs, ids, ToPending(txId)))
  }

  /** `markSpent`: every listed row becomes `spent` whatever its state was;
      `spent_by_tx` is left as it was. */
  function MarkSpent(s: Store, ids: seq<string>): (r: Store)
    ensures r == s.(proofs := r.proofs) && |r.proofs| == |s.proofs|
    ensures forall i :: 0 <= i < |s.proofs| ==>
      r.proofs[i] == (if s.proofs[i].id in ids then s.proofs[i].(state := Spent) else s.proofs[i])
    ensures Valid(s) ==> Valid(r)
  {
    UpdateEachValid(s, ids, ToSpent);
    s.(proofs := UpdateEach(s.proofs, ids, ToSpent))
  }

  /** `rollbackPending`: every listed row becomes `unspent` with its
      reservation cleared, whatever its state was. */
  function RollbackPending(s: Store, ids: seq<string>): (r: Store)
    ensures r == s.(proofs := r.proofs) && |r.proofs| == |s.proofs|
    ensures forall i :: 0 <= i < |s.proofs| ==>
      r.proofs[i] == (if s.proofs[i].id in ids
                      then s.proofs[i].(state := Unspent, spentByTx := None)
                      else s.proofs[i])
    ensures Valid(s) ==> Valid(r)
  {
    UpdateEachValid(s, ids, ToUnspent);
    s.(proofs := UpdateEach(s.proofs, ids, ToUnspent))
  }

  /** Rolling back a reservation of proofs that were unspent and unreserved
      gives back the very same ledger. */
  lemma RollbackUndoesMarkPending(s: Store, ids: seq<string>, txId: string)
    requires forall i :: 0 <= i < |s.proofs| && s.proofs[i].id in ids ==>
      s.proofs[i].state == Unspent && s.proofs[i].spentByTx.None?
    ensures RollbackPending(MarkPending(s, ids, txId), ids) == s
  {
    var r := RollbackPending(MarkPending(s, ids, txId), ids);
    assert r.proofs == s.proofs;
  }

  /** A change that takes every listed proof out of `unspent` and leaves
      the rest alone lowers each wallet's balance by its listed part. */
  lemma {:induction false} BalanceAfterRetire(ps: seq<Proof>, qs: seq<Proof>, w: string, ids: seq<string>)
    requires |qs| == |ps|
    requires forall i :: 0 <= i < |ps| ==>
      (ps[i].id in ids ==> qs[i].state != Unspent) && (ps[i].id !in ids ==> qs[i] == ps[i])
    ensures Balance(qs, w) == Balance(ps, w) - ListedBalance(ps, w, ids)
  {
    if |ps| > 0 {
      BalanceAfterRetire(ps[1..], qs[1..], w, ids);
    }
  }

  lemma MarkPendingBalance(s: Store, ids: seq<string>, txId: string, w: string)
    ensures Balance(MarkPending(s, ids, txId).proofs, w) == Balance(s.proofs, w) - ListedBalance(s.proofs, w, ids)
  {
    BalanceAfterRetire(s.proofs, MarkPending(s, ids, txId).proofs, w, ids);
  }

  lemma MarkSpentBalance(s: Store, ids: seq<string>, w: string)
    ensures Balance(MarkSpent(s, ids).proofs, w) == Balance(s.proofs, w) - ListedBalance(s.proofs, w, ids)
  {
    BalanceAfterRetire(s.proofs, MarkSpent(s, ids).proofs, w, ids);
  }

  /** A reservation followed by spending: the listed proofs leave the balance
      for good. */
  lemma SpendReservedBalance(s: Store, ids: seq<string>, txId: string, w: string)
    ensures Balance(MarkSpent(MarkPending(s, ids, txId), ids).proofs, w)
         == Balance(s.proofs, w) - ListedBalance(s.proofs, w, ids)
  {
    BalanceAfterRetire(s.proofs, MarkSpent(MarkPending(s, ids, txId), ids).proofs, w, ids);
  }
}
