/** The transaction log (src/storage/TransactionStore.ts): inserting a
    record, changing its status, and querying a wallet's records. */
module TransactionStore {
  import opened Wrappers
  import opened Errors
  import opened Sequences
  import opened Schema

  // ---------------------------------------------------------------------
  // insert

  /** `TransactionMemo`: who sent, who receives, a note and free-form
      metadata, each optional. */
  datatype Memo = Memo(sender: Option<string>, receiver: Option<string>, note: Option<string>, metadata: Option<Json>)

  /** The argument of `insert`. */
  datatype InsertParams = InsertParams(
    id: string,
    walletId: string,
    txType: TxType,
    amount: int,
    memo: Option<Memo>,
    token: Option<string>,
    invoice: Option<string>,
    quoteId: Option<string>)

  /** `params.memo?.<field> ?? null`. */
  function MemoOf(memo: Option<Memo>): Memo
  {
    memo.GetOr(Memo(None, None, None, None))
  }

  /** The row the INSERT creates: status `pending`, fee 0, absent optional
      fields NULL, both timestamps the current time. */
  function NewRecord(p: InsertParams, now: nat): TxRecord
  {
    var m := MemoOf(p.memo);
    TxRecord(p.id, p.walletId, p.txType, TxStatus.Pending, p.amount, 0, p.token, p.invoice, p.quoteId,
             m.sender, m.receiver, m.note, m.metadata, now, now)
  }

  /** `insert`. SQLite refuses a taken id (primary key) before it looks at
      the wallet row (foreign key). */
  function Insert(s: Store, p: InsertParams): (r: Result<Store, Error>)
    ensures r.Success? <==> p.id !in TxIds(s.txs) && p.walletId in s.wallets
    ensures r.Failure? ==>
      r.error == ConstraintViolation(if p.id in TxIds(s.txs) then PrimaryKey else ForeignKey)
    ensures r.Success? ==>
      && r.value == s.(txs := r.value.txs)
      && OneRecordAdded(s, r.value, p.id, p.txType, TxStatus.Pending)
      && var t := r.value.txs[|s.txs|];
         && t.walletId == p.walletId && t.amount == p.amount && t.fee == 0
         && t.token == p.token && t.invoice == p.invoice && t.quoteId == p.quoteId
         && t.sender == (if p.memo.Some? then p.memo.value.sender else None)
         && t.receiver == (if p.memo.Some? then p.memo.value.receiver else None)
         && t.note == (if p.memo.Some? then p.memo.value.note else None)
         && t.metadata == (if p.memo.Some? then p.memo.value.metadata else None)
         && t.createdAt == s.now && t.updatedAt == s.now
  {
    if p.id in TxIds(s.txs) then Failure(ConstraintViolation(PrimaryKey))
    else if p.walletId !in s.wallets then Failure(ConstraintViolation(ForeignKey))
    else
      var s' := s.(txs := s.txs + [NewRecord(p, s.now)]);
      assert s'.txs[..|s.txs|] == s.txs;
      Success(s')
  }

  lemma InsertValid(s: Store, p: InsertParams)
    requires Valid(s)
    ensures Insert(s, p).Success? ==> Valid(Insert(s, p).value)
  {
    assert forall i :: 0 <= i < |s.txs| ==> s.txs[i].id == TxIds(s.txs)[i];
  }

  // ---------------------------------------------------------------------
  // updateStatus

  /** The optional second argument of `updateStatus`: the fields to
      overwrite, each only when supplied. */
  datatype Updates = Updates(amount: Option<int>, fee: Option<int>, token: Option<string>)

  const NoUpdates := Updates(None, None, None)

  function Patch(t: TxRecord, status: TxStatus, u: Updates, now: nat): TxRecord
  {
    t.(status := status,
       updatedAt := now,
       amount := u.amount.GetOr(t.amount),
       fee := u.fee.GetOr(t.fee),
       token := if u.token.Some? then u.token else t.token)
  }

  /** `updateStatus`: `UPDATE transactions SET status = ?, updated_at = ...
      WHERE id = ?`, plus the supplied fields. There is no guard on the
      current status, and an unknown id matches no row. */
  function UpdateStatus(s: Store, txId: string, status: TxStatus, u: Updates): (r: Store)
    ensures r == s.(txs := r.txs) && |r.txs| == |s.txs|
    ensures forall i :: 0 <= i < |s.txs| && s.txs[i].id != txId ==> r.txs[i] == s.txs[i]
    ensures forall i :: 0 <= i < |s.txs| && s.txs[i].id == txId ==>
      && r.txs[i].status == status
      && r.txs[i].updatedAt == s.now
      && r.txs[i].amount == (if u.amount.Some? then u.amount.value else s.txs[i].amount)
      && r.txs[i].fee == (if u.fee.Some? then u.fee.value else s.txs[i].fee)
      && r.txs[i].token == (if u.token.Some? then u.token else s.txs[i].token)
      && r.txs[i] == s.txs[i].(status := r.txs[i].status, updatedAt := r.txs[i].updatedAt,
                               amount := r.txs[i].amount, fee := r.txs[i].fee, token := r.txs[i].token)
  {
    s.(txs := seq(|s.txs|, i requires 0 <= i < |s.txs| =>
                  if s.txs[i].id == txId then Patch(s.txs[i], status, u, s.now) else s.txs[i]))
  }

  lemma UpdateStatusValid(s: Store, txId: string, status: TxStatus, u: Updates)
    ensures Valid(s) ==> Valid(UpdateStatus(s, txId, status, u))
  {
    var r := UpdateStatus(s, txId, status, u);
    assert forall i :: 0 <= i < |r.txs| ==> r.txs[i].id == s.txs[i].id && r.txs[i].walletId == s.txs[i].walletId;
  }

  /** Updating an id that no record has changes nothing. */
  lemma UpdateStatusUnknownId(s: Store, txId: string, status: TxStatus, u: Updates)
    requires txId !in TxIds(s.txs)
    ensures UpdateStatus(s, txId, status, u) == s
  {
    var r := UpdateStatus(s, txId, status, u);
    assert forall i :: 0 <= i < |s.txs| ==> s.txs[i].id == TxIds(s.txs)[i];
    assert r.txs == s.txs;
  }

  /** Running the same update twice is the same as running it once. */
  lemma UpdateStatusIdempotent(s: Store, txId: string, status: TxStatus, u: Updates)
    ensures var once := UpdateStatus(s, txId, status, u);
      UpdateStatus(once, txId, status, u) == once
  {
    var once := UpdateStatus(s, txId, status, u);
    var twice := UpdateStatus(once, txId, status, u);
    assert twice.txs == once.txs;
  }

  /** No terminal state is final: a completed or failed record goes back to
      any status an update asks for. */
  lemma UpdateStatusReopens(s: Store, i: nat, status: TxStatus)
    requires i < |s.txs| && s.txs[i].status != TxStatus.Pending
    ensures UpdateStatus(s, s.txs[i].id, status, NoUpdates).txs[i].status == status
  {
  }

  // ---------------------------------------------------------------------
  // query

  /** `TransactionQuery`: optional type and status filters and the paging
      numbers. */
  datatype QueryOptions = QueryOptions(txType: Option<TxType>, status: Option<TxStatus>, limit: Option<int>, offset: Option<int>)

  const NoOptions := QueryOptions(None, None, None, None)

  /** The WHERE clause: the wallet, then each filter that was supplied. */
  predicate Matches(t: TxRecord, w: string, o: QueryOptions)
  {
    && t.walletId == w
    && (o.txType.None? || t.txType == o.txType.value)
    && (o.status.None? || t.status == o.status.value)
  }

  /** The matching rows in rowid order. */
  function Filter(ts: seq<TxRecord>, w: string, o: QueryOptions): (r: seq<TxRecord>)
    ensures |r| <= |ts|
    ensures forall t :: t in r <==> t in ts && Matches(t, w, o)
  {
    if |ts| == 0 then []
    else
      assert ts == [ts[0]] + ts[1..];
      (if Matches(ts[0], w, o) then [ts[0]] else []) + Filter(ts[1..], w, o)
  }

  /** Sorting ascending by this key is `ORDER BY created_at DESC`. */
  function NewestFirst(t: TxRecord): int { -(t.createdAt as int) }

  /** The matching rows, newest first. */
  function Ordered(ts: seq<TxRecord>, w: string, o: QueryOptions): (r: seq<TxRecord>)
    ensures multiset(r) == multiset(Filter(ts, w, o))
    ensures forall t :: t in r <==> t in ts && Matches(t, w, o)
    ensures NewestToOldest(r)
  {
    var f := Filter(ts, w, o);
    var r := SortBy(f, NewestFirst);
    assert forall t :: t in r <==> t in multiset(f);
    assert forall i, j :: 0 <= i < j < |r| ==> NewestFirst(r[i]) <= NewestFirst(r[j]);
    r
  }

  /** `if (options?.limit)`: JavaScript's truthiness, so 0 is ignored. */
  predicate Given(x: Option<int>)
  {
    x.Some? && x.value != 0
  }

  /** SQLite counts a negative OFFSET as zero. */
  function Skip(o: QueryOptions): nat
  {
    if Given(o.offset) && o.offset.value > 0 then o.offset.value else 0
  }

  /** The LIMIT/OFFSET tail of the statement. SQLite accepts OFFSET only
      after a LIMIT, so an offset without a limit is a malformed statement;
      a negative LIMIT means no bound. */
  function Page(xs: seq<TxRecord>, o: QueryOptions): (r: Result<seq<TxRecord>, Error>)
    ensures r.Failure? <==> Given(o.offset) && !Given(o.limit)
    ensures r.Failure? ==> r.error == MalformedQuery
    ensures r.Success? ==>
      && (Skip(o) >= |xs| ==> r.value == [])
      && (Skip(o) < |xs| ==> |r.value| <= |xs| - Skip(o) && r.value == xs[Skip(o)..Skip(o) + |r.value|])
    ensures r.Success? && Given(o.limit) && o.limit.value > 0 ==>
      |r.value| == if Skip(o) + o.limit.value <= |xs| then o.limit.value
                   else if Skip(o) <= |xs| then |xs| - Skip(o) else 0
    ensures r.Success? && !(Given(o.limit) && o.limit.value > 0) ==>
      |r.value| == if Skip(o) <= |xs| then |xs| - Skip(o) else 0
  {
    if Given(o.offset) && !Given(o.limit) then Failure(MalformedQuery)
    else
      var rest := if Skip(o) <= |xs| then xs[Skip(o)..] else [];
      if Given(o.limit) && 0 < o.limit.value < |rest| then Success(rest[..o.limit.value]) else Success(rest)
  }

  /** Two consecutive pages of `n` records are one page of `2n` records:
      paging neither skips nor repeats a record. */
  lemma PagesTile(xs: seq<TxRecord>, n: int, k: nat)
    requires n > 0
    ensures var first := Page(xs, QueryOptions(None, None, Some(n), Some(k)));
      var second := Page(xs, QueryOptions(None, None, Some(n), Some(k + n)));
      var both := Page(xs, QueryOptions(None, None, Some(2 * n), Some(k)));
      && first.Success? && second.Success? && both.Success?
      && first.value + second.value == both.value
  {
    var first := Page(xs, QueryOptions(None, None, Some(n), Some(k)));
    var second := Page(xs, QueryOptions(None, None, Some(n), Some(k + n)));
    var both := Page(xs, QueryOptions(None, None, Some(2 * n), Some(k)));
    if k + n < |xs| {
      assert first.value == xs[k..k + n];
      if k + 2 * n <= |xs| {
        assert second.value == xs[k + n..k + 2 * n];
        assert both.value == xs[k..k + 2 * n];
      } else {
        assert second.value == xs[k + n..];
        assert both.value == xs[k..];
      }
      assert xs[k..k + n] + xs[k + n..k + n + |second.value|] == xs[k..k + n + |second.value|];
    } else {
      assert second.value == [];
      assert first.value == both.value;
    }
  }

  /** The filters of `o` without its paging numbers. */
  function Unpaged(o: QueryOptions): QueryOptions
  {
    QueryOptions(o.txType, o.status, None, None)
  }

  /** `query`: the wallet's records that pass the filters, newest first,
      then paged. */
  function Query(s: Store, w: string, o: QueryOptions): (r: Result<seq<TxRecord>, Error>)
    ensures r.Failure? <==> Given(o.offset) && !Given(o.limit)
    ensures r.Failure? ==> r.error == MalformedQuery
    ensures r.Success? ==>
      var xs := Ordered(s.txs, w, Unpaged(o));
      && (Skip(o) >= |xs| ==> r.value == [])
      && (Skip(o) < |xs| ==> |r.value| <= |xs| - Skip(o) && r.value == xs[Skip(o)..Skip(o) + |r.value|])
      && |r.value| == if Given(o.limit) && o.limit.value > 0 && Skip(o) + o.limit.value <= |xs| then o.limit.value
                      else if Skip(o) <= |xs| then |xs| - Skip(o) else 0
    ensures r.Success? ==> forall t :: t in r.value ==> t in s.txs && Matches(t, w, o)
    ensures r.Success? ==> NewestToOldest(r.value)
    ensures r.Success? && Given(o.limit) && o.limit.value > 0 ==> |r.value| <= o.limit.value
    ensures !Given(o.limit) && !Given(o.offset) ==>
      r.Success? && multiset(r.value) == multiset(Filter(s.txs, w, o))
  {
    var xs := Ordered(s.txs, w, Unpaged(o));
    FilterIgnoresPaging(s.txs, w, o, Unpaged(o));
    PageKeeps(xs, o);
    Page(xs, o)
  }

  /** The filters alone decide which rows match: the paging numbers do not. */
  lemma {:induction false} FilterIgnoresPaging(ts: seq<TxRecord>, w: string, o: QueryOptions, o': QueryOptions)
    requires o.txType == o'.txType && o.status == o'.status
    ensures Filter(ts, w, o) == Filter(ts, w, o')
    decreases |ts|
  {
    if |ts| > 0 {
      FilterIgnoresPaging(ts[1..], w, o, o');
    }
  }

  /** Two consecutive pages of `n` records from `query` are its page of `2n`
      records, whatever the filters: paging neither skips nor repeats a
      record. */
  lemma QueryPagesTile(s: Store, w: string, t: Option<TxType>, st: Option<TxStatus>, n: int, k: nat)
    requires n > 0
    ensures var first := Query(s, w, QueryOptions(t, st, Some(n), Some(k)));
      var second := Query(s, w, QueryOptions(t, st, Some(n), Some(k + n)));
      var both := Query(s, w, QueryOptions(t, st, Some(2 * n), Some(k)));
      && first.Success? && second.Success? && both.Success?
      && first.value + second.value == both.value
  {
    var xs := Ordered(s.txs, w, QueryOptions(t, st, None, None));
    PageIgnoresFilters(xs, QueryOptions(t, st, Some(n), Some(k)), QueryOptions(None, None, Some(n), Some(k)));
    PageIgnoresFilters(xs, QueryOptions(t, st, Some(n), Some(k + n)), QueryOptions(None, None, Some(n), Some(k + n)));
    PageIgnoresFilters(xs, QueryOptions(t, st, Some(2 * n), Some(k)), QueryOptions(None, None, Some(2 * n), Some(k)));
    PagesTile(xs, n, k);
  }

  /** Only the paging numbers decide the page. */
  lemma PageIgnoresFilters(xs: seq<TxRecord>, o: QueryOptions, o': QueryOptions)
    requires o.limit == o'.limit && o.offset == o'.offset
    ensures Page(xs, o) == Page(xs, o')
  {
    assert Skip(o) == Skip(o');
  }

  /** `ORDER BY created_at DESC` holds of `xs`. */
  predicate NewestToOldest(xs: seq<TxRecord>)
  {
    forall i, j :: 0 <= i < j < |xs| ==> xs[i].createdAt >= xs[j].createdAt
  }

  /** A page is a slice: it keeps the order and holds nothing new; with no
      paging it is the whole list. */
  lemma PageKeeps(xs: seq<TxRecord>, o: QueryOptions)
    requires NewestToOldest(xs)
    ensures var r := Page(xs, o);
      && (r.Success? ==> (forall t :: t in r.value ==> t in xs) && NewestToOldest(r.value))
      && (!Given(o.limit) && !Given(o.offset) ==> r == Success(xs))
  {
    var r := Page(xs, o);
    if r.Success? && Skip(o) < |xs| {
      var k := Skip(o);
      forall i, j | 0 <= i < j < |r.value|
        ensures r.value[i].createdAt >= r.value[j].createdAt
      {
        assert r.value[i] == xs[k + i] && r.value[j] == xs[k + j];
      }
    }
    if !Given(o.limit) && !Given(o.offset) {
      assert xs[0..] == xs;
    }
  }

  /** What `insert` stores comes back from an unfiltered `query`: the memo's
      sender, receiver, note and metadata are returned unchanged. */
  lemma InsertThenQuery(s: Store, p: InsertParams)
    requires Insert(s, p).Success?
    ensures var r := Query(Insert(s, p).value, p.walletId, NoOptions);
      && r.Success?
      && exists t :: t in r.value && t.id == p.id && t.status == TxStatus.Pending
           && t.sender == MemoOf(p.memo).sender && t.receiver == MemoOf(p.memo).receiver
           && t.note == MemoOf(p.memo).note && t.metadata == MemoOf(p.memo).metadata
  {
    var s' := Insert(s, p).value;
    var t := s'.txs[|s.txs|];
    assert t in s'.txs && Matches(t, p.walletId, NoOptions);
    assert t in Filter(s'.txs, p.walletId, NoOptions);
    var r := Query(s', p.walletId, NoOptions);
    assert t in multiset(r.value);
  }
}
