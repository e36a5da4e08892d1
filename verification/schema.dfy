/** The three tables of the wallet database (src/storage/schema.ts) and the
    constraints they carry, stated as invariants of the model state.

    Rows are kept in insertion order, which is SQLite's rowid order: the
    proof and transaction tables never delete rows, so a row's position never
    changes. Timestamps are readings of an abstract clock `Store.now`; the
    ledger operations never advance it, so two rows may carry the same
    timestamp, as with the one-second resolution of `datetime('now')`. */
module Schema {
  import opened Wrappers
  import opened Sequences

  /** The `metadata` column: JSON text, opaque to the ledger. */
  type Json = string

  /** CHECK (state IN ('unspent', 'pending', 'spent')). */
  datatype ProofState = Unspent | Pending | Spent

  /** CHECK (type IN ('receive', 'send', 'mint', 'melt')). */
  datatype TxType = Receive | Send | Mint | Melt

  /** CHECK (status IN ('pending', 'completed', 'failed')). */
  datatype TxStatus = Pending | Completed | Failed

  /** A row of `proofs`. Nothing constrains `amount` to be positive. */
  datatype Proof = Proof(
    id: string,
    walletId: string,
    amount: int,
    secret: string,
    c: string,
    keysetId: string,
    state: ProofState,
    createdByTx: Option<string>,
    spentByTx: Option<string>,
    createdAt: nat)

  /** A row of `transactions`. */
  datatype TxRecord = TxRecord(
    id: string,
    walletId: string,
    txType: TxType,
    status: TxStatus,
    amount: int,
    fee: int,
    token: Option<string>,
    invoice: Option<string>,
    quoteId: Option<string>,
    sender: Option<string>,
    receiver: Option<string>,
    note: Option<string>,
    metadata: Option<Json>,
    createdAt: nat,
    updatedAt: nat)

  /** A row of `wallets`. */
  datatype WalletMeta = WalletMeta(
    walletId: string,
    mintUrl: string,
    unit: string,
    createdAt: nat,
    updatedAt: nat)

  /** The whole database. */
  datatype Store = Store(
    wallets: map<string, WalletMeta>,
    proofs: seq<Proof>,
    txs: seq<TxRecord>,
    now: nat)

  /** A freshly migrated database. */
  function EmptyStore(now: nat): (s: Store)
    ensures Valid(s)
  {
    Store(map[], [], [], now)
  }

  function ProofId(p: Proof): string { p.id }

  function Amount(p: Proof): int { p.amount }

  /** The `id` column of a list of proofs, in order (`proofs.map(p => p.id)`). */
  function ProofIds(ps: seq<Proof>): (r: seq<string>)
    ensures |r| == |ps|
    ensures forall i :: 0 <= i < |ps| ==> r[i] == ps[i].id
  {
    seq(|ps|, i requires 0 <= i < |ps| => ps[i].id)
  }

  function TxIds(ts: seq<TxRecord>): (r: seq<string>)
    ensures |r| == |ts|
    ensures forall i :: 0 <= i < |ts| ==> r[i] == ts[i].id
  {
    seq(|ts|, i requires 0 <= i < |ts| => ts[i].id)
  }

  function SumAmounts(ps: seq<Proof>): int
  {
    SumBy(ps, Amount)
  }

  /** The balance of wallet `w`: the sum of the amounts of its unspent proofs. */
  function Balance(ps: seq<Proof>, w: string): int
  {
    if |ps| == 0 then 0
    else (if ps[0].walletId == w && ps[0].state == Unspent then ps[0].amount else 0) + Balance(ps[1..], w)
  }

  /** The part of wallet `w`'s balance held by proofs whose id is in `ids`. */
  function ListedBalance(ps: seq<Proof>, w: string, ids: seq<string>): int
  {
    if |ps| == 0 then 0
    else (if ps[0].walletId == w && ps[0].state == Unspent && ps[0].id in ids then ps[0].amount else 0)
         + ListedBalance(ps[1..], w, ids)
  }

  lemma {:induction false} BalanceAppend(a: seq<Proof>, b: seq<Proof>, w: string)
    ensures Balance(a + b, w) == Balance(a, w) + Balance(b, w)
  {
    if |a| == 0 {
      assert a + b == b;
    } else {
      assert (a + b)[1..] == a[1..] + b;
      BalanceAppend(a[1..], b, w);
    }
  }

  // ---------------------------------------------------------------------
  // Table constraints

  /** `proofs.id` is the primary key. */
  predicate UniqueProofIds(ps: seq<Proof>)
  {
    forall i, j :: 0 <= i < j < |ps| ==> ps[i].id != ps[j].id
  }

  /** `transactions.id` is the primary key. */
  predicate UniqueTxIds(ts: seq<TxRecord>)
  {
    forall i, j :: 0 <= i < j < |ts| ==> ts[i].id != ts[j].id
  }

  /** `wallets.wallet_id` is the primary key: each row sits under its own id. */
  predicate WalletsKeyed(wallets: map<string, WalletMeta>)
  {
    forall k :: k in wallets ==> wallets[k].walletId == k
  }

  /** FOREIGN KEY (wallet_id) REFERENCES wallets(wallet_id), enforced because
      the database is opened with `foreign_keys = ON`. */
  predicate ForeignKeysHold(s: Store)
  {
    && (forall i :: 0 <= i < |s.proofs| ==> s.proofs[i].walletId in s.wallets)
    && (forall i :: 0 <= i < |s.txs| ==> s.txs[i].walletId in s.wallets)
  }

  /** Not a table constraint but a consequence of how the three proof updates
      are written: an unspent proof carries no reservation and a pending one
      carries the transaction that reserved it. */
  predicate ReservationsConsistent(ps: seq<Proof>)
  {
    forall i :: 0 <= i < |ps| ==>
      && (ps[i].state == Unspent ==> ps[i].spentByTx.None?)
      && (ps[i].state == ProofState.Pending ==> ps[i].spentByTx.Some?)
  }

  /** The invariant every reachable database satisfies. */
  predicate Valid(s: Store)
  {
    && UniqueProofIds(s.proofs)
    && UniqueTxIds(s.txs)
    && WalletsKeyed(s.wallets)
    && ForeignKeysHold(s)
    && ReservationsConsistent(s.proofs)
  }

  /** With unique ids, two proofs of the table that share an id are the same row. */
  lemma SameIdSameProof(ps: seq<Proof>, i: int, j: int)
    requires UniqueProofIds(ps)
    requires 0 <= i < |ps| && 0 <= j < |ps|
    requires ps[i].id == ps[j].id
    ensures i == j
  {
  }

  // ---------------------------------------------------------------------
  // Shapes of a state change, used to state what an operation leaves behind

  /** No proof is pending after the change unless it already was before;
      rows are only ever appended. */
  predicate NoNewPending(s: Store, s': Store)
  {
    && |s.proofs| <= |s'.proofs|
    && forall i :: 0 <= i < |s'.proofs| && s'.proofs[i].state == ProofState.Pending ==>
         i < |s.proofs| && s.proofs[i].state == ProofState.Pending
  }

  /** The change left the transaction log as it was except for one appended
      record, with the given id, type and status. */
  predicate OneRecordAdded(s: Store, s': Store, id: string, t: TxType, status: TxStatus)
  {
    && |s'.txs| == |s.txs| + 1
    && s'.txs[..|s.txs|] == s.txs
    && s'.txs[|s.txs|].id == id
    && s'.txs[|s.txs|].txType == t
    && s'.txs[|s.txs|].status == status
  }
}
