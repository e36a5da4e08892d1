/** The wallet table (src/storage/WalletMetaStore.ts): one row per wallet id,
    written once and afterwards only touched. */
module WalletMetaStore {
  import opened Wrappers
  import opened Schema

  /** `upsert`: `INSERT ... ON CONFLICT(wallet_id) DO UPDATE SET updated_at`.
      A new id gets a row with the given mint URL and unit, stamped now; an
      existing row keeps its mint URL, unit and creation time. */
  function Upsert(s: Store, w: string, mintUrl: string, unit: string): (r: Store)
    ensures r == s.(wallets := r.wallets)
    ensures r.wallets.Keys == s.wallets.Keys + {w}
    ensures forall k :: k in s.wallets && k != w ==> r.wallets[k] == s.wallets[k]
    ensures w !in s.wallets ==> r.wallets[w] == WalletMeta(w, mintUrl, unit, s.now, s.now)
    ensures w in s.wallets ==>
      && r.wallets[w].mintUrl == s.wallets[w].mintUrl
      && r.wallets[w].unit == s.wallets[w].unit
      && r.wallets[w].createdAt == s.wallets[w].createdAt
      && r.wallets[w].walletId == s.wallets[w].walletId
      && r.wallets[w].updatedAt == s.now
  {
    var row := if w in s.wallets then s.wallets[w].(updatedAt := s.now) else WalletMeta(w, mintUrl, unit, s.now, s.now);
    s.(wallets := s.wallets[w := row])
  }

  lemma UpsertValid(s: Store, w: string, mintUrl: string, unit: string)
    ensures Valid(s) ==> Valid(Upsert(s, w, mintUrl, unit))
  {
  }

  /** A second upsert of the same id, whatever mint URL and unit it names,
      changes nothing further at the same clock reading. */
  lemma UpsertIdempotent(s: Store, w: string, mintUrl: string, unit: string, mintUrl': string, unit': string)
    ensures var once := Upsert(s, w, mintUrl, unit);
      Upsert(once, w, mintUrl', unit') == once
  {
  }

  /** `get`: the row, or nothing for an unknown id. */
  function Get(s: Store, w: string): (r: Option<WalletMeta>)
    ensures r.None? <==> w !in s.wallets
    ensures r.Some? ==> r.value == s.wallets[w]
  {
    if w in s.wallets then Some(s.wallets[w]) else None
  }

  /** After an upsert, `get` finds the row with the mint URL and unit the
      wallet was first registered with. */
  lemma GetAfterUpsert(s: Store, w: string, mintUrl: string, unit: string)
    ensures var r := Get(Upsert(s, w, mintUrl, unit), w);
      && r.Some?
      && r.value.walletId == (if w in s.wallets then s.wallets[w].walletId else w)
      && r.value.mintUrl == (if w in s.wallets then s.wallets[w].mintUrl else mintUrl)
      && r.value.unit == (if w in s.wallets then s.wallets[w].unit else unit)
  {
  }

  /** `getCreatedAt`: the stored creation time, else `fallback`, which stands
      for the current wall-clock time the source reads. */
  function GetCreatedAt(s: Store, w: string, fallback: nat): (r: nat)
    ensures w in s.wallets ==> r == s.wallets[w].createdAt
    ensures w !in s.wallets ==> r == fallback
  {
    match Get(s, w)
    case Some(row) => row.createdAt
    case None => fallback
  }

  /** The creation time a wallet gets on its first upsert survives every
      later upsert. */
  lemma CreatedAtSurvivesUpsert(s: Store, w: string, mintUrl: string, unit: string, later: nat, mintUrl': string, unit': string, fallback: nat)
    ensures var first := Upsert(s, w, mintUrl, unit);
      GetCreatedAt(Upsert(first.(now := later), w, mintUrl', unit'), w, fallback) == GetCreatedAt(first, w, fallback)
  {
  }
}
