/** What the token engine (src/cashu/CashuEngine.ts) hands back to the
    wallet. The engine itself is not modelled: each call it makes becomes an
    outcome parameter of the wallet operation, either `Success(data)` or
    `Failure(e)` with `e` an `EngineError`. */
module Engine {
  import opened Wrappers

  /** A Cashu proof as the engine returns it: `{id, amount, secret, C}`,
      where `id` is the keyset id. */
  datatype EngineProof = EngineProof(keysetId: string, amount: int, secret: string, c: string)

  /** `proofs.reduce((sum, p) => sum + p.amount, 0)`. */
  function EngineSum(ps: seq<EngineProof>): int
  {
    if |ps| == 0 then 0 else ps[0].amount + EngineSum(ps[1..])
  }

  /** The state a mint or melt quote reports. */
  datatype QuoteState = Unpaid | Pending | Paid | Issued

  /** `engine.send` followed by `engine.encodeToken`: the proofs kept back,
      the proofs sent, and the token string that encodes the sent ones. */
  datatype SendData = SendData(keep: seq<EngineProof>, send: seq<EngineProof>, token: string)

  /** `engine.createMintQuote`. */
  datatype MintQuote = MintQuote(quote: string, request: string, amount: int, expiry: int)

  /** `engine.checkMintQuote`. */
  datatype MintQuoteStatus = MintQuoteStatus(state: QuoteState, amount: int)

  /** `engine.createMeltQuote`. */
  datatype MeltQuote = MeltQuote(quote: string, amount: int, feeReserve: int)

  /** `engine.meltProofs`: the quote's final state, its preimage and the change. */
  datatype MeltData = MeltData(state: QuoteState, preimage: Option<string>, change: seq<EngineProof>)

}
