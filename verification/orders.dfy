/** Vocabulary shared by the two strategies: optional values, order sides and order kinds. */
module Orders {

  /** A value that may be missing; `None` stands for the JavaScript `undefined`
      that makes the next property access throw. */
  datatype Option<+T> = None | Some(value: T)

  /** The two sides of an order, as the venues spell them: 'buy' and 'sell'. */
  datatype Side = Buy | Sell

  /** 'limit' orders rest on the book; 'market' orders take liquidity. */
  datatype OrderKind = Limit | Market

  /** One price level of an order book: `[price, size]`. */
  datatype Level = Level(price: real, size: real)

  function Abs(x: real): (r: real)
    ensures r >= 0.0
    ensures r == x || r == -x
  {
    if x < 0.0 then -x else x
  }
}
