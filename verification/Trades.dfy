/** Trade records and calendar conventions shared by the projection, the ledger and the history. */
module Trades {
  import opened Fixed
  import opened Wrappers

  datatype Currency = CNY | USD | HKD
  datatype Market = CN | HK | US | FUND | CRYPTO | OTHER
  datatype Side = Buy | Sell | Adjust

  /** A security: one holding row and one transaction log per key. */
  datatype Key = Key(symbol: string, market: Market)

  /** One row of the transaction log.  Dates are calendar days, createdAt any monotone clock. */
  datatype Transaction = Transaction(
    id: int, key: Key, side: Side, quantity: int, price: Option<int>,
    currency: Currency, tradedOn: int, createdAt: int)

  /** Stocks trade in whole shares; funds and crypto in any quantity. */
  predicate QuantityFitsMarket(quantity: int, market: Market) {
    market == FUND || market == CRYPTO || quantity % SCALE == 0
  }

  /** Hour number (UTC) at which a calendar day of the fixed UTC+8 zone begins. */
  function DateStart(day: int): int { 24 * day - 8 }

  /** The server's calendar day during a given UTC hour. */
  function ServerDay(hour: int): int { (hour + 8) / 24 }

  lemma DayHasBegun(day: int, hour: int)
    ensures DateStart(day) <= hour <==> day <= ServerDay(hour)
  {
  }

  /** A positive price, or none: zero and negative prices count as missing. */
  function PositivePrice(price: Option<int>): Option<int> {
    if price.Some? && price.value > 0 then price else None
  }
}
