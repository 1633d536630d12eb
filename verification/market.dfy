/** Vocabulary shared by the whole model: the two enumerations of the trading
    API, a per-instrument table, and the outbound calls the strategy makes on
    the external order-management API, recorded as values. */
module Market {

  /** The conventional Some/None datatype; `None` plays Python's `None`. */
  datatype Option<+T> = None | Some(value: T)

  datatype Side = Buy | Sell

  datatype Ticker = ETH | BTC | LTC

  /** One value per instrument: the dictionaries keyed by `Ticker` always hold
      all three keys, so a record with three fields models them totally. */
  datatype PerTicker<T> = PerTicker(eth: T, btc: T, ltc: T) {

    function Get(t: Ticker): T {
      match t
      case ETH => eth
      case BTC => btc
      case LTC => ltc
    }

    /** Dictionary assignment `d[t] = v`: only the entry for `t` changes. */
    function Set(t: Ticker, v: T): (r: PerTicker<T>)
      ensures r.Get(t) == v
      ensures forall u :: u != t ==> r.Get(u) == Get(u)
    {
      match t
      case ETH => this.(eth := v)
      case BTC => this.(btc := v)
      case LTC => this.(ltc := v)
    }
  }

  /** A call on the external API: `cancel_order(ticker, id)` or
      `place_limit_order(side, ticker, quantity, price, ioc)`.
      `place_market_order` is never called by the strategy. */
  datatype Action =
    | Cancel(ticker: Ticker, id: int)
    | PlaceLimit(side: Side, ticker: Ticker, quantity: real, price: real, ioc: bool)

  /** The limit orders placed on `side`, in the order they were sent. */
  function PlacedOn(acts: seq<Action>, side: Side): (r: seq<Action>)
    ensures |r| <= |acts|
    ensures forall a :: a in r ==> a in acts && a.PlaceLimit? && a.side == side
  {
    if acts == [] then []
    else
      var head := if acts[0].PlaceLimit? && acts[0].side == side then [acts[0]] else [];
      head + PlacedOn(acts[1..], side)
  }

  /** The order ids cancelled, in the order the cancellations were sent. */
  function Cancelled(acts: seq<Action>): (r: seq<int>)
    ensures |r| <= |acts|
  {
    if acts == [] then []
    else
      var head := if acts[0].Cancel? then [acts[0].id] else [];
      head + Cancelled(acts[1..])
  }

  lemma {:induction false} PlacedOnConcat(a: seq<Action>, b: seq<Action>, side: Side)
    ensures PlacedOn(a + b, side) == PlacedOn(a, side) + PlacedOn(b, side)
    decreases |a|
  {
    if a == [] {
      assert a + b == b;
    } else {
      assert (a + b)[0] == a[0];
      assert (a + b)[1..] == a[1..] + b;
      PlacedOnConcat(a[1..], b, side);
    }
  }

  lemma {:induction false} CancelledConcat(a: seq<Action>, b: seq<Action>)
    ensures Cancelled(a + b) == Cancelled(a) + Cancelled(b)
    decreases |a|
  {
    if a == [] {
      assert a + b == b;
    } else {
      assert (a + b)[0] == a[0];
      assert (a + b)[1..] == a[1..] + b;
      CancelledConcat(a[1..], b);
    }
  }
}
