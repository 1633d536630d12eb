/** The `Strategy` state machine: per-instrument book, inventory and resting
    order handles, global capital and counters, and the handlers the trading
    harness calls. Every handler is a pure function from the current state to
    the next state and the calls it makes on the order-management API. The
    ids `place_limit_order` returns are parameters of the handlers that may
    place resting orders. */
module Strategy {
  import opened Market
  import opened Params
  import opened Sizing
  import opened Quoting

  function Other(side: Side): Side {
    if side == Buy then Sell else Buy
  }

  /** What the strategy keeps for one instrument. */
  datatype TickerState = TickerState(
    bestBid: Option<real>,
    bestAsk: Option<real>,
    inventory: real,
    bidId: Option<int>,
    askId: Option<int>)
  {
    /** The resting order handle recorded for `side`. */
    function Handle(side: Side): Option<int> {
      if side == Buy then bidId else askId
    }

    function WithHandle(side: Side, h: Option<int>): (r: TickerState)
      ensures r.Handle(side) == h && r.Handle(Other(side)) == Handle(Other(side))
      ensures r.bestBid == bestBid && r.bestAsk == bestAsk && r.inventory == inventory
    {
      if side == Buy then this.(bidId := h) else this.(askId := h)
    }

    /** Both best prices are known and the book is not crossed or locked. */
    predicate Quotable() {
      Known(bestBid) && Known(bestAsk) && bestBid.value < bestAsk.value
    }
  }

  datatype State = State(
    tickers: PerTicker<TickerState>,
    capital: real,
    totalPnl: real,
    tradesCount: nat,
    updateCounter: nat)

  /** The outcome of one handler: the next state and the API calls, in order. */
  datatype Step = Step(state: State, actions: seq<Action>)

  /** The state right after construction: flat, no prices, no orders. */
  function Init(cfg: Config): (s: State)
    requires Valid(cfg)
    ensures forall t :: s.tickers.Get(t).inventory == 0.0
    ensures forall t :: !Known(s.tickers.Get(t).bestBid) && !Known(s.tickers.Get(t).bestAsk)
    ensures forall t, side :: s.tickers.Get(t).Handle(side).None?
    ensures s.capital == cfg.initialCapital && s.totalPnl == 0.0
    ensures s.tradesCount == 0 && s.updateCounter == 0
  {
    var empty := TickerState(cfg.clearedPrice, cfg.clearedPrice, 0.0, None, None);
    State(PerTicker(empty, empty, empty), cfg.initialCapital, 0.0, 0, 0)
  }

  /** `s'` differs from `s` at most in the order handles of instrument `t`. */
  predicate OnlyHandlesOf(s: State, s': State, t: Ticker) {
    && s'.capital == s.capital
    && s'.totalPnl == s.totalPnl
    && s'.tradesCount == s.tradesCount
    && s'.updateCounter == s.updateCounter
    && (forall u :: u != t ==> s'.tickers.Get(u) == s.tickers.Get(u))
    && s'.tickers.Get(t).bestBid == s.tickers.Get(t).bestBid
    && s'.tickers.Get(t).bestAsk == s.tickers.Get(t).bestAsk
    && s'.tickers.Get(t).inventory == s.tickers.Get(t).inventory
  }

  /** No recorded order is forgotten or overwritten without being cancelled. */
  predicate NoOrphans(before: TickerState, after: TickerState, t: Ticker, acts: seq<Action>) {
    forall side ::
      before.Handle(side).Some? && after.Handle(side) != before.Handle(side) ==>
        Cancel(t, before.Handle(side).value) in acts
  }

  /** Every cancellation names an order recorded for `t` before the step. */
  predicate CancelsOnlyRecorded(before: TickerState, t: Ticker, acts: seq<Action>) {
    forall a :: a in acts && a.Cancel? ==>
      a.ticker == t && (Some(a.id) == before.bidId || Some(a.id) == before.askId)
  }

  // ---------------------------------------------------------------------------
  // _cancel_all
  // ---------------------------------------------------------------------------

  /** One side of `_cancel_all`: cancel and clear the handle if the source's
      test accepts it, otherwise leave it alone. */
  function Retire(cfg: Config, t: Ticker, h: Option<int>): (r: (Option<int>, seq<Action>))
  {
    if CancelAllTakes(cfg, h) then (None, [Cancel(t, h.value)]) else (h, [])
  }

  function CancelAll(cfg: Config, s: State, t: Ticker): (r: Step)
    ensures OnlyHandlesOf(s, r.state, t)
    ensures forall side :: r.state.tickers.Get(t).Handle(side) ==
              (if CancelAllTakes(cfg, s.tickers.Get(t).Handle(side)) then None
               else s.tickers.Get(t).Handle(side))
    ensures forall a :: a in r.actions ==> a.Cancel?
    ensures NoOrphans(s.tickers.Get(t), r.state.tickers.Get(t), t, r.actions)
    ensures CancelsOnlyRecorded(s.tickers.Get(t), t, r.actions)
    ensures |r.actions| ==
              (if CancelAllTakes(cfg, s.tickers.Get(t).bidId) then 1 else 0) +
              (if CancelAllTakes(cfg, s.tickers.Get(t).askId) then 1 else 0)
  {
    var ts := s.tickers.Get(t);
    var (bidH, bidActs) := Retire(cfg, t, ts.bidId);
    var (askH, askActs) := Retire(cfg, t, ts.askId);
    Step(s.(tickers := s.tickers.Set(t, ts.(bidId := bidH, askId := askH))), bidActs + askActs)
  }

  /** Running `_cancel_all` twice in a row does nothing the second time. */
  lemma CancelAllIdempotent(cfg: Config, s: State, t: Ticker)
    ensures CancelAll(cfg, CancelAll(cfg, s, t).state, t).actions == []
    ensures CancelAll(cfg, CancelAll(cfg, s, t).state, t).state == CancelAll(cfg, s, t).state
  {}

  /** Where a handle of `0` is not falsy (C++), `_cancel_all` leaves no
      recorded order behind; in Python the only survivor is a handle `0`. */
  lemma CancelAllLeftovers(cfg: Config, s: State, t: Ticker, side: Side)
    ensures var h := CancelAll(cfg, s, t).state.tickers.Get(t).Handle(side);
            h.Some? ==> cfg.zeroHandleFalsy && h == Some(0) && s.tickers.Get(t).Handle(side) == Some(0)
  {}

  /** A recorded handle `0` is skipped by Python's `_cancel_all` (it is
      falsy) but cancelled by the C++ one, which only skips `-1`. */
  lemma ZeroHandleTreatment(s: State, t: Ticker, side: Side)
    requires s.tickers.Get(t).Handle(side) == Some(0)
    ensures var py := CancelAll(PythonParams, s, t);
            && py.state.tickers.Get(t).Handle(side) == Some(0)
            && Cancel(t, 0) !in py.actions
    ensures var cpp := CancelAll(CppParams, s, t);
            cpp.state.tickers.Get(t).Handle(side).None? && Cancel(t, 0) in cpp.actions
  {}

  // ---------------------------------------------------------------------------
  // _emergency_unwind
  // ---------------------------------------------------------------------------

  /** The size of the emergency order for a position of magnitude `a`:
      `min(a * 0.5, a - max_position * 0.5)`. */
  function UnwindSize(cfg: Config, a: real): (r: real)
    requires Valid(cfg) && a > cfg.maxPosition * 0.7
    ensures 0.0 < r <= a * 0.5
    ensures a - r == Max(a * 0.5, cfg.maxPosition * 0.5)
    ensures a > cfg.maxPosition ==> r == a * 0.5
  {
    Min(a * 0.5, a - cfg.maxPosition * 0.5)
  }

  /** The immediate-or-cancel order the unwind sends, if any. */
  function UnwindOrder(cfg: Config, t: Ticker, ts: TickerState): (r: seq<Action>)
    requires Valid(cfg)
    ensures |r| <= 1
    ensures forall a :: a in r ==> a.PlaceLimit? && a.ioc && a.ticker == t && a.quantity > 0.0
    ensures |r| == 1 <==>
              Known(ts.bestBid) && Known(ts.bestAsk) &&
              Abs(ts.inventory) > cfg.maxPosition * 0.7
    ensures |r| == 1 ==> r[0].side == (if ts.inventory > 0.0 then Sell else Buy)
    ensures |r| == 1 ==>
              && r[0].quantity == UnwindSize(cfg, Abs(ts.inventory))
              && r[0].price == (if ts.inventory > 0.0 then ts.bestBid.value * 0.998
                                else ts.bestAsk.value * 1.002)
  {
    if !Known(ts.bestBid) || !Known(ts.bestAsk) then []
    else if ts.inventory > cfg.maxPosition * 0.7 then
      [PlaceLimit(Sell, t, UnwindSize(cfg, ts.inventory), ts.bestBid.value * 0.998, true)]
    else if ts.inventory < -cfg.maxPosition * 0.7 then
      [PlaceLimit(Buy, t, UnwindSize(cfg, Abs(ts.inventory)), ts.bestAsk.value * 1.002, true)]
    else []
  }

  function EmergencyUnwind(cfg: Config, s: State, t: Ticker): (r: Step)
    requires Valid(cfg)
    ensures r.state == CancelAll(cfg, s, t).state
    ensures |CancelAll(cfg, s, t).actions| <= |r.actions| <= |CancelAll(cfg, s, t).actions| + 1
    ensures r.actions[..|CancelAll(cfg, s, t).actions|] == CancelAll(cfg, s, t).actions
    ensures r.actions[|CancelAll(cfg, s, t).actions|..] == UnwindOrder(cfg, t, s.tickers.Get(t))
    ensures forall a :: a in r.actions && a.PlaceLimit? ==> a.ioc && a.ticker == t
  {
    var c := CancelAll(cfg, s, t);
    var extra := UnwindOrder(cfg, t, c.state.tickers.Get(t));
    UnwindOrderIgnoresHandles(cfg, t, c.state.tickers.Get(t), s.tickers.Get(t));
    assert (c.actions + extra)[..|c.actions|] == c.actions;
    assert (c.actions + extra)[|c.actions|..] == extra;
    Step(c.state, c.actions + extra)
  }

  /** The unwind order depends on the book and the position, not on the
      recorded handles, so clearing them first changes nothing. */
  lemma UnwindOrderIgnoresHandles(cfg: Config, t: Ticker, a: TickerState, b: TickerState)
    requires Valid(cfg)
    requires a.inventory == b.inventory && a.bestBid == b.bestBid && a.bestAsk == b.bestAsk
    ensures UnwindOrder(cfg, t, a) == UnwindOrder(cfg, t, b)
  {}

  /** The emergency order reduces the position without reversing it: if it
      fills completely the position keeps its sign and is at least half the
      cap; beyond the cap it is exactly half the position. */
  lemma UnwindNeverFlips(cfg: Config, s: State, t: Ticker)
    requires Valid(cfg)
    ensures var ts := s.tickers.Get(t);
            var r := EmergencyUnwind(cfg, s, t);
            forall a :: a in r.actions && a.PlaceLimit? ==>
              && a.quantity <= Abs(ts.inventory) - cfg.maxPosition * 0.5
              && a.quantity <= Abs(ts.inventory) * 0.5
              && (Abs(ts.inventory) > cfg.maxPosition ==> a.quantity == Abs(ts.inventory) * 0.5)
              && (a.side == Sell <==> ts.inventory > 0.0)
  {
    var ts := s.tickers.Get(t);
    var c := CancelAll(cfg, s, t);
    var ts' := c.state.tickers.Get(t);
    assert ts'.inventory == ts.inventory && ts'.bestBid == ts.bestBid && ts'.bestAsk == ts.bestAsk;
    var extra := UnwindOrder(cfg, t, ts');
    forall a | a in c.actions + extra && a.PlaceLimit?
      ensures a in extra
    {}
  }

  /** The worked example: 105 units long, cap 100, sell 52.5 at 0.998 of the bid. */
  lemma UnwindExample(cfg: Config, s: State, t: Ticker)
    requires Valid(cfg) && cfg.maxPosition == 100.0
    requires s.tickers.Get(t).inventory == 105.0
    requires Known(s.tickers.Get(t).bestBid) && Known(s.tickers.Get(t).bestAsk)
    ensures var r := EmergencyUnwind(cfg, s, t);
            r.actions[|r.actions| - 1] ==
              PlaceLimit(Sell, t, 52.5, s.tickers.Get(t).bestBid.value * 0.998, true)
  {
    var c := CancelAll(cfg, s, t);
    assert c.state.tickers.Get(t).inventory == 105.0;
  }

  // ---------------------------------------------------------------------------
  // _aggressive_quote
  // ---------------------------------------------------------------------------

  /** One side of the requote: with a positive size, cancel the recorded
      order (whenever there is one), place a resting limit order and record
      the id it got; with size zero, do nothing. */
  function Replace(cfg: Config, t: Ticker, side: Side, h: Option<int>, size: real, price: real, newId: int)
    : (r: (Option<int>, seq<Action>))
  {
    if size > 0.0 then
      var cancel := if h.Some? then [Cancel(t, h.value)] else [];
      (StoredId(cfg, newId), cancel + [PlaceLimit(side, t, size, price, false)])
    else (h, [])
  }

  /** The cancellation a requote sends on one side before replacing its
      order: only when a new order goes out and one is recorded. */
  function Withdraw(t: Ticker, h: Option<int>, size: real): seq<Action> {
    if size > 0.0 && h.Some? then [Cancel(t, h.value)] else []
  }

  /** The resting order placed on `side` by a requote, if its size is positive. */
  function Intended(cfg: Config, t: Ticker, ts: TickerState, side: Side): (r: seq<Action>)
    requires Valid(cfg) && ts.Quotable()
  {
    var q := QuotePrices(cfg, ts.bestBid.value, ts.bestAsk.value, ts.inventory);
    var size := OrderSize(cfg, ts.inventory, side);
    if size > 0.0 then [PlaceLimit(side, t, size, if side == Buy then q.bid else q.ask, false)] else []
  }

  function Requote(cfg: Config, s: State, t: Ticker, bidId: int, askId: int): (r: Step)
    requires Valid(cfg)
    ensures !s.tickers.Get(t).Quotable() ==> r == Step(s, [])
    ensures OnlyHandlesOf(s, r.state, t)
    ensures forall a :: a in r.actions ==> a.ticker == t
    ensures forall a :: a in r.actions && a.PlaceLimit? ==> !a.ioc && a.quantity > 0.0
    ensures NoOrphans(s.tickers.Get(t), r.state.tickers.Get(t), t, r.actions)
    ensures CancelsOnlyRecorded(s.tickers.Get(t), t, r.actions)
  {
    var ts := s.tickers.Get(t);
    if !Known(ts.bestBid) || !Known(ts.bestAsk) then Step(s, [])
    else if ts.bestAsk.value <= ts.bestBid.value then Step(s, [])
    else
      var q := QuotePrices(cfg, ts.bestBid.value, ts.bestAsk.value, ts.inventory);
      var (bidH, bidActs) := Replace(cfg, t, Buy, ts.bidId, OrderSize(cfg, ts.inventory, Buy), q.bid, bidId);
      var (askH, askActs) := Replace(cfg, t, Sell, ts.askId, OrderSize(cfg, ts.inventory, Sell), q.ask, askId);
      Step(s.(tickers := s.tickers.Set(t, ts.(bidId := bidH, askId := askH))), bidActs + askActs)
  }

  /** For each side with a positive size a requote places exactly one
      resting order, of that size at that side's quote price, and records
      the id it got; a side with size zero places nothing and keeps its
      handle. */
  lemma RequotePlacements(cfg: Config, s: State, t: Ticker, bidId: int, askId: int)
    requires Valid(cfg) && s.tickers.Get(t).Quotable()
    ensures var ts := s.tickers.Get(t);
            var r := Requote(cfg, s, t, bidId, askId);
            && PlacedOn(r.actions, Buy) == Intended(cfg, t, ts, Buy)
            && PlacedOn(r.actions, Sell) == Intended(cfg, t, ts, Sell)
            && r.state.tickers.Get(t).bidId ==
                 (if OrderSize(cfg, ts.inventory, Buy) > 0.0 then StoredId(cfg, bidId) else ts.bidId)
            && r.state.tickers.Get(t).askId ==
                 (if OrderSize(cfg, ts.inventory, Sell) > 0.0 then StoredId(cfg, askId) else ts.askId)
  {
    var ts := s.tickers.Get(t);
    var q := QuotePrices(cfg, ts.bestBid.value, ts.bestAsk.value, ts.inventory);
    var bidSize := OrderSize(cfg, ts.inventory, Buy);
    var askSize := OrderSize(cfg, ts.inventory, Sell);
    var (_, bidActs) := Replace(cfg, t, Buy, ts.bidId, bidSize, q.bid, bidId);
    var (_, askActs) := Replace(cfg, t, Sell, ts.askId, askSize, q.ask, askId);
    ReplacePlaces(cfg, t, Buy, ts.bidId, bidSize, q.bid, bidId);
    ReplacePlaces(cfg, t, Sell, ts.askId, askSize, q.ask, askId);
    PlacedOnConcat(bidActs, askActs, Buy);
    PlacedOnConcat(bidActs, askActs, Sell);
  }

  /** The exact calls of a requote: on each side, bid first, the recorded
      order is cancelled immediately before its replacement is placed. */
  lemma RequoteCalls(cfg: Config, s: State, t: Ticker, bidId: int, askId: int)
    requires Valid(cfg) && s.tickers.Get(t).Quotable()
    ensures var ts := s.tickers.Get(t);
            Requote(cfg, s, t, bidId, askId).actions ==
              Withdraw(t, ts.bidId, OrderSize(cfg, ts.inventory, Buy)) + Intended(cfg, t, ts, Buy) +
              Withdraw(t, ts.askId, OrderSize(cfg, ts.inventory, Sell)) + Intended(cfg, t, ts, Sell)
  {}

  /** A requote never places a bid at or above the ask it places. */
  lemma RequoteNeverCrosses(cfg: Config, s: State, t: Ticker, bidId: int, askId: int)
    requires Valid(cfg)
    ensures var r := Requote(cfg, s, t, bidId, askId);
            forall b, a :: b in PlacedOn(r.actions, Buy) && a in PlacedOn(r.actions, Sell) ==>
              b.price < a.price
  {
    if s.tickers.Get(t).Quotable() {
      RequotePlacements(cfg, s, t, bidId, askId);
    }
  }

  /** What one side of the requote places and cancels. */
  lemma ReplacePlaces(cfg: Config, t: Ticker, side: Side, h: Option<int>, size: real, price: real, newId: int)
    ensures var (_, acts) := Replace(cfg, t, side, h, size, price, newId);
            && PlacedOn(acts, side) ==
                 (if size > 0.0 then [PlaceLimit(side, t, size, price, false)] else [])
            && PlacedOn(acts, Other(side)) == []
            && Cancelled(acts) == (if size > 0.0 && h.Some? then [h.value] else [])
            && acts == Withdraw(t, h, size) + (if size > 0.0 then [PlaceLimit(side, t, size, price, false)] else [])
  {
    var (_, acts) := Replace(cfg, t, side, h, size, price, newId);
    if size > 0.0 {
      var cancel := if h.Some? then [Cancel(t, h.value)] else [];
      var place := [PlaceLimit(side, t, size, price, false)];
      assert acts == cancel + place;
      PlacedOnConcat(cancel, place, side);
      PlacedOnConcat(cancel, place, Other(side));
      CancelledConcat(cancel, place);
      assert PlacedOn(place, side) == place by {
        assert place[1..] == [];
      }
      assert PlacedOn(place, Other(side)) == [] by {
        assert place[1..] == [];
      }
      assert Cancelled(place) == [] by {
        assert place[1..] == [];
      }
      if h.Some? {
        assert cancel[1..] == [];
      }
    }
  }

  /** Each order cancelled by a requote is the one recorded on a side that
      gets a new order; bid side first, as in the source. */
  lemma RequoteCancels(cfg: Config, s: State, t: Ticker, bidId: int, askId: int)
    requires Valid(cfg) && s.tickers.Get(t).Quotable()
    ensures var ts := s.tickers.Get(t);
            Cancelled(Requote(cfg, s, t, bidId, askId).actions) ==
              (if OrderSize(cfg, ts.inventory, Buy) > 0.0 && ts.bidId.Some? then [ts.bidId.value] else []) +
              (if OrderSize(cfg, ts.inventory, Sell) > 0.0 && ts.askId.Some? then [ts.askId.value] else [])
  {
    var ts := s.tickers.Get(t);
    var q := QuotePrices(cfg, ts.bestBid.value, ts.bestAsk.value, ts.inventory);
    var bidSize := OrderSize(cfg, ts.inventory, Buy);
    var askSize := OrderSize(cfg, ts.inventory, Sell);
    var (_, bidActs) := Replace(cfg, t, Buy, ts.bidId, bidSize, q.bid, bidId);
    var (_, askActs) := Replace(cfg, t, Sell, ts.askId, askSize, q.ask, askId);
    ReplacePlaces(cfg, t, Buy, ts.bidId, bidSize, q.bid, bidId);
    ReplacePlaces(cfg, t, Sell, ts.askId, askSize, q.ask, askId);
    CancelledConcat(bidActs, askActs);
  }

  // ---------------------------------------------------------------------------
  // on_orderbook_update
  // ---------------------------------------------------------------------------

  /** The bookkeeping half of the order-book handler: record or clear the
      best price of one side and count the update. */
  function RecordBest(cfg: Config, s: State, t: Ticker, side: Side, quantity: real, price: real)
    : (s': State)
    ensures s'.updateCounter == s.updateCounter + 1
    ensures s'.capital == s.capital && s'.totalPnl == s.totalPnl && s'.tradesCount == s.tradesCount
    ensures forall u :: u != t ==> s'.tickers.Get(u) == s.tickers.Get(u)
    ensures var ts, ts' := s.tickers.Get(t), s'.tickers.Get(t);
            && ts'.inventory == ts.inventory
            && ts'.bidId == ts.bidId && ts'.askId == ts.askId
            && (side == Buy ==> ts'.bestAsk == ts.bestAsk)
            && (side == Sell ==> ts'.bestBid == ts.bestBid)
            && var p := if side == Buy then ts'.bestBid else ts'.bestAsk;
               (quantity == 0.0 ==> p == cfg.clearedPrice) && (quantity != 0.0 ==> p == Some(price))
  {
    var ts := s.tickers.Get(t);
    var p := if quantity == 0.0 then cfg.clearedPrice else Some(price);
    var ts' := if side == Buy then ts.(bestBid := p) else ts.(bestAsk := p);
    s.(tickers := s.tickers.Set(t, ts'), updateCounter := s.updateCounter + 1)
  }

  function OnOrderbookUpdate(cfg: Config, s: State, t: Ticker, side: Side, quantity: real, price: real,
                             bidId: int, askId: int): (r: Step)
    requires Valid(cfg)
    ensures r.state.updateCounter == s.updateCounter + 1
    ensures r.state.capital == s.capital && r.state.totalPnl == s.totalPnl
    ensures r.state.tradesCount == s.tradesCount
    ensures forall u :: r.state.tickers.Get(u).inventory == s.tickers.Get(u).inventory
    ensures forall u :: u != t ==> r.state.tickers.Get(u) == s.tickers.Get(u)
    ensures var ts, ts' := s.tickers.Get(t), r.state.tickers.Get(t);
            && (side == Buy ==> ts'.bestAsk == ts.bestAsk)
            && (side == Sell ==> ts'.bestBid == ts.bestBid)
            && var p := if side == Buy then ts'.bestBid else ts'.bestAsk;
               (quantity == 0.0 ==> !Known(p)) && (quantity != 0.0 ==> p == Some(price))
    ensures r.actions != [] ==>
              (s.updateCounter + 1) % cfg.quoteFrequency == 0 && r.state.tickers.Get(t).Quotable()
    ensures (s.updateCounter + 1) % cfg.quoteFrequency != 0 ==>
              r.state.tickers.Get(t).bidId == s.tickers.Get(t).bidId &&
              r.state.tickers.Get(t).askId == s.tickers.Get(t).askId
  {
    var s' := RecordBest(cfg, s, t, side, quantity, price);
    if s'.updateCounter % cfg.quoteFrequency != 0 then Step(s', [])
    else if cfg.callerChecksBook &&
            !(Known(s'.tickers.Get(t).bestBid) && Known(s'.tickers.Get(t).bestAsk)) then Step(s', [])
    else Requote(cfg, s', t, bidId, askId)
  }

  /** The Python handler's own test of both best prices changes nothing: the
      requote makes the same test first, which is why the C++ handler can
      leave it out. */
  lemma CallerGuardRedundant(cfg: Config, s: State, t: Ticker, side: Side, quantity: real, price: real,
                             bidId: int, askId: int)
    requires Valid(cfg)
    ensures var s' := RecordBest(cfg, s, t, side, quantity, price);
            OnOrderbookUpdate(cfg, s, t, side, quantity, price, bidId, askId) ==
              (if s'.updateCounter % cfg.quoteFrequency == 0 then Requote(cfg, s', t, bidId, askId)
               else Step(s', []))
  {}

  // ---------------------------------------------------------------------------
  // on_account_update
  // ---------------------------------------------------------------------------

  /** The bookkeeping half of the fill handler. */
  function RecordFill(cfg: Config, s: State, t: Ticker, side: Side, quantity: real, capitalRemaining: real)
    : (s': State)
    ensures s'.capital == capitalRemaining
    ensures s'.totalPnl - s'.capital == (if cfg.tracksPnl then s.totalPnl - s.capital else s.totalPnl - capitalRemaining)
    ensures s'.tradesCount == (if cfg.tracksPnl then s.tradesCount + 1 else s.tradesCount)
    ensures s'.updateCounter == s.updateCounter
    ensures forall u :: u != t ==> s'.tickers.Get(u) == s.tickers.Get(u)
    ensures var ts, ts' := s.tickers.Get(t), s'.tickers.Get(t);
            && ts'.inventory == ts.inventory + (if side == Buy then quantity else -quantity)
            && ts'.bestBid == ts.bestBid && ts'.bestAsk == ts.bestAsk
            && ts'.Handle(side).None? && ts'.Handle(Other(side)) == ts.Handle(Other(side))
  {
    var ts := s.tickers.Get(t);
    var inv := if side == Buy then ts.inventory + quantity else ts.inventory - quantity;
    var ts' := ts.(inventory := inv).WithHandle(side, None);
    s.(tickers := s.tickers.Set(t, ts'),
       capital := capitalRemaining,
       totalPnl := if cfg.tracksPnl then s.totalPnl + (capitalRemaining - s.capital) else s.totalPnl,
       tradesCount := if cfg.tracksPnl then s.tradesCount + 1 else s.tradesCount)
  }

  function OnAccountUpdate(cfg: Config, s: State, t: Ticker, side: Side, price: real, quantity: real,
                           capitalRemaining: real): (r: Step)
    requires Valid(cfg)
    ensures var ts, ts' := s.tickers.Get(t), r.state.tickers.Get(t);
            && ts'.inventory == ts.inventory + (if side == Buy then quantity else -quantity)
            && ts'.bestBid == ts.bestBid && ts'.bestAsk == ts.bestAsk
            && ts'.Handle(side).None?
            && (Abs(ts'.inventory) <= cfg.maxPosition ==>
                  r.actions == [] && ts'.Handle(Other(side)) == ts.Handle(Other(side)))
            && (Abs(ts'.inventory) > cfg.maxPosition ==>
                  ts'.Handle(Other(side)) ==
                    (if CancelAllTakes(cfg, ts.Handle(Other(side))) then None else ts.Handle(Other(side))))
            && (|PlacedOn(r.actions, Buy)| + |PlacedOn(r.actions, Sell)| == 1 <==>
                  Abs(ts'.inventory) > cfg.maxPosition && Known(ts.bestBid) && Known(ts.bestAsk))
    ensures r.state.capital == capitalRemaining
    ensures cfg.tracksPnl ==> r.state.totalPnl - r.state.capital == s.totalPnl - s.capital
    ensures r.state.tradesCount == (if cfg.tracksPnl then s.tradesCount + 1 else s.tradesCount)
    ensures !cfg.tracksPnl ==> r.state.totalPnl == s.totalPnl
    ensures r.state.updateCounter == s.updateCounter
    ensures forall u :: u != t ==> r.state.tickers.Get(u) == s.tickers.Get(u)
    ensures forall a :: a in r.actions && a.PlaceLimit? ==> a.ioc
    ensures var ts, ts' := s.tickers.Get(t), r.state.tickers.Get(t);
            var other := ts.Handle(Other(side));
            Abs(ts'.inventory) > cfg.maxPosition ==>
              r.actions ==
                (if CancelAllTakes(cfg, other) then [Cancel(t, other.value)] else []) +
                UnwindOrder(cfg, t, ts')
  {
    var s' := RecordFill(cfg, s, t, side, quantity, capitalRemaining);
    var ts' := s'.tickers.Get(t);
    if Abs(ts'.inventory) > cfg.maxPosition then
      var r := EmergencyUnwind(cfg, s', t);
      UnwindPlacesOne(cfg, s', t);
      UnwindAfterFill(cfg, s', t, side);
      r
    else Step(s', [])
  }

  /** The unwind issued for a position beyond the cap places exactly one
      order when both best prices are known and none otherwise. */
  lemma UnwindPlacesOne(cfg: Config, s: State, t: Ticker)
    requires Valid(cfg) && Abs(s.tickers.Get(t).inventory) > cfg.maxPosition
    ensures var ts := s.tickers.Get(t);
            var r := EmergencyUnwind(cfg, s, t);
            |PlacedOn(r.actions, Buy)| + |PlacedOn(r.actions, Sell)| ==
              (if Known(ts.bestBid) && Known(ts.bestAsk) then 1 else 0)
  {
    var c := CancelAll(cfg, s, t);
    var extra := UnwindOrder(cfg, t, c.state.tickers.Get(t));
    PlacedOnConcat(c.actions, extra, Buy);
    PlacedOnConcat(c.actions, extra, Sell);
    NoPlacements(c.actions, Buy);
    NoPlacements(c.actions, Sell);
    if |extra| == 1 {
      assert extra == [extra[0]];
      assert extra[1..] == [];
    }
  }

  /** After a fill has cleared the handle of `side`, the unwind cancels at
      most the other side's order and then sends its IOC order. */
  lemma UnwindAfterFill(cfg: Config, s: State, t: Ticker, side: Side)
    requires Valid(cfg) && s.tickers.Get(t).Handle(side).None?
    ensures var other := s.tickers.Get(t).Handle(Other(side));
            var r := EmergencyUnwind(cfg, s, t);
            r.actions ==
              (if CancelAllTakes(cfg, other) then [Cancel(t, other.value)] else []) +
              UnwindOrder(cfg, t, r.state.tickers.Get(t))
  {}

  lemma {:induction false} NoPlacements(acts: seq<Action>, side: Side)
    requires forall a :: a in acts ==> a.Cancel?
    ensures PlacedOn(acts, side) == []
    decreases |acts|
  {
    if acts != [] {
      assert acts[0] in acts;
      forall a | a in acts[1..] ensures a.Cancel? {
        assert a in acts;
      }
      NoPlacements(acts[1..], side);
    }
  }
}
