/** Runs of the strategy over a sequence of harness callbacks, and the
    invariants that hold over every such run. */
module Trace {
  import opened Market
  import opened Params
  import opened Sizing
  import opened Strategy

  /** A harness callback. The ids on a book update are what
      `place_limit_order` returns for the bid and the ask if the update leads
      to a requote. */
  datatype Event =
    | BookUpdate(ticker: Ticker, side: Side, quantity: real, price: real, bidId: int, askId: int)
    | Fill(ticker: Ticker, side: Side, price: real, quantity: real, capitalRemaining: real)

  function Apply(cfg: Config, s: State, e: Event): Step
    requires Valid(cfg)
  {
    match e
    case BookUpdate(t, side, q, p, b, a) => OnOrderbookUpdate(cfg, s, t, side, q, p, b, a)
    case Fill(t, side, p, q, c) => OnAccountUpdate(cfg, s, t, side, p, q, c)
  }

  /** The final state and all API calls, in order, of handling `events`. */
  function Run(cfg: Config, s: State, events: seq<Event>): Step
    requires Valid(cfg)
    decreases |events|
  {
    if events == [] then Step(s, [])
    else
      var first := Apply(cfg, s, events[0]);
      var rest := Run(cfg, first.state, events[1..]);
      Step(rest.state, first.actions + rest.actions)
  }

  function CountBookUpdates(events: seq<Event>): nat {
    if events == [] then 0
    else (if events[0].BookUpdate? then 1 else 0) + CountBookUpdates(events[1..])
  }

  function CountFills(events: seq<Event>): nat {
    if events == [] then 0
    else (if events[0].Fill? then 1 else 0) + CountFills(events[1..])
  }

  /** The signed quantity filled on `t`: buys add, sells subtract. */
  function NetFilled(events: seq<Event>, t: Ticker): real {
    if events == [] then 0.0
    else
      var e := events[0];
      var here := if e.Fill? && e.ticker == t then (if e.side == Buy then e.quantity else -e.quantity)
                  else 0.0;
      here + NetFilled(events[1..], t)
  }

  /** The update counter counts order-book updates and nothing else. */
  lemma {:induction false} RunCountsUpdates(cfg: Config, s: State, events: seq<Event>)
    requires Valid(cfg)
    ensures Run(cfg, s, events).state.updateCounter == s.updateCounter + CountBookUpdates(events)
    decreases |events|
  {
    if events != [] {
      RunCountsUpdates(cfg, Apply(cfg, s, events[0]).state, events[1..]);
    }
  }

  /** Inventory moves only on fills, by exactly the signed filled quantity. */
  lemma {:induction false} RunInventory(cfg: Config, s: State, events: seq<Event>, t: Ticker)
    requires Valid(cfg)
    ensures Run(cfg, s, events).state.tickers.Get(t).inventory ==
              s.tickers.Get(t).inventory + NetFilled(events, t)
    decreases |events|
  {
    if events != [] {
      var first := Apply(cfg, s, events[0]);
      RunInventory(cfg, first.state, events[1..], t);
    }
  }

  /** The realised P&L equals the capital gained since the start. */
  ghost predicate PnlConsistent(cfg: Config, s: State) {
    s.totalPnl == s.capital - cfg.initialCapital
  }

  /** Where P&L is tracked, every run keeps `total_pnl == capital - initial`
      and counts each fill once. */
  lemma {:induction false} RunKeepsPnl(cfg: Config, s: State, events: seq<Event>)
    requires Valid(cfg) && cfg.tracksPnl
    ensures Run(cfg, s, events).state.totalPnl - Run(cfg, s, events).state.capital ==
              s.totalPnl - s.capital
    ensures Run(cfg, s, events).state.tradesCount == s.tradesCount + CountFills(events)
    decreases |events|
  {
    if events != [] {
      RunKeepsPnl(cfg, Apply(cfg, s, events[0]).state, events[1..]);
    }
  }

  /** From the initial state, `total_pnl == capital - 100000` after any run
      of the Python strategy. */
  lemma PythonPnlInvariant(events: seq<Event>)
    ensures Valid(PythonParams)
    ensures PnlConsistent(PythonParams, Run(PythonParams, Init(PythonParams), events).state)
  {
    ParamsValid();
    RunKeepsPnl(PythonParams, Init(PythonParams), events);
  }

  /** Every book update carries the id `0`, which is what the Python stub
      `place_limit_order` always returns. */
  predicate StubIds(events: seq<Event>) {
    forall i :: 0 <= i < |events| && events[i].BookUpdate? ==>
      events[i].bidId == 0 && events[i].askId == 0
  }

  /** Every recorded handle is either absent or `0`. */
  predicate HandlesZeroOrNone(s: State) {
    forall t, side :: s.tickers.Get(t).Handle(side) in {None, Some(0)}
  }

  lemma StubStepKeepsZero(cfg: Config, s: State, e: Event)
    requires Valid(cfg) && HandlesZeroOrNone(s)
    requires e.BookUpdate? ==> e.bidId == 0 && e.askId == 0
    ensures HandlesZeroOrNone(Apply(cfg, s, e).state)
  {
    match e
    case BookUpdate(t, side, q, p, b, a) =>
      var s' := RecordBest(cfg, s, t, side, q, p);
      assert HandlesZeroOrNone(s') by {
        forall u, sd ensures s'.tickers.Get(u).Handle(sd) in {None, Some(0)} {
          assert s'.tickers.Get(u).Handle(sd) == s.tickers.Get(u).Handle(sd);
        }
      }
      CallerGuardRedundant(cfg, s, t, side, q, p, b, a);
      RequoteKeepsZero(cfg, s', t);
    case Fill(t, side, p, q, c) =>
      FillKeepsZero(cfg, s, t, side, p, q, c);
  }

  lemma RequoteKeepsZero(cfg: Config, s: State, t: Ticker)
    requires Valid(cfg) && HandlesZeroOrNone(s)
    ensures HandlesZeroOrNone(Requote(cfg, s, t, 0, 0).state)
  {
    var r := Requote(cfg, s, t, 0, 0);
    if s.tickers.Get(t).Quotable() {
      RequotePlacements(cfg, s, t, 0, 0);
      assert StoredId(cfg, 0) in {None, Some(0)};
      forall u, sd ensures r.state.tickers.Get(u).Handle(sd) in {None, Some(0)} {
        if u != t {
          assert r.state.tickers.Get(u) == s.tickers.Get(u);
        }
      }
    }
  }

  lemma FillKeepsZero(cfg: Config, s: State, t: Ticker, side: Side, price: real, quantity: real,
                      capitalRemaining: real)
    requires Valid(cfg) && HandlesZeroOrNone(s)
    ensures HandlesZeroOrNone(OnAccountUpdate(cfg, s, t, side, price, quantity, capitalRemaining).state)
  {
    var r := OnAccountUpdate(cfg, s, t, side, price, quantity, capitalRemaining);
    forall u, sd ensures r.state.tickers.Get(u).Handle(sd) in {None, Some(0)} {
      if u != t {
        assert r.state.tickers.Get(u) == s.tickers.Get(u);
      } else if sd != side {
        assert sd == Other(side);
        assert s.tickers.Get(t).Handle(sd) in {None, Some(0)};
      }
    }
  }

  /** Driven by the Python stub, the strategy only ever records handle `0`... */
  lemma {:induction false} StubRunKeepsZero(cfg: Config, s: State, events: seq<Event>)
    requires Valid(cfg) && HandlesZeroOrNone(s) && StubIds(events)
    ensures HandlesZeroOrNone(Run(cfg, s, events).state)
    decreases |events|
  {
    if events != [] {
      StubStepKeepsZero(cfg, s, events[0]);
      assert StubIds(events[1..]) by {
        forall i | 0 <= i < |events[1..]| && events[1..][i].BookUpdate?
          ensures events[1..][i].bidId == 0 && events[1..][i].askId == 0
        {
          assert events[1..][i] == events[i + 1];
        }
      }
      StubRunKeepsZero(cfg, Apply(cfg, s, events[0]).state, events[1..]);
    }
  }

  /** ... so after any such run `_cancel_all`, which skips the falsy handle
      `0`, cancels nothing: the emergency unwind never pulls a resting quote. */
  lemma PythonStubDefeatsCancelAll(events: seq<Event>, t: Ticker)
    requires StubIds(events)
    ensures Valid(PythonParams)
    ensures CancelAll(PythonParams, Run(PythonParams, Init(PythonParams), events).state, t).actions == []
  {
    ParamsValid();
    var s0 := Init(PythonParams);
    StubRunKeepsZero(PythonParams, s0, events);
    var s := Run(PythonParams, s0, events).state;
    assert s.tickers.Get(t).Handle(Buy) in {None, Some(0)};
    assert s.tickers.Get(t).Handle(Sell) in {None, Some(0)};
  }
}
