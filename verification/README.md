# Market-making `Strategy`, modelled in Dafny

This project models the market-making `Strategy` of hft-trading-bot-northwestern,
a high-frequency trading bot. The strategy
reacts to order-book updates and fills for three instruments (ETH, BTC and
LTC). For each instrument it keeps the best bid and best ask, a signed
inventory, and the handles of one resting bid and one resting ask. It also
keeps the capital, the realised P&L, a fill counter and an update counter
shared across instruments. Its outbound traffic is calls to the trading API
`cancel_order(ticker, id)` and `place_limit_order(side, ticker, qty, price, ioc)`.

The strategy exists in three copies:

- `python_version.py`;
- `Maybe_Final.py`, whose lines 1-264 are the same as `python_version.py`;
- `final_hft_algo.hpp`, a C++ version with other constants and other
  "missing" encodings.

One model covers all three. A `Config` value (module `Params`) holds the
constants and the encodings:

| | Python | C++ |
|---|---|---|
| base size / max position / skew / quote frequency | 20 / 100 / 0.1 / 1 | 25 / 150 / 0.01 / 250 |
| tick (a local constant of `_aggressive_quote`, not a class field) | 0.01 | 0.01 |
| cleared best price | `None` | `0.0` |
| "no order" handle | `None` | `-1` |
| `_cancel_all` skips handle `0` | yes (truthiness) | no |
| order-book handler re-checks both prices | yes | no |
| keeps `total_pnl` / `trades_count` | yes | no |

Both implementations treat a price as unknown when it is missing or `0.0`.
In Python that is truthiness; in C++ it is the `== 0` test. The predicate
`Known` captures both. A C++ handle `v` is modelled as `None` when `v == -1`
and as `Some(v)` otherwise, so storing a returned `-1` empties the slot
(`StoredId`). Prices and quantities are `real`.

Each handler is a pure function from a `State` to a `Step`: the next state
plus the API calls made, in order. The ids that `place_limit_order` returns
are handler parameters. The Python stub always returns `0`, and the lemmas in
module `Trace` follow what that does.

Modules:

- `Market`: enumerations, the per-instrument table, and `Action`.
- `Params`: configuration and sentinel encodings.
- `Sizing`: `_calculate_size`.
- `Quoting`: the quote prices of `_aggressive_quote`.
- `Strategy`: the state and every handler.
- `Trace`: runs over event sequences, and the invariants of those runs.

Three properties of the code worth knowing:

- The 1.5 boost for the side that reduces the inventory makes the size
  non-monotone in |inventory| across zero. With the Python constants,
  selling at inventory 0 gives 20, but selling at inventory 10 gives 27
  (`SizeNotMonotoneAcrossZero`). For each sign of the inventory separately
  the size never grows with |inventory| (`SizeMonotone`).
- The C++ version keeps no P&L and no fill counter (the `tracksPnl` flag).
- The C++ version requotes only on every 250th order-book update; the
  Python version requotes on every one.

## Model

| member | source | states |
|---|---|---|
| Params.StoredIdIsSlot | final_hft_algo.hpp:146-157 | After C++ stores a returned id, the raw slot holds that id, its `!= -1` test agrees with the modelled handle being present, and reading the slot back gives the modelled handle. Python records every returned id as a present handle. |
| Params.SlotRoundTrip | final_hft_algo.hpp:204-214 | Every C++ handle other than the sentinel reads back from its raw slot unchanged, and the C++ `_cancel_all` test `slot != -1` accepts exactly the handles the model cancels. |
| Params.ParamsValid | python_version.py:84-90 | The Python constants, and the C++ ones at final_hft_algo.hpp:40-46, give a positive cap and quote frequency and a non-negative base size; with the local tick 0.01 (python_version.py:180, final_hft_algo.hpp:124) the tick is positive. A cleared price is unknown in both. |
| Sizing.Scale | python_version.py:224 | The linear size factor `max(0.2, 1 - abs(inv)/max)` is between 0.2 and 1. |
| Sizing.Factor | python_version.py:223-230 | With the ×1.5 boost, the factor is between 0.2 and 1.5. |
| Sizing.OrderSize | python_version.py:211-232 | The size is 0 when buying at inv ≥ 0.7·max or selling at inv ≤ −0.7·max. Otherwise it lies between 0.2·base and 1.5·base. It is never negative. |
| Sizing.SizeMirror | python_version.py:217-226 | The buy size at inventory `inv` equals the sell size at `-inv`. |
| Sizing.SizeBoost | python_version.py:228-232 | When neither side is blocked, the side that reduces the position gets exactly 1.5 times the other side's size. A flat position quotes the base size on both sides. |
| Sizing.SizeMonotone | Maybe_Final.py:217-232 | For a fixed side and a fixed strict sign of the inventory, the size never grows as |inventory| grows. |
| Sizing.SizeNotMonotoneAcrossZero | python_version.py:224-230 | Across zero the size is not monotone: selling gives 20 at inventory 0 and 27 at inventory 10. |
| Sizing.SizeExample | Maybe_Final.py:217-232 | With inventory 80 and cap 100, the buy size is 0 and the sell size is base·0.3. |
| Sizing.CppSizeExample | final_hft_algo.hpp:162-180 | With the C++ constants, buying stops at +105 and selling at −105. At +75 the sell size is 18.75 and the buy size is 12.5. |
| Quoting.QuotePrices | python_version.py:176-188 | Our bid is always below our ask. When the book is wider than two ticks, the quote spread is the book spread minus two ticks, centred on the book's centre shifted down by the skew. Otherwise the quotes are the midpoint ± one tick. |
| Quoting.FlatQuotesInsideSpread | python_version.py:178-182 | With a flat inventory and a book wider than two ticks, both quotes lie strictly inside the best prices. |
| Quoting.FallbackQuotesOutsideSpread | final_hft_algo.hpp:128-134 | The midpoint fallback never improves on the best bid or the best ask. |
| Quoting.SkewMonotone | python_version.py:176 | With non-negative coefficients, the inventory adjustment grows with the inventory. |
| Quoting.SkewLowersQuotes | python_version.py:175-188 | A longer inventory never raises either quote. |
| Quoting.QuoteExample | Maybe_Final.py:176-188 | Best prices 100.00/100.04 with a flat inventory give quotes 100.01/100.03. |
| Strategy.Init | python_version.py:62-95 | The initial state is flat, with no known price and no recorded order. The capital is the initial capital, and P&L and both counters are zero. |
| Strategy.CancelAll | python_version.py:257-264 | Only the handles of the given instrument change. Each handle the implementation's test accepts is cancelled and cleared, and the rest stay. No recorded order is dropped uncancelled, and only recorded orders are cancelled. |
| Strategy.CancelAllIdempotent | Maybe_Final.py:257-264 | A second `_cancel_all` right after the first sends nothing and changes nothing. |
| Strategy.CancelAllLeftovers | final_hft_algo.hpp:204-214 | After `_cancel_all` a handle survives only in Python, and only when it is `0`. |
| Strategy.ZeroHandleTreatment | python_version.py:259-263 | A handle `0` stays recorded and uncancelled under the Python constants. Under the C++ constants it is cancelled and cleared. |
| Strategy.UnwindSize | python_version.py:246-253 | The emergency size is positive and at most half the position. A full fill leaves max(position/2, cap/2). Beyond the cap the size is exactly half the position. |
| Strategy.UnwindOrder | python_version.py:239-255 | At most one IOC order is placed. It is placed exactly when both prices are known and |inv| > 0.7·max. It sells when long and buys when short, for `UnwindSize(|inv|)`, at best_bid·0.998 when selling and best_ask·1.002 when buying. |
| Strategy.EmergencyUnwind | python_version.py:234-255 | The state after the unwind is the state after `_cancel_all`, and the inventory does not change. The calls are exactly `_cancel_all`'s cancellations, followed by the order `UnwindOrder` gives for the position and book before the call, which is IOC. |
| Strategy.UnwindNeverFlips | final_hft_algo.hpp:183-200 | Any order the unwind places is at most |inv| − 0.5·max and at most |inv|/2, and exactly |inv|/2 beyond the cap. It sells exactly when long. |
| Strategy.UnwindExample | Maybe_Final.py:246-249 | A position of 105 with cap 100 sends IOC SELL 52.5 at best_bid·0.998. |
| Strategy.UnwindPlacesOne | python_version.py:243-255 | For a position beyond the cap, the unwind places exactly one order when both prices are known and none otherwise. |
| Strategy.Requote | python_version.py:162-209 | The requote does nothing unless both prices are known and bid < ask. It changes only that instrument's handles. Every call it makes concerns that instrument, and every placement is a non-IOC order of positive size. No handle is overwritten uncancelled, and only recorded orders are cancelled. |
| Strategy.RequoteCalls | python_version.py:190-209 | The exact call sequence of a requote: bid side, then ask side; on each side with a positive size, the recorded order (if any) is cancelled immediately before the new order at that side's quote is placed. |
| Strategy.ReplacePlaces | python_version.py:195-201 | On one side, a positive size sends the cancellation of the recorded order, if there is one, followed by exactly one new order. A zero size sends nothing. |
| Strategy.RequotePlacements | python_version.py:190-209 | Each side with a positive size places exactly one resting order of that size at that side's quote and records the returned id. A side with size 0 places nothing and keeps its handle. |
| Strategy.RequoteCancels | final_hft_algo.hpp:140-158 | The ids cancelled are, bid first, the recorded handles of the sides that get a new order. |
| Strategy.RequoteNeverCrosses | final_hft_algo.hpp:121-158 | Every bid a requote places is priced below every ask it places. |
| Strategy.RecordBest | python_version.py:106-119 | Quantity 0 clears the updated side's price to the cleared encoding; otherwise the price is recorded. The other side, inventory, handles and other instruments are untouched, and the counter increases by one. |
| Strategy.OnOrderbookUpdate | python_version.py:101-124 | The counter increases by exactly one and only the updated side's price changes. Calls happen only when the new count is a multiple of the quote frequency and the book is quotable. Off-frequency updates keep the handles. |
| Strategy.CallerGuardRedundant | final_hft_algo.hpp:71-75 | The Python handler's extra test of both prices makes no difference: both handlers are "requote iff the counter hits the frequency". |
| Strategy.RecordFill | python_version.py:136-156 | Inventory moves by +q (buy) or −q (sell). Capital becomes the reported value, and the P&L moves by the capital change. Only the filled side's handle is cleared. |
| Strategy.OnAccountUpdate | python_version.py:126-160 | The fill bookkeeping above, plus: at |inv| ≤ max there are no calls and the other handle stays. Above the cap the calls are the cancellation of the other side's resting order (when `_cancel_all`'s test accepts it), then the unwind's IOC order for the new position; the other handle is cleared exactly when it is cancelled. One IOC order is placed iff |inv| > max and both prices are known. |
| Strategy.UnwindAfterFill | python_version.py:234-264 | Once a fill has cleared its own side's handle, the unwind cancels at most the other side's order and then sends its IOC order. |
| Trace.RunCountsUpdates | python_version.py:119 | Over any run, the update counter grows by exactly the number of order-book updates. |
| Trace.RunInventory | python_version.py:143-146 | Over any run, each instrument's inventory moves by exactly its net signed filled quantity. |
| Trace.RunKeepsPnl | python_version.py:137-142 | Where P&L is tracked, `total_pnl − capital` is invariant over any run, and the trade counter counts the fills. |
| Trace.PythonPnlInvariant | python_version.py:69 | From the initial state, `total_pnl == capital − 100000` after any run of the Python strategy. |
| Trace.StubRunKeepsZero | python_version.py:44 | If every id returned is `0` (the Python stub), every recorded handle stays `None` or `0`. |
| Trace.PythonStubDefeatsCancelAll | python_version.py:257-264 | After any Python run driven by the stub's ids, `_cancel_all` cancels nothing. |

## Left out

- `on_trade_update` is an empty handler in both languages, so it is not modelled.
- The console output (`print`, `println`) is a side effect with no effect on state.
- `place_market_order` is never called. `place_limit_order` and `cancel_order` appear only as `Action` records. Their return values are inputs: the ids returned to a requote are parameters, and the success flags are ignored by the source.
- The id returned for the emergency IOC order is discarded by the source, so the model discards it too.
- Floating point is not modelled: prices, sizes and capital are `real`. Rounding in Python floats and in C++ `float`/`double` mixing is out of scope. Identities such as "ask − bid = 2·tick" hold over reals and need not hold bit-exactly.
- Integer widths are not modelled: the C++ `int64` ids and the `long` update counter are unbounded integers here.
- The configuration must be `Valid`, and both implementations' constants satisfy it (`ParamsValid`). A positive cap guards the division `abs(inv) / max_position` in `_calculate_size` (python_version.py:224, final_hft_algo.hpp:172). A positive quote frequency guards the modulus `update_counter % quote_frequency` (python_version.py:120, final_hft_algo.hpp:73). A positive tick and a non-negative base size guard no operation: they are assumptions that the fixed constants (tick 0.01, base 20 or 25) satisfy, and the proofs of bid < ask and of a non-negative size rely on them.
- The matching engine, the market feed and any profitability claim belong to the external harness, so they are not modelled.
