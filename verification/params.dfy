/** The strategy's tunable parameters and the encodings each implementation
    uses for "no price" and "no order". One configuration value describes the
    Python strategy (python_version.py, and its copy Maybe_Final.py), another
    the C++ strategy (final_hft_algo.hpp). */
module Params {
  import opened Market

  datatype Config = Config(
    baseOrderSize: real,
    spreadImprovement: real,
    maxPosition: real,
    inventorySkew: real,
    tickSize: real,
    quoteFrequency: nat,
    initialCapital: real,
    /** What a cleared best price holds: `None` in Python, `0.0` in C++. */
    clearedPrice: Option<real>,
    /** The handle value that means "no resting order": C++ stores `-1`;
        Python has no such integer (it uses `None`). */
    handleSentinel: Option<int>,
    /** Python's `_cancel_all` tests handles for truthiness, so a handle equal
        to `0` is skipped; C++ compares against `-1` only. */
    zeroHandleFalsy: bool,
    /** Python's order-book handler tests both best prices before requoting;
        C++ leaves that test to the requote itself. */
    callerChecksBook: bool,
    /** Python keeps `total_pnl` and `trades_count`; C++ has neither. */
    tracksPnl: bool)

  /** Python truthiness of a price (`None` and `0.0` are false), which is
      also C++'s `price == 0` sentinel test. */
  predicate Known(p: Option<real>) {
    p.Some? && p.value != 0.0
  }

  /** The facts about the fixed constants that the model relies on: a
      positive cap (the divisor in `_calculate_size`), a positive quote
      frequency (the modulus in `on_orderbook_update`), a positive tick and
      a non-negative base size (no operation needs them, but every proof of
      bid < ask and of a non-negative size does), and a cleared price that
      reads as unknown. */
  predicate Valid(cfg: Config) {
    && cfg.maxPosition > 0.0
    && cfg.quoteFrequency > 0
    && cfg.tickSize > 0.0
    && cfg.baseOrderSize >= 0.0
    && !Known(cfg.clearedPrice)
  }

  const PythonParams := Config(
    baseOrderSize := 20.0,
    spreadImprovement := 0.01,
    maxPosition := 100.0,
    inventorySkew := 0.1,
    tickSize := 0.01,
    quoteFrequency := 1,
    initialCapital := 100000.0,
    clearedPrice := None,
    handleSentinel := None,
    zeroHandleFalsy := true,
    callerChecksBook := true,
    tracksPnl := true)

  const CppParams := Config(
    baseOrderSize := 25.0,
    spreadImprovement := 0.01,
    maxPosition := 150.0,
    inventorySkew := 0.01,
    tickSize := 0.01,
    quoteFrequency := 250,
    initialCapital := 100000.0,
    clearedPrice := Some(0.0),
    handleSentinel := Some(-1),
    zeroHandleFalsy := false,
    callerChecksBook := false,
    tracksPnl := false)

  /** The handle recorded after `place_limit_order` returns `id`. Storing the
      C++ sentinel `-1` leaves the slot reading as empty. */
  function StoredId(cfg: Config, id: int): (h: Option<int>)
    ensures h.Some? ==> h.value == id
    ensures h.None? <==> cfg.handleSentinel == Some(id)
  {
    if cfg.handleSentinel == Some(id) then None else Some(id)
  }

  /** The raw `int64` slot the C++ strategy keeps for a handle, `-1` meaning
      no resting order. */
  function CppSlot(h: Option<int>): int {
    if h.None? then -1 else h.value
  }

  /** How the C++ strategy reads a raw slot: anything but `-1` is an order. */
  function SlotHandle(v: int): Option<int> {
    if v == -1 then None else Some(v)
  }

  /** Storing a returned id: the C++ slot holds the id itself, its `!= -1`
      test agrees with the modelled handle, and reading the slot back gives
      the modelled handle. Python records every id as a present handle. */
  lemma StoredIdIsSlot(id: int)
    ensures CppSlot(StoredId(CppParams, id)) == id
    ensures CppSlot(StoredId(CppParams, id)) != -1 <==> StoredId(CppParams, id).Some?
    ensures StoredId(CppParams, id) == SlotHandle(id)
    ensures StoredId(PythonParams, id) == Some(id)
  {}

  /** Every handle the C++ model can hold is the reading of its raw slot, and
      the C++ `_cancel_all` test `slot != -1` is exactly `CancelAllTakes`. */
  lemma SlotRoundTrip(h: Option<int>)
    requires h != Some(-1)
    ensures SlotHandle(CppSlot(h)) == h
    ensures CancelAllTakes(CppParams, h) <==> CppSlot(h) != -1
  {}

  /** Whether `_cancel_all` cancels (and clears) the recorded handle `h`. */
  predicate CancelAllTakes(cfg: Config, h: Option<int>) {
    h.Some? && !(cfg.zeroHandleFalsy && h.value == 0)
  }

  lemma ParamsValid()
    ensures Valid(PythonParams) && Valid(CppParams)
  {}
}
