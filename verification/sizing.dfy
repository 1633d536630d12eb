/** `_calculate_size`: how much to quote on one side given the inventory. */
module Sizing {
  import opened Market
  import opened Params

  function Abs(x: real): (r: real)
    ensures r >= 0.0 && (r == x || r == -x)
  {
    if x < 0.0 then -x else x
  }

  function Max(a: real, b: real): (r: real)
    ensures r >= a && r >= b && (r == a || r == b)
  {
    if a >= b then a else b
  }

  function Min(a: real, b: real): (r: real)
    ensures r <= a && r <= b && (r == a || r == b)
  {
    if a <= b then a else b
  }

  /** Quoting on `side` would add to a position already at 70% of the cap. */
  predicate Blocked(cfg: Config, inv: real, side: Side) {
    || (side == Buy && inv >= cfg.maxPosition * 0.7)
    || (side == Sell && inv <= -cfg.maxPosition * 0.7)
  }

  /** A fill on `side` would bring the inventory towards zero. */
  predicate Reduces(inv: real, side: Side) {
    (side == Sell && inv > 0.0) || (side == Buy && inv < 0.0)
  }

  /** The linear size factor, floored at 0.2. */
  function Scale(cfg: Config, inv: real): (f: real)
    requires Valid(cfg)
    ensures 0.2 <= f <= 1.0
  {
    assert Abs(inv) / cfg.maxPosition >= 0.0;
    Max(0.2, 1.0 - Abs(inv) / cfg.maxPosition)
  }

  /** The scale factor with the 1.5 boost applied when `side` reduces. */
  function Factor(cfg: Config, inv: real, side: Side): (f: real)
    requires Valid(cfg)
    ensures 0.2 <= f <= 1.5
  {
    var f := Scale(cfg, inv);
    if Reduces(inv, side) then f * 1.5 else f
  }

  /** The order size `_calculate_size` returns for `side` at inventory `inv`. */
  function OrderSize(cfg: Config, inv: real, side: Side): (r: real)
    requires Valid(cfg)
    ensures Blocked(cfg, inv, side) ==> r == 0.0
    ensures !Blocked(cfg, inv, side) ==>
              cfg.baseOrderSize * 0.2 <= r <= cfg.baseOrderSize * 1.5
    ensures r >= 0.0
  {
    if side == Buy && inv >= cfg.maxPosition * 0.7 then 0.0
    else if side == Sell && inv <= -cfg.maxPosition * 0.7 then 0.0
    else
      var f := Factor(cfg, inv, side);
      BoundedProduct(cfg.baseOrderSize, f);
      Scaled(cfg.baseOrderSize, f)
  }

  /** `base * factor`, kept as one term. */
  function Scaled(b: real, f: real): real {
    b * f
  }

  lemma BoundedProduct(b: real, f: real)
    requires b >= 0.0 && 0.2 <= f <= 1.5
    ensures b * 0.2 <= Scaled(b, f) <= b * 1.5
  {}

  /** Mirror symmetry: the buy size at `inv` is the sell size at `-inv`. */
  lemma SizeMirror(cfg: Config, inv: real)
    requires Valid(cfg)
    ensures OrderSize(cfg, inv, Buy) == OrderSize(cfg, -inv, Sell)
  {
    assert Abs(inv) == Abs(-inv);
  }

  /** Where both sides may quote, the side that reduces the inventory gets
      exactly 1.5 times the other side's size, and a flat book quotes the
      base size on both sides. */
  lemma SizeBoost(cfg: Config, inv: real)
    requires Valid(cfg)
    requires !Blocked(cfg, inv, Buy) && !Blocked(cfg, inv, Sell)
    ensures inv > 0.0 ==> OrderSize(cfg, inv, Sell) == 1.5 * OrderSize(cfg, inv, Buy)
    ensures inv < 0.0 ==> OrderSize(cfg, inv, Buy) == 1.5 * OrderSize(cfg, inv, Sell)
    ensures inv == 0.0 ==>
              OrderSize(cfg, inv, Buy) == OrderSize(cfg, inv, Sell) == cfg.baseOrderSize
  {
    if inv == 0.0 {
      assert Abs(inv) / cfg.maxPosition == 0.0;
      assert Scale(cfg, inv) == 1.0;
    }
  }

  /** For a fixed side and a fixed sign of the inventory, the size never
      grows as the position grows. */
  lemma SizeMonotone(cfg: Config, side: Side, inv1: real, inv2: real)
    requires Valid(cfg)
    requires (0.0 < inv1 <= inv2) || (inv2 <= inv1 < 0.0)
    ensures OrderSize(cfg, inv2, side) <= OrderSize(cfg, inv1, side)
  {
    if !Blocked(cfg, inv2, side) {
      assert !Blocked(cfg, inv1, side);
      FactorMonotone(cfg, side, inv1, inv2);
      SizeFollowsFactor(cfg, side, inv1, inv2);
    }
  }

  lemma SizeFollowsFactor(cfg: Config, side: Side, inv1: real, inv2: real)
    requires Valid(cfg)
    requires !Blocked(cfg, inv1, side) && !Blocked(cfg, inv2, side)
    requires Factor(cfg, inv2, side) <= Factor(cfg, inv1, side)
    ensures OrderSize(cfg, inv2, side) <= OrderSize(cfg, inv1, side)
  {
    ScaleMonotone(cfg.baseOrderSize, Factor(cfg, inv2, side), Factor(cfg, inv1, side));
  }

  lemma FactorMonotone(cfg: Config, side: Side, inv1: real, inv2: real)
    requires Valid(cfg)
    requires (0.0 < inv1 <= inv2) || (inv2 <= inv1 < 0.0)
    ensures Factor(cfg, inv2, side) <= Factor(cfg, inv1, side)
  {
    assert Abs(inv1) <= Abs(inv2);
    DivMonotone(Abs(inv1), Abs(inv2), cfg.maxPosition);
    assert Scale(cfg, inv2) <= Scale(cfg, inv1);
    assert Reduces(inv1, side) == Reduces(inv2, side);
  }

  lemma DivMonotone(x: real, y: real, m: real)
    requires 0.0 <= x <= y && m > 0.0
    ensures x / m <= y / m
  {}

  lemma ScaleMonotone(b: real, x: real, y: real)
    requires b >= 0.0 && x <= y
    ensures Scaled(b, x) <= Scaled(b, y)
  {}

  /** Across zero the size is NOT monotone in |inventory|: the 1.5 boost for
      the reducing side outweighs the linear shrink near a flat position. */
  lemma SizeNotMonotoneAcrossZero()
    ensures OrderSize(PythonParams, 0.0, Sell) == 20.0
    ensures OrderSize(PythonParams, 10.0, Sell) == 27.0
  {
    assert Scale(PythonParams, 10.0) == 0.9;
  }

  /** Inventory 80 with a cap of 100: buying stops, selling is boosted. */
  lemma SizeExample(cfg: Config)
    requires Valid(cfg) && cfg.maxPosition == 100.0
    ensures OrderSize(cfg, 80.0, Buy) == 0.0
    ensures OrderSize(cfg, 80.0, Sell) == cfg.baseOrderSize * 0.3
  {
    assert Scale(cfg, 80.0) == 0.2;
  }

  /** The C++ constants: buying stops at 105 units long (70% of 150), and at
      75 units long the sell size is 25 * 0.5 * 1.5. */
  lemma CppSizeExample()
    ensures OrderSize(CppParams, 105.0, Buy) == 0.0
    ensures OrderSize(CppParams, -105.0, Sell) == 0.0
    ensures OrderSize(CppParams, 75.0, Sell) == 18.75
    ensures OrderSize(CppParams, 75.0, Buy) == 12.5
  {
    assert Scale(CppParams, 75.0) == 0.5;
  }
}
