/** Autoscaling: reading the signals ConfigMap and deciding the decode replica count in int32. */
module Autoscaler {
  import opened Ints
  import opened Options

  /** A float64, as far as the comparisons made here can tell values apart. */
  datatype Float = NaN | NegInf | Finite(r: real) | PosInf

  predicate Above(f: Float, k: real) {
    f.PosInf? || (f.Finite? && f.r > k)
  }

  predicate Below(f: Float, k: real) {
    f.NegInf? || (f.Finite? && f.r < k)
  }

  /** The order of the floats that are numbers. */
  predicate AtMost(a: Float, b: Float) {
    (a.NegInf? && !b.NaN?) || (b.PosInf? && !a.NaN?) || (a.Finite? && b.Finite? && a.r <= b.r)
  }

  /** Text to float conversion of the standard library; None is its error result. */
  type FloatParser = string -> Option<Float>

  datatype Signals = Signals(queueDepth: Float, tokensPerSecond: Float, memPressure: Float)

  function ParseFloat(text: string, strconv: FloatParser): Float {
    if text == "" then Finite(0.0) else strconv(text).GetOr(Finite(0.0))
  }

  function Get(data: map<string, string>, key: string): string {
    if key in data then data[key] else ""
  }

  function ReadSignals(data: map<string, string>, strconv: FloatParser): Signals {
    Signals(ParseFloat(Get(data, "queueDepth"), strconv),
            ParseFloat(Get(data, "tokensPerSecond"), strconv),
            ParseFloat(Get(data, "memPressure"), strconv))
  }

  /** f is the number the text under a key stands for, or zero if there is none. */
  ghost predicate StandsFor(f: Float, data: map<string, string>, key: string, strconv: FloatParser) {
    if key in data && |data[key]| > 0 && strconv(data[key]).Some? then Some(f) == strconv(data[key])
    else f == Finite(0.0)
  }

  lemma SignalsTotal(data: map<string, string>, strconv: FloatParser)
    ensures var s := ReadSignals(data, strconv);
            && StandsFor(s.queueDepth, data, "queueDepth", strconv)
            && StandsFor(s.tokensPerSecond, data, "tokensPerSecond", strconv)
            && StandsFor(s.memPressure, data, "memPressure", strconv)
  {
  }

  /** The parts of the spec the decision looks at. */
  datatype Bounds = Bounds(replicas: Option<int>, minReplicas: Option<int>, maxReplicas: Option<int>) {
    predicate Valid() {
      && (replicas.Some? ==> Is32(replicas.value))
      && (minReplicas.Some? ==> Is32(minReplicas.value))
      && (maxReplicas.Some? ==> Is32(maxReplicas.value))
    }

    function Min(): int {
      minReplicas.GetOr(0)
    }

    function Max(): int {
      if maxReplicas.GetOr(10) < 1 then 1 else maxReplicas.GetOr(10)
    }

    function Clamp(x: int): int {
      var raised := if x < Min() then Min() else x;
      if raised > Max() then Max() else raised
    }

    /** The spec's replica count within the bounds: where every decision starts from. */
    function Current(): int {
      Clamp(replicas.GetOr(1))
    }

    /** The one situation in which scaling up overflows int32 to some effect. */
    predicate Wraps() {
      Current() == MAX32 && Min() < MAX32
    }
  }

  /** One step up or down from the current count, before clamping. */
  function Proposed(current: int, min: int, depth: Float): int {
    if Above(depth, 100.0) then Wrap32(current + 1)
    else if Below(depth, 10.0) && current > min then Wrap32(current - 1)
    else current
  }

  function DecodeReplicas(b: Bounds, depth: Float): int {
    b.Clamp(Proposed(b.Current(), b.Min(), depth))
  }

  /** The first half of the decision: defaults and clamping. */
  method StartingPoint(b: Bounds) returns (current: int, min: int, max: int)
    ensures current == b.Current() && min == b.Min() && max == b.Max()
  {
    current := 1;
    if b.replicas.Some? {
      current := b.replicas.value;
    }
    min := 0;
    if b.minReplicas.Some? {
      min := b.minReplicas.value;
    }
    max := 10;
    if b.maxReplicas.Some? {
      max := b.maxReplicas.value;
    }
    if max < 1 {
      max := 1;
    }
    if current < min {
      current := min;
    }
    if current > max {
      current := max;
    }
  }

  method Propose(current: int, min: int, depth: Float) returns (desired: int)
    ensures desired == Proposed(current, min, depth)
  {
    desired := current;
    if Above(depth, 100.0) {
      desired := Wrap32(current + 1);
    } else if Below(depth, 10.0) && current > min {
      desired := Wrap32(current - 1);
    }
  }

  method Restrict(b: Bounds, x: int, min: int, max: int) returns (desired: int)
    requires min == b.Min() && max == b.Max()
    ensures desired == b.Clamp(x)
  {
    desired := x;
    if desired < min {
      desired := min;
    }
    if desired > max {
      desired := max;
    }
  }

  method ComputeDecodeReplicas(b: Bounds, depth: Float) returns (replicas: int, scaling: bool)
    requires b.Valid()
    ensures replicas == DecodeReplicas(b, depth)
    ensures scaling <==> replicas != b.Current()
  {
    var current, min, max := StartingPoint(b);
    var desired := Propose(current, min, depth);
    desired := Restrict(b, desired, min, max);
    return desired, desired != current;
  }

  /** The effective bounds, and where a decision starts: at the spec's count if that is within them. */
  lemma StartsFromSpec(b: Bounds)
    ensures b.Min() == match b.minReplicas { case Some(m) => m case None => 0 }
    ensures b.Max() == match b.maxReplicas { case Some(m) => (if m >= 1 then m else 1) case None => 10 }
    ensures var x := match b.replicas { case Some(n) => n case None => 1 };
            && (b.Min() <= x <= b.Max() ==> b.Current() == x)
            && (x < b.Min() <= b.Max() ==> b.Current() == b.Min())
            && (x > b.Max() || b.Min() > b.Max() ==> b.Current() == b.Max())
  {
  }

  /** A count within the bounds is the spec's own, which is 1 when unset. */
  ghost predicate InBounds(b: Bounds, x: int) {
    && x == (match b.replicas case Some(n) => n case None => 1)
    && b.Min() <= x <= b.Max()
  }

  /**
   The whole decision for a spec count within the bounds: more than 100 waiting adds one, up to the
   maximum, and wraps to the minimum at 2^31-1; fewer than 10 takes one away, down to the minimum;
   anything else, not a number included, leaves the count as it is.
   */
  lemma DecisionIs(b: Bounds, x: int, depth: Float)
    requires b.Valid() && InBounds(b, x)
    ensures DecodeReplicas(b, depth) == Decided(b, x, depth)
  {
    StartsFromSpec(b);
    RaisedIs(b, x);
  }

  function Decided(b: Bounds, x: int, depth: Float): int {
    match depth
    case NaN => x
    case PosInf => Raised(b, x)
    case NegInf => Lowered(b, x)
    case Finite(r) => if r > 100.0 then Raised(b, x) else if r < 10.0 then Lowered(b, x) else x
  }

  function Raised(b: Bounds, x: int): int {
    if x == 2147483647 then b.Min() else if x < b.Max() then x + 1 else x
  }

  function Lowered(b: Bounds, x: int): int {
    if x > b.Min() then x - 1 else x
  }

  lemma RaisedIs(b: Bounds, x: int)
    requires b.Valid() && b.Min() <= x <= b.Max()
    ensures b.Clamp(Wrap32(x + 1)) == Raised(b, x)
    ensures x > b.Min() ==> b.Clamp(Wrap32(x - 1)) == Lowered(b, x)
  {
    assert Wrap32(MAX32 + 1) == MIN32;
  }

  /** For every depth, NaN and infinities included, the result respects the effective bounds. */
  lemma WithinBounds(b: Bounds, depth: Float)
    requires b.Valid()
    ensures Is32(DecodeReplicas(b, depth))
    ensures DecodeReplicas(b, depth) <= b.Max()
    ensures b.Min() <= b.Max() ==> DecodeReplicas(b, depth) >= b.Min()
  {
  }

  ghost predicate Monotone(b: Bounds) {
    forall d, e :: AtMost(d, e) ==> DecodeReplicas(b, d) <= DecodeReplicas(b, e)
  }

  /** Outside the wrapping case the int32 arithmetic is exact. */
  lemma ExactUnlessWrapping(b: Bounds, depth: Float)
    requires b.Valid() && !b.Wraps()
    ensures DecodeReplicas(b, depth)
            == b.Clamp(if Above(depth, 100.0) then b.Current() + 1
                       else if Below(depth, 10.0) && b.Current() > b.Min() then b.Current() - 1
                       else b.Current())
  {
  }

  lemma MonotoneAt(b: Bounds, d: Float, e: Float)
    requires b.Valid() && !b.Wraps() && AtMost(d, e)
    ensures DecodeReplicas(b, d) <= DecodeReplicas(b, e)
  {
    ExactUnlessWrapping(b, d);
    ExactUnlessWrapping(b, e);
  }

  /** More load never means fewer replicas, except exactly when the count is stuck at 2^31-1 above min. */
  lemma MonotoneIff(b: Bounds)
    requires b.Valid()
    ensures Monotone(b) <==> !b.Wraps()
  {
    if b.Wraps() {
      assert AtMost(Finite(50.0), PosInf);
      WrapScalesToMin(b, PosInf);
      assert DecodeReplicas(b, Finite(50.0)) == MAX32;
    } else {
      forall d, e | AtMost(d, e) ensures DecodeReplicas(b, d) <= DecodeReplicas(b, e) {
        MonotoneAt(b, d, e);
      }
    }
  }

  lemma WrapScalesToMin(b: Bounds, depth: Float)
    requires b.Valid() && b.Wraps() && Above(depth, 100.0)
    ensures DecodeReplicas(b, depth) == b.Min()
  {
    assert Wrap32(MAX32 + 1) == MIN32;
  }

  /** The wrapping case is within the bounds a spec may set: a busy cluster of 2^31-1 drops to none. */
  lemma WrapsAtTheTop()
    ensures var b := Bounds(Some(MAX32), None, Some(MAX32));
            b.Valid() && b.Wraps() && DecodeReplicas(b, Finite(101.0)) == 0 && DecodeReplicas(b, Finite(50.0)) == MAX32
  {
    WrapScalesToMin(Bounds(Some(MAX32), None, Some(MAX32)), Finite(101.0));
  }

  ghost predicate OneStep(b: Bounds) {
    forall d :: -1 <= DecodeReplicas(b, d) - b.Current() <= 1
  }

  /** A decision stays within one of the clamped spec count, except exactly when wrapping falls further. */
  lemma OneStepIff(b: Bounds)
    requires b.Valid()
    ensures OneStep(b) <==> !(b.Wraps() && b.Min() < MAX32 - 1)
  {
    if b.Wraps() && b.Min() < MAX32 - 1 {
      WrapScalesToMin(b, PosInf);
    } else {
      forall d ensures -1 <= DecodeReplicas(b, d) - b.Current() <= 1 {
        if b.Wraps() && Above(d, 100.0) {
          WrapScalesToMin(b, d);
        }
      }
    }
  }
}
