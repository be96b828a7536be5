/**
 * The streaming linear resampler. The source keeps the read position as an f64 and samples as f32;
 * here both are exact reals, so rounding is out of the picture and what remains is the algorithm.
 */
module Resampling {
  import opened Arith

  datatype Sample = Sample(left: real, right: real)

  const SILENCE := Sample(0.0, 0.0)

  /** What is carried from one block to the next. */
  datatype State = State(position: real, previous: Sample, primed: bool)

  const FRESH := State(0.0, SILENCE, false)

  function Interpolate(a: Sample, b: Sample, fraction: real): Sample {
    Sample(a.left + (b.left - a.left) * fraction, a.right + (b.right - a.right) * fraction)
  }

  /** Each channel is the two samples weighted by how near they are. */
  lemma InterpolatesLinearly(a: Sample, b: Sample, fraction: real)
    ensures var s := Interpolate(a, b, fraction);
      s.left == (1.0 - fraction) * a.left + fraction * b.left && s.right == (1.0 - fraction) * a.right + fraction * b.right
  {
  }

  /** Input samples consumed per output sample. */
  function Step(source: nat, target: nat): (step: real)
    requires source > 0 && target > 0
    ensures step > 0.0
  {
    source as real / target as real
  }

  /** The carried sample followed by the block. */
  function Working(s: State, input: seq<Sample>): seq<Sample> {
    (if s.primed then [s.previous] else []) + input
  }

  /** Indexing the working sequence without building it. */
  function At(hasCarry: bool, carried: Sample, input: seq<Sample>, index: nat): (s: Sample)
    requires index < |input| + if hasCarry then 1 else 0
    ensures s == Working(State(0.0, carried, hasCarry), input)[index]
  {
    if hasCarry then if index == 0 then carried else input[index - 1] else input[index]
  }

  // ---------------------------------------------------------------------------
  // The loop, as a function
  // ---------------------------------------------------------------------------

  /** How many more samples a working sequence of `len` yields from `position`. */
  function Left(len: nat, position: real, step: real): nat
    requires step > 0.0
  {
    var ahead := len as real - 1.0 - position;
    if ahead <= 0.0 then 0 else var q := ahead / step; if q < 0.0 then 0 else q.Floor + 1
  }

  lemma Quotient(x: real, y: real, q: real)
    requires y > 0.0
    ensures x / y == q <==> q * y == x
    ensures x > 0.0 ==> x / y > 0.0
  {
    var r := x / y;
    assert r * y == x;
    if q < r {
      assert (r - q) * y > 0.0;
    } else if q > r {
      assert (q - r) * y > 0.0;
    }
    if r <= 0.0 {
      assert (0.0 - r) * y >= 0.0;
    }
  }

  lemma LeftShrinks(len: nat, position: real, step: real)
    requires step > 0.0 && position.Floor + 1 < len
    ensures Left(len, position + step, step) < Left(len, position, step)
  {
    var ahead := len as real - 1.0 - position;
    assert ahead > 0.0;
    var q := ahead / step;
    Quotient(ahead, step, q);
    Quotient(ahead - step, step, q - 1.0);
  }

  /** The samples the loop appends from `position`, and where it stops. */
  function Emit(work: seq<Sample>, position: real, step: real): (r: (seq<Sample>, real))
    requires position >= 0.0 && step > 0.0
    ensures r.1 >= position && r.1.Floor + 1 >= |work|
    decreases Left(|work|, position, step)
  {
    if position.Floor + 1 < |work| then
      LeftShrinks(|work|, position, step);
      var i := position.Floor;
      var rest := Emit(work, position + step, step);
      ([Interpolate(work[i], work[i + 1], position - i as real)] + rest.0, rest.1)
    else ([], position)
  }

  lemma EmitOne(work: seq<Sample>, position: real, step: real) returns (rest: (seq<Sample>, real))
    requires position >= 0.0 && step > 0.0 && position.Floor + 1 < |work|
    ensures rest == Emit(work, position + step, step)
    ensures var i := position.Floor;
      Emit(work, position, step) == ([Interpolate(work[i], work[i + 1], position - i as real)] + rest.0, rest.1)
  {
    rest := Emit(work, position + step, step);
  }

  lemma OneMore(done: seq<Sample>, next: Sample, rest: seq<Sample>)
    ensures done + ([next] + rest) == done + [next] + rest
  {
  }

  /** A call on `work` from `position`, given what it carries as its last sample. */
  function ProduceFrom(work: seq<Sample>, position: real, last: Sample, step: real): (r: (seq<Sample>, State))
    requires position >= 0.0 && step > 0.0 && work != []
    ensures r.1.position >= 0.0
  {
    var (out, end) := Emit(work, position, step);
    (out, State(end - (|work| - 1) as real, last, true))
  }

  /** One call: what it appends and what it carries on. */
  function Produce(s: State, input: seq<Sample>, step: real): (r: (seq<Sample>, State))
    requires s.position >= 0.0 && step > 0.0
    ensures r.1.position >= 0.0
  {
    if input == [] then ([], s)
    else
      ProduceFrom(Working(s, input), s.position, input[|input| - 1], step)
  }

  // ---------------------------------------------------------------------------
  // The resampler
  // ---------------------------------------------------------------------------

  class Resampler {
    var sourceRate: nat
    var targetRate: nat
    var position: real
    var previous: Sample
    var primed: bool

    ghost predicate Valid()
      reads this
    {
      sourceRate > 0 && targetRate > 0 && position >= 0.0
    }

    function View(): State
      reads this
    {
      State(position, previous, primed)
    }

    function StepNow(): (step: real)
      requires Valid()
      reads this
      ensures step > 0.0
    {
      Step(sourceRate, targetRate)
    }

    constructor (source: nat, target: nat)
      ensures Valid() && View() == FRESH
      ensures sourceRate == (if source == 0 then 1 else source) && targetRate == (if target == 0 then 1 else target)
    {
      sourceRate := if source == 0 then 1 else source;
      targetRate := if target == 0 then 1 else target;
      position := 0.0;
      previous := SILENCE;
      primed := false;
    }

    method SetTargetRate(target: nat)
      requires Valid()
      modifies this`targetRate
      ensures Valid() && targetRate == if target == 0 then 1 else target
    {
      targetRate := if target == 0 then 1 else target;
    }

    method Reset()
      requires Valid()
      modifies this`position, this`previous, this`primed
      ensures Valid() && View() == FRESH
    {
      position := 0.0;
      previous := SILENCE;
      primed := false;
    }

    /** Appends the block's samples to `out`; the loop ends one short of the last, which has no successor yet. */
    method Process(input: seq<Sample>, out: seq<Sample>) returns (result: seq<Sample>)
      requires Valid()
      modifies this`position, this`previous, this`primed
      ensures Valid()
      ensures var (produced, carried) := Produce(old(View()), input, StepNow());
        result == out + produced && View() == carried
    {
      result := out;
      if input == [] {
        return;
      }
      var carried, hasCarry := previous, primed;
      var len := |input| + (if hasCarry then 1 else 0);
      var step := StepNow();
      ghost var work := Working(State(0.0, carried, hasCarry), input);
      ghost var all := Emit(work, position, step);
      ghost var rest := all;
      while position.Floor + 1 < len
        invariant position >= 0.0 && rest == Emit(work, position, step)
        invariant out + all.0 == result + rest.0 && all.1 == rest.1
        decreases |rest.0|
      {
        var index := position.Floor;
        var fraction := position - index as real;
        var a := At(hasCarry, carried, input, index);
        var b := At(hasCarry, carried, input, index + 1);
        rest := EmitOne(work, position, step);
        OneMore(result, Interpolate(a, b, fraction), rest.0);
        result := result + [Interpolate(a, b, fraction)];
        position := position + step;
      }
      position := position - (len - 1) as real;
      previous := input[|input| - 1];
      primed := true;
    }
  }

  // ---------------------------------------------------------------------------
  // Blocks join seamlessly
  // ---------------------------------------------------------------------------

  /** Reading from further on is reading the tail. */
  lemma {:induction false} EmitTail(work: seq<Sample>, d: nat, position: real, step: real)
    requires position >= d as real && step > 0.0 && d < |work|
    ensures var tail, whole := Emit(work[d..], position - d as real, step), Emit(work, position, step);
      whole.0 == tail.0 && whole.1 == tail.1 + d as real
    decreases Left(|work|, position, step)
  {
    assert (position - d as real).Floor == position.Floor - d;
    if position.Floor + 1 < |work| {
      LeftShrinks(|work|, position, step);
      assert position + step - d as real == (position - d as real) + step;
      EmitTail(work, d, position + step, step);
    }
  }

  /** With more input behind it, a block first yields what it would have yielded alone. */
  lemma {:induction false} EmitThenMore(work: seq<Sample>, more: seq<Sample>, position: real, step: real)
    requires position >= 0.0 && step > 0.0
    ensures var first, whole := Emit(work, position, step), Emit(work + more, position, step);
      var rest := Emit(work + more, first.1, step);
      whole.0 == first.0 + rest.0 && whole.1 == rest.1
    decreases Left(|work|, position, step)
  {
    if position.Floor + 1 < |work| {
      LeftShrinks(|work|, position, step);
      EmitThenMore(work, more, position + step, step);
    }
  }

  /** The seam: reading on into more input is starting afresh at the carried sample. */
  lemma EmitAcross(work: seq<Sample>, y: seq<Sample>, position: real, step: real)
    requires position >= 0.0 && step > 0.0 && work != []
    ensures var d := |work| - 1;
      var first := Emit(work, position, step);
      var second := Emit([work[d]] + y, first.1 - d as real, step);
      Emit(work + y, position, step) == (first.0 + second.0, second.1 + d as real)
  {
    var d := |work| - 1;
    var end := Emit(work, position, step).1;
    EmitThenMore(work, y, position, step);
    assert (work + y)[d..] == [work[d]] + y;
    EmitTail(work + y, d, end, step);
  }

  lemma ProduceAcross(work: seq<Sample>, y: seq<Sample>, position: real, step: real, last: Sample)
    requires position >= 0.0 && step > 0.0 && work != []
    ensures var d := |work| - 1;
      var first := ProduceFrom(work, position, work[d], step);
      var second := ProduceFrom([work[d]] + y, first.1.position, last, step);
      ProduceFrom(work + y, position, last, step) == (first.0 + second.0, second.1)
  {
    EmitAcross(work, y, position, step);
  }

  lemma SplitNonEmpty(s: State, x: seq<Sample>, y: seq<Sample>, step: real)
    requires s.position >= 0.0 && step > 0.0 && x != [] && y != []
    ensures var (first, between) := Produce(s, x, step);
      var (second, after) := Produce(between, y, step);
      Produce(s, x + y, step) == (first + second, after)
  {
    assert Working(s, x + y) == Working(s, x) + y;
    ProduceAcross(Working(s, x), y, s.position, step, y[|y| - 1]);
  }

  /** Two calls append and carry exactly what one call with both blocks does, for any state and any rates. */
  lemma SplitInvariant(s: State, x: seq<Sample>, y: seq<Sample>, step: real)
    requires s.position >= 0.0 && step > 0.0
    ensures var (first, between) := Produce(s, x, step);
      var (second, after) := Produce(between, y, step);
      Produce(s, x + y, step) == (first + second, after)
  {
    if x == [] {
      assert x + y == y;
      assert [] + Produce(s, y, step).0 == Produce(s, y, step).0;
    } else if y == [] {
      assert x + y == x;
      var first := Produce(s, x, step);
      assert Produce(first.1, [], step) == ([], first.1);
      assert first.0 + [] == first.0;
    } else {
      SplitNonEmpty(s, x, y, step);
    }
  }

  function Feed(s: State, blocks: seq<seq<Sample>>, step: real): (r: (seq<Sample>, State))
    requires s.position >= 0.0 && step > 0.0
    ensures r.1.position >= 0.0
    decreases |blocks|
  {
    if blocks == [] then ([], s)
    else
      var (out, next) := Produce(s, blocks[0], step);
      var (rest, end) := Feed(next, blocks[1..], step);
      (out + rest, end)
  }

  function Flatten(blocks: seq<seq<Sample>>): seq<Sample> {
    if blocks == [] then [] else blocks[0] + Flatten(blocks[1..])
  }

  /** However the input is cut into blocks, empty ones included, the result is that of a single call. */
  lemma {:induction false} BlocksDoNotMatter(s: State, blocks: seq<seq<Sample>>, step: real)
    requires s.position >= 0.0 && step > 0.0
    ensures Feed(s, blocks, step) == Produce(s, Flatten(blocks), step)
    decreases |blocks|
  {
    if blocks != [] {
      BlocksDoNotMatter(Produce(s, blocks[0], step).1, blocks[1..], step);
      SplitInvariant(s, blocks[0], Flatten(blocks[1..]), step);
    }
  }

  // ---------------------------------------------------------------------------
  // What comes out
  // ---------------------------------------------------------------------------

  /** The least number of `source`s that reaches `n`. */
  function CeilDiv(n: int, source: nat): (k: nat)
    requires source > 0
    ensures n > 0 ==> (k - 1) * source < n <= k * source
    ensures n <= 0 ==> k == 0
  {
    if n <= 0 then 0
    else
      DivMod(n - 1, source);
      (n - 1) / source + 1
  }

  /**
   * The stream linearly interpolated at every multiple of source/target below its last sample: the k-th
   * output lies the fraction (k*source mod target)/target of the way past sample k*source div target.
   */
  function Reference(stream: seq<Sample>, source: nat, target: nat): seq<Sample>
    requires source > 0 && target > 0
  {
    seq(CeilDiv((|stream| - 1) * target, source), k => ReferenceAt(stream, k * source, target))
  }

  function ReferenceAt(stream: seq<Sample>, p: int, target: nat): Sample
    requires target > 0
  {
    var i := p / target;
    if 0 <= i && i + 1 < |stream| then Interpolate(stream[i], stream[i + 1], (p % target) as real / target as real)
    else SILENCE
  }

  lemma {:induction false} RealProduct(a: nat, b: nat)
    ensures (a * b) as real == a as real * b as real
  {
    if b > 0 {
      RealProduct(a, b - 1);
      assert a * b == a * (b - 1) + a by { MulDistributes(a, b - 1, 1); }
      assert b as real == (b - 1) as real + 1.0;
    }
  }

  /** A position in `target`ths of a sample: its whole part and its fraction. */
  lemma PositionParts(p: nat, target: nat)
    requires target > 0
    ensures var x := p as real / target as real; x >= 0.0 && x.Floor == p / target && x - (p / target) as real == (p % target) as real / target as real
  {
    var q, r, t := p / target, p % target, target as real;
    DivMod(p, target);
    RealProduct(target, q);
    BelowOne(r as real, t);
    MixedNumber(p as real, q as real, r as real, t);
  }

  lemma MixedNumber(p: real, q: real, r: real, t: real)
    requires t > 0.0 && p == t * q + r
    ensures p / t == q + r / t
  {
    Quotient(r, t, r / t);
    assert (q + r / t) * t == p;
    Quotient(p, t, q + r / t);
  }

  lemma BelowOne(x: real, y: real)
    requires 0.0 <= x < y
    ensures 0.0 <= x / y < 1.0
  {
    var r := x / y;
    Quotient(x, y, r);
    assert r * y == x;
    if r >= 1.0 {
      Scaled(r, y);
      assert false;
    } else if r < 0.0 {
      Scaled(r, y);
      assert false;
    }
  }

  lemma Positive(x: real, y: real)
    requires x > 0.0 && y > 0.0
    ensures x * y > 0.0
  {
  }

  lemma Scaled(r: real, y: real)
    requires y > 0.0
    ensures r >= 1.0 ==> r * y >= y
    ensures r < 0.0 ==> r * y < 0.0
  {
    if r >= 1.0 {
      assert (r - 1.0) * y >= 0.0;
    } else if r < 0.0 {
      Positive(0.0 - r, y);
      assert r * y == 0.0 - (0.0 - r) * y;
    }
  }

  /** Stepping on adds `source` to a position in `target`ths. */
  lemma PositionSteps(p: nat, source: nat, target: nat)
    requires source > 0 && target > 0
    ensures p as real / target as real + Step(source, target) == (p + source) as real / target as real
  {
    var t := target as real;
    var a, b := p as real / t, source as real / t;
    Quotient(p as real, t, a);
    Quotient(source as real, t, b);
    assert (a + b) * t == a * t + b * t;
    Quotient((p + source) as real, t, a + b);
  }

  /** p/target is more than one sample short of the end exactly when p is more than `target` short of `len` whole samples. */
  lemma StillAhead(len: nat, p: nat, target: nat)
    requires target > 0
    ensures p / target + 1 < len <==> p < (len - 1) * target
  {
    DivMod(p, target);
    if p / target + 1 < len {
      MulMono(target, p / target + 1, len - 1);
      MulDistributes(target, p / target, 1);
    } else {
      MulMono(target, len - 1, p / target);
    }
  }

  /** One fewer is left after a step. */
  lemma CeilDivSteps(n: int, source: nat)
    requires source > 0 && n > 0
    ensures CeilDiv(n, source) == CeilDiv(n - source, source) + 1
  {
    var k, j := CeilDiv(n, source), CeilDiv(n - source, source);
    MulDistributes(source, j, -1);
    if k < j + 1 {
      MulMono(source, k, j);
    } else if k > j + 1 {
      MulMono(source, j + 1, k - 1);
      MulDistributes(source, j, 1);
    }
  }

  function Position(p: nat, target: nat): (x: real)
    requires target > 0
    ensures x >= 0.0
  {
    p as real / target as real
  }

  /** How many samples the loop appends, started p/target into the stream. */
  lemma {:induction false} EmitLength(stream: seq<Sample>, p: nat, source: nat, target: nat)
    requires source > 0 && target > 0 && |stream| > 0
    ensures |Emit(stream, Position(p, target), Step(source, target)).0| == CeilDiv((|stream| - 1) * target - p, source)
    decreases (|stream| - 1) * target - p
  {
    PositionParts(p, target);
    StillAhead(|stream|, p, target);
    if p < (|stream| - 1) * target {
      PositionSteps(p, source, target);
      EmitLength(stream, p + source, source, target);
      CeilDivSteps((|stream| - 1) * target - p, source);
    }
  }

  /** And which. */
  lemma {:induction false} EmitAt(stream: seq<Sample>, p: nat, source: nat, target: nat, k: nat)
    requires source > 0 && target > 0 && |stream| > 0
    requires k < |Emit(stream, Position(p, target), Step(source, target)).0|
    ensures Emit(stream, Position(p, target), Step(source, target)).0[k] == ReferenceAt(stream, p + k * source, target)
    decreases k
  {
    PositionParts(p, target);
    if k > 0 {
      PositionSteps(p, source, target);
      EmitAt(stream, p + source, source, target, k - 1);
      MulDistributes(source, k, -1);
      assert p + source + (k - 1) * source == p + k * source;
    }
  }

  /**
   * From a fresh resampler, however N >= 1 samples are cut into blocks, exactly ceil((N-1)*target/source)
   * come out, and they are the stream interpolated at the multiples of source/target: nothing is lost,
   * repeated or shifted at a seam.
   */
  lemma StreamIsInterpolated(blocks: seq<seq<Sample>>, source: nat, target: nat)
    requires source > 0 && target > 0
    ensures var out, stream := Feed(FRESH, blocks, Step(source, target)).0, Flatten(blocks);
      out == Reference(stream, source, target) && |out| == CeilDiv((|stream| - 1) * target, source)
  {
    var stream := Flatten(blocks);
    BlocksDoNotMatter(FRESH, blocks, Step(source, target));
    if stream != [] {
      assert Working(FRESH, stream) == stream;
      WholeStream(stream, source, target);
    } else {
      MulMono(target, -1, 0);
    }
  }

  lemma WholeStream(stream: seq<Sample>, source: nat, target: nat)
    requires source > 0 && target > 0 && stream != []
    ensures Emit(stream, 0.0, Step(source, target)).0 == Reference(stream, source, target)
  {
    assert Position(0, target) == 0.0;
    var out := Emit(stream, Position(0, target), Step(source, target)).0;
    EmitLength(stream, 0, source, target);
    forall k | 0 <= k < |out| ensures out[k] == ReferenceAt(stream, k * source, target) {
      EmitAt(stream, 0, source, target, k);
    }
  }

  /** At equal rates the input passes through one sample late, which is the only case where blocks keep their length. */
  lemma EqualRatesPassThrough(blocks: seq<seq<Sample>>, rate: nat)
    requires rate > 0 && Flatten(blocks) != []
    ensures var stream := Flatten(blocks); Feed(FRESH, blocks, Step(rate, rate)).0 == stream[..|stream| - 1]
  {
    var stream := Flatten(blocks);
    StreamIsInterpolated(blocks, rate, rate);
    var n := |stream| - 1;
    WholeMultiple(n, rate);
    forall k | 0 <= k < n ensures ReferenceAt(stream, k * rate, rate) == stream[k] {
      SampleAtWhole(stream, k, rate);
    }
  }

  lemma WholeMultiple(n: nat, rate: nat)
    requires rate > 0
    ensures CeilDiv(n * rate, rate) == n
  {
    var c := CeilDiv(n * rate, rate);
    if c < n {
      MulMono(rate, c, n - 1);
      MulDistributes(rate, n, -1);
    } else if c > n {
      MulMono(rate, n, c - 1);
      MulMono(rate, 0, n);
    }
  }

  lemma SampleAtWhole(stream: seq<Sample>, k: nat, rate: nat)
    requires rate > 0 && k + 1 < |stream|
    ensures ReferenceAt(stream, k * rate, rate) == stream[k]
  {
    DivUnique(k * rate, rate, k, 0);
    assert Interpolate(stream[k], stream[k + 1], 0.0) == stream[k];
  }
}
