/**
 * The sweep axes of `measurement` (measurement.py:172-277) and the order in
 * which its nested loops visit their points (measurement.py:281-445).
 * Every axis is over integers: the DCO code, Kp and Ki exactly, the
 * frequency and the supply voltages in fixed-point units.
 */
module Sweep {

  /** An axis as the form sets it: a single value, or start, stop and step. */
  datatype Axis = Single(value: int) | Stepped(start: int, stop: int, step: int)

  /** The `while val <= stop` loop ends: the step is positive, or the loop is never entered. */
  predicate Terminates(a: Axis)
  {
    a.Stepped? ==> a.step > 0 || a.start > a.stop
  }

  /** `start, start + step, ...` while the value is at most `stop`. */
  function Steps(start: int, stop: int, step: int): seq<int>
    requires step > 0
    decreases stop - start + step
  {
    if start > stop then [] else [start] + Steps(start + step, stop, step)
  }

  /** The values an axis contributes to the sweep. */
  function AxisValues(a: Axis): seq<int>
    requires Terminates(a)
  {
    match a
    case Single(v) => [v]
    case Stepped(start, stop, step) => if start > stop then [] else Steps(start, stop, step)
  }

  /**
   * An axis builder of `measurement`: the single value, or the `while`
   * loop appending `val` and advancing it by the step.
   */
  method BuildAxis(a: Axis) returns (values: seq<int>)
    requires Terminates(a)
    ensures values == AxisValues(a)
  {
    values := [];
    if a.Stepped? {
      var val := a.start;
      while val <= a.stop
        invariant a.step > 0 ==> values + Steps(val, a.stop, a.step) == Steps(a.start, a.stop, a.step)
        invariant a.step <= 0 ==> values == [] && val > a.stop
        decreases a.stop - val
      {
        values := values + [val];
        val := val + a.step;
      }
    } else {
      values := values + [a.value];
    }
  }

  /**
   * The axis loop as written, run for `n` passes without its guard: the
   * value of `val` afterwards and the values appended so far.
   */
  function LoopAfter(start: int, step: int, n: nat): (int, seq<int>)
  {
    if n == 0 then (start, [])
    else
      var (val, values) := LoopAfter(start, step, n - 1);
      (val + step, values + [val])
  }

  /**
   * With a step of zero or less and `start <= stop`, the guard
   * `val <= stop` still holds after every number of passes, so the axis
   * loop never ends and its list grows without bound.
   */
  lemma {:induction false} LoopNeverEnds(start: int, stop: int, step: int, n: nat)
    requires step <= 0 && start <= stop
    ensures LoopAfter(start, step, n).0 == start + n * step
    ensures LoopAfter(start, step, n).0 <= stop
    ensures |LoopAfter(start, step, n).1| == n
  {
    if n > 0 {
      LoopNeverEnds(start, stop, step, n - 1);
    }
  }

  lemma {:induction false} MulMonotone(a: nat, b: nat, m: nat)
    requires a <= b
    ensures a * m <= b * m
    decreases b - a
  {
    if a < b {
      MulMonotone(a, b - 1, m);
      assert b * m == (b - 1) * m + m;
    }
  }

  lemma MulStrict(a: nat, b: nat, m: nat)
    requires a < b && m > 0
    ensures a * m + m <= b * m
  {
    MulMonotone(a + 1, b, m);
    assert (a + 1) * m == a * m + m;
  }

  /** Every `k` is `q * m + r` with `r < m`. */
  lemma {:induction false} Decompose(k: nat, m: nat) returns (q: nat, r: nat)
    requires m > 0
    ensures k == q * m + r && r < m
    decreases k
  {
    if k < m {
      q, r := 0, k;
    } else {
      q, r := Decompose(k - m, m);
      assert (q + 1) * m == q * m + m;
      q := q + 1;
    }
  }

  /** The loop's values are exactly `start + i * step`, one per index. */
  lemma {:induction false} StepsClosedForm(start: int, stop: int, step: int)
    requires step > 0
    ensures forall i :: 0 <= i < |Steps(start, stop, step)| ==> Steps(start, stop, step)[i] == start + i * step
    decreases stop - start + step
  {
    if start <= stop {
      StepsClosedForm(start + step, stop, step);
      var s := Steps(start, stop, step);
      forall i | 1 <= i < |s|
        ensures s[i] == start + i * step
      {
        assert s[i] == Steps(start + step, stop, step)[i - 1];
        assert (i - 1) * step + step == i * step;
      }
    }
  }

  /**
   * A stepped axis starts at `start`, stays within `[start, stop]`, moves
   * by `step` from each value to the next, is empty exactly when
   * `start > stop`, and stops at the last value the step can reach: one
   * more step would pass `stop`.
   */
  lemma {:induction false} StepsSpec(start: int, stop: int, step: int)
    requires step > 0
    ensures var s := Steps(start, stop, step);
      && (|s| == 0 <==> start > stop)
      && (|s| > 0 ==> s[0] == start && s[|s| - 1] + step > stop)
      && (forall i :: 0 <= i < |s| ==> start <= s[i] <= stop)
      && (forall i :: 0 <= i < |s| - 1 ==> s[i + 1] == s[i] + step)
    decreases stop - start + step
  {
    if start <= stop {
      StepsSpec(start + step, stop, step);
      var s := Steps(start, stop, step);
      assert s[1..] == Steps(start + step, stop, step);
    }
  }

  /** A stepped axis is strictly increasing. */
  lemma StepsIncreasing(start: int, stop: int, step: int)
    requires step > 0
    ensures var s := Steps(start, stop, step);
      forall i, j :: 0 <= i < j < |s| ==> s[i] < s[j]
  {
    var s := Steps(start, stop, step);
    StepsClosedForm(start, stop, step);
    forall i, j | 0 <= i < j < |s|
      ensures s[i] < s[j]
    {
      MulStrict(i, j, step);
    }
  }

  /** Every value of the form `start + i * step` up to `stop` is on the axis, at index `i`. */
  lemma StepsComplete(start: int, stop: int, step: int, i: nat)
    requires step > 0 && start + i * step <= stop
    ensures i < |Steps(start, stop, step)|
    ensures Steps(start, stop, step)[i] == start + i * step
  {
    var s := Steps(start, stop, step);
    StepsClosedForm(start, stop, step);
    StepsSpec(start, stop, step);
    MulMonotone(0, i, step);
    var n := |s|;
    assert n > 0 && s[n - 1] == start + (n - 1) * step;
    assert (n - 1) * step + step == n * step;
    if i >= n {
      MulMonotone(n, i, step);
      assert false;
    }
  }

  // ---------------------------------------------------------------------
  // The nested loops' points
  // ---------------------------------------------------------------------

  /** The blocks of a sequence of blocks, one after another. */
  function Flatten<T>(blocks: seq<seq<T>>): seq<T>
  {
    if blocks == [] then [] else Flatten(blocks[..|blocks| - 1]) + blocks[|blocks| - 1]
  }

  /** Every point with the value `x` put in front. */
  function Cons(x: int, points: seq<seq<int>>): seq<seq<int>>
  {
    seq(|points|, j requires 0 <= j < |points| => [x] + points[j])
  }

  /**
   * The points nested `for` loops over `axes` visit, in the order they
   * visit them: the first axis is the outermost loop, the last the
   * innermost.
   */
  function Product(axes: seq<seq<int>>): seq<seq<int>>
    decreases |axes|
  {
    if axes == [] then [[]]
    else
      var inner := Product(axes[1..]);
      Flatten(seq(|axes[0]|, i requires 0 <= i < |axes[0]| => Cons(axes[0][i], inner)))
  }

  /** The product of the axes' lengths. */
  function Count(axes: seq<seq<int>>): nat
  {
    if axes == [] then 1 else |axes[0]| * Count(axes[1..])
  }

  lemma {:induction false} FlattenLength<T>(blocks: seq<seq<T>>, m: nat)
    requires forall i :: 0 <= i < |blocks| ==> |blocks[i]| == m
    ensures |Flatten(blocks)| == |blocks| * m
  {
    if blocks != [] {
      FlattenLength(blocks[..|blocks| - 1], m);
      assert (|blocks| - 1) * m + m == |blocks| * m;
    }
  }

  lemma {:induction false} FlattenAt<T>(blocks: seq<seq<T>>, m: nat, i: nat, j: nat)
    requires forall i :: 0 <= i < |blocks| ==> |blocks[i]| == m
    requires i < |blocks| && j < m
    ensures i * m + j < |Flatten(blocks)|
    ensures Flatten(blocks)[i * m + j] == blocks[i][j]
  {
    var n := |blocks|;
    var init := blocks[..n - 1];
    FlattenLength(init, m);
    assert Flatten(blocks) == Flatten(init) + blocks[n - 1];
    if i < n - 1 {
      FlattenAt(init, m, i, j);
    }
  }

  /** The loops visit as many points as the product of the axis lengths. */
  lemma {:induction false} ProductLength(axes: seq<seq<int>>)
    ensures |Product(axes)| == Count(axes)
    decreases |axes|
  {
    if axes != [] {
      var inner := Product(axes[1..]);
      ProductLength(axes[1..]);
      var blocks := seq(|axes[0]|, i requires 0 <= i < |axes[0]| => Cons(axes[0][i], inner));
      FlattenLength(blocks, |inner|);
    }
  }

  /**
   * The first axis is the outermost loop: with `c` points in the inner
   * loops, point `i * c + j` is value `i` of the first axis followed by
   * inner point `j`.
   */
  lemma ProductOrder(axes: seq<seq<int>>, i: nat, j: nat)
    requires axes != [] && i < |axes[0]| && j < Count(axes[1..])
    ensures i * Count(axes[1..]) + j < |Product(axes)|
    ensures j < |Product(axes[1..])|
    ensures Product(axes)[i * Count(axes[1..]) + j] == [axes[0][i]] + Product(axes[1..])[j]
  {
    var inner := Product(axes[1..]);
    ProductLength(axes[1..]);
    var blocks := seq(|axes[0]|, i requires 0 <= i < |axes[0]| => Cons(axes[0][i], inner));
    assert Product(axes) == Flatten(blocks);
    FlattenAt(blocks, |inner|, i, j);
    assert blocks[i][j] == [axes[0][i]] + inner[j];
  }

  /** Point `k` has one coordinate per axis. */
  lemma {:induction false} ProductWidth(axes: seq<seq<int>>, k: nat)
    requires k < |Product(axes)|
    ensures |Product(axes)[k]| == |axes|
    decreases |axes|
  {
    if axes != [] {
      ProductLength(axes);
      var c := Count(axes[1..]);
      var i, j := Decompose(k, c);
      if i >= |axes[0]| {
        MulMonotone(|axes[0]|, i, c);
        assert false;
      }
      ProductOrder(axes, i, j);
      ProductWidth(axes[1..], j);
    }
  }

  /** Appending an axis multiplies the count by its length. */
  lemma {:induction false} CountSnoc(init: seq<seq<int>>, last: seq<int>)
    ensures Count(init + [last]) == Count(init) * |last|
    decreases |init|
  {
    if init != [] {
      assert (init + [last])[1..] == init[1..] + [last];
      CountSnoc(init[1..], last);
      assert |init[0]| * (Count(init[1..]) * |last|) == |init[0]| * Count(init[1..]) * |last|;
    }
  }

  /** The index arithmetic of the innermost loop, one nesting level at a time. */
  lemma SplitIndex(q: nat, m: nat, c': nat, i: nat, t: nat, j: nat, a: nat) returns (r: nat)
    requires q == i * c' + t && t < c' && j < m
    requires q * m + j < a * (c' * m)
    ensures r == t * m + j && r < c' * m
    ensures q * m + j == i * (c' * m) + r
    ensures i < a
  {
    MulMonotone(0, t, m);
    r := t * m + j;
    assert q * m == i * c' * m + t * m;
    MulStrict(t, c', m);
    if i >= a {
      MulMonotone(a, i, c' * m);
      assert false;
    }
  }

  lemma OnlyBlock(q: nat, m: nat, j: nat)
    requires q * m + j < m
    ensures q == 0
  {
    if q > 0 {
      MulMonotone(1, q, m);
      assert false;
    }
  }

  /** A point keeps its inner point's last coordinate when the outer value is put in front. */
  lemma InnermostLift(axes: seq<seq<int>>, i: nat, r: nat)
    requires |axes| >= 2 && i < |axes[0]| && r < Count(axes[1..])
    ensures i * Count(axes[1..]) + r < |Product(axes)|
    ensures r < |Product(axes[1..])|
    ensures |Product(axes)[i * Count(axes[1..]) + r]| == |axes|
    ensures |Product(axes[1..])[r]| == |axes| - 1
    ensures Product(axes)[i * Count(axes[1..]) + r][|axes| - 1] == Product(axes[1..])[r][|axes| - 2]
  {
    ProductOrder(axes, i, r);
    ProductWidth(axes[1..], r);
    var p := Product(axes[1..])[r];
    assert |p| == |axes| - 1;
    assert ([axes[0][i]] + p)[|axes| - 1] == p[|axes| - 2];
  }

  /**
   * The last axis is the innermost loop: with `m` values on it, point
   * `q * m + j` holds value `j` of the last axis as its last coordinate.
   */
  lemma {:induction false} ProductInnermost(axes: seq<seq<int>>, q: nat, j: nat)
    requires axes != [] && j < |axes[|axes| - 1]|
    requires q * |axes[|axes| - 1]| + j < |Product(axes)|
    ensures |Product(axes)[q * |axes[|axes| - 1]| + j]| == |axes|
    ensures Product(axes)[q * |axes[|axes| - 1]| + j][|axes| - 1] == axes[|axes| - 1][j]
    decreases |axes|, 1
  {
    if |axes| == 1 {
      InnermostSingle(axes, q, j);
    } else {
      InnermostStep(axes, q, j);
    }
  }

  lemma InnermostSingle(axes: seq<seq<int>>, q: nat, j: nat)
    requires |axes| == 1 && j < |axes[0]|
    requires q * |axes[0]| + j < |Product(axes)|
    ensures |Product(axes)[q * |axes[0]| + j]| == 1
    ensures Product(axes)[q * |axes[0]| + j][0] == axes[0][j]
  {
    ProductLength(axes);
    assert Count(axes[1..]) == 1;
    OnlyBlock(q, |axes[0]|, j);
    ProductOrder(axes, j, 0);
  }

  lemma {:induction false} InnermostStep(axes: seq<seq<int>>, q: nat, j: nat)
    requires |axes| >= 2 && j < |axes[|axes| - 1]|
    requires q * |axes[|axes| - 1]| + j < |Product(axes)|
    ensures |Product(axes)[q * |axes[|axes| - 1]| + j]| == |axes|
    ensures Product(axes)[q * |axes[|axes| - 1]| + j][|axes| - 1] == axes[|axes| - 1][j]
    decreases |axes|, 0
  {
    var m := |axes[|axes| - 1]|;
    ProductLength(axes);
    var rest := axes[1..];
    var init := rest[..|rest| - 1];
    assert rest == init + [axes[|axes| - 1]];
    CountSnoc(init, axes[|axes| - 1]);
    var c' := Count(init);
    assert c' > 0 by {
      if c' == 0 {
        assert false;
      }
    }
    var i, t := Decompose(q, c');
    var r := SplitIndex(q, m, c', i, t, j, |axes[0]|);
    InnermostLift(axes, i, r);
    ProductInnermost(rest, t, j);
  }

  // ---------------------------------------------------------------------
  // One loop level at a time
  // ---------------------------------------------------------------------

  /** Every point with the outer loops' values `pre` put in front. */
  function Prefixed(pre: seq<int>, points: seq<seq<int>>): seq<seq<int>>
  {
    seq(|points|, k requires 0 <= k < |points| => pre + points[k])
  }

  /** Adding one block appends it to the flattened sequence. */
  lemma FlattenSnoc<T>(blocks: seq<seq<T>>, i: nat)
    requires i < |blocks|
    ensures Flatten(blocks[..i + 1]) == Flatten(blocks[..i]) + blocks[i]
  {
    assert blocks[..i + 1][..i] == blocks[..i];
  }

  /** The first `i` blocks flatten to a prefix of all of them. */
  lemma {:induction false} FlattenPrefix<T>(blocks: seq<seq<T>>, i: nat)
    requires i <= |blocks|
    ensures Flatten(blocks[..i]) <= Flatten(blocks)
    decreases |blocks| - i
  {
    if i < |blocks| {
      FlattenPrefix(blocks, i + 1);
      FlattenSnoc(blocks, i);
    } else {
      assert blocks[..i] == blocks;
    }
  }

  /**
   * A loop stopped inside block `i`, after the blocks before it and a
   * prefix of block `i`, has visited a prefix of all the blocks.
   */
  lemma StoppedPrefix<T>(blocks: seq<seq<T>>, i: nat, part: seq<T>)
    requires i < |blocks| && part <= blocks[i]
    ensures Flatten(blocks[..i]) + part <= Flatten(blocks)
  {
    FlattenSnoc(blocks, i);
    FlattenPrefix(blocks, i + 1);
    var done := Flatten(blocks[..i]);
    assert done + part == (done + blocks[i])[..|done| + |part|];
  }

  /** Every block of points with the values `pre` put in front. */
  function PrefixedEach(pre: seq<int>, blocks: seq<seq<seq<int>>>): seq<seq<seq<int>>>
  {
    seq(|blocks|, i requires 0 <= i < |blocks| => Prefixed(pre, blocks[i]))
  }

  /** Putting values in front commutes with flattening. */
  lemma {:induction false} PrefixedFlatten(pre: seq<int>, blocks: seq<seq<seq<int>>>)
    ensures Prefixed(pre, Flatten(blocks)) == Flatten(PrefixedEach(pre, blocks))
  {
    if blocks != [] {
      var n := |blocks| - 1;
      PrefixedFlatten(pre, blocks[..n]);
      assert PrefixedEach(pre, blocks)[..n] == PrefixedEach(pre, blocks[..n]);
      var a, b := Flatten(blocks[..n]), blocks[n];
      assert Prefixed(pre, a + b) == Prefixed(pre, a) + Prefixed(pre, b);
    }
  }

  /**
   * The blocks of one loop level: block `i` holds the points of the inner
   * levels with the outer values `pre` and value `i` of this level's own
   * axis in front.
   */
  function Blocks(pre: seq<int>, axes: seq<seq<int>>): seq<seq<seq<int>>>
    requires axes != []
  {
    seq(|axes[0]|, i requires 0 <= i < |axes[0]| => Prefixed(pre + [axes[0][i]], Product(axes[1..])))
  }

  /** The points under the outer values `pre` are this level's blocks in order. */
  lemma PrefixedProduct(pre: seq<int>, axes: seq<seq<int>>)
    requires axes != []
    ensures Prefixed(pre, Product(axes)) == Flatten(Blocks(pre, axes))
  {
    var inner := Product(axes[1..]);
    var blocks := seq(|axes[0]|, i requires 0 <= i < |axes[0]| => Cons(axes[0][i], inner));
    assert Product(axes) == Flatten(blocks);
    PrefixedFlatten(pre, blocks);
    forall i | 0 <= i < |axes[0]|
      ensures PrefixedEach(pre, blocks)[i] == Blocks(pre, axes)[i]
    {
      assert forall k :: 0 <= k < |inner| ==> pre + ([axes[0][i]] + inner[k]) == (pre + [axes[0][i]]) + inner[k];
    }
    assert PrefixedEach(pre, blocks) == Blocks(pre, axes);
  }

  /** With nothing in front, the points are the product itself. */
  lemma PrefixedNothing(points: seq<seq<int>>)
    ensures Prefixed([], points) == points
  {
    assert forall k :: 0 <= k < |points| ==> [] + points[k] == points[k];
  }
}
