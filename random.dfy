/** The random choices of random-code generation, over an explicit stream
    of draws: `src(k)` is the k-th raw value of the random source, and a
    call `nextInt(n)` that consumes draw `k` yields `src(k) % n`. Any run of
    the source in which every draw lies in `[0, n)` is such a stream. */
module Random {
  import opened Faults

  /** A value produced together with the position of the next unused draw. */
  datatype Drawn<T> = Drawn(value: T, pos: nat)

  function NextInt(src: nat -> nat, pos: nat, n: nat): (r: nat)
    requires n > 0
    ensures r < n
  {
    src(pos) % n
  }

  function Sum(s: seq<int>): int
  {
    if s == [] then 0 else s[0] + Sum(s[1..])
  }

  lemma {:induction false} SumSnoc(s: seq<int>, x: int)
    ensures Sum(s + [x]) == Sum(s) + x
  {
    if s != [] {
      assert (s + [x])[1..] == s[1..] + [x];
      SumSnoc(s[1..], x);
    }
  }

  lemma {:induction false} SumUpdate(s: seq<int>, i: nat, v: int)
    requires i < |s|
    ensures Sum(s[i := v]) == Sum(s) - s[i] + v
  {
    if i > 0 {
      assert s[i := v][1..] == s[1..][i - 1 := v];
      SumUpdate(s[1..], i - 1, v);
    }
  }

  /** The worker of `RandomCodeDistribution` ("decompose"): a first part of
      size 1 when `count` is 1, else `nextInt(count) + 1`, followed by the
      decomposition of what remains. */
  function Decompose(src: nat -> nat, pos: nat, count: int): Drawn<seq<int>>
    decreases count
  {
    if count < 1 then Drawn([], pos)
    else
      var thisSize := if count < 2 then 1 else NextInt(src, pos, count) + 1;
      var next := if count < 2 then pos else pos + 1;
      var rest := Decompose(src, next, count - thisSize);
      Drawn([thisSize] + rest.value, rest.pos)
  }

  /** Every part of a decomposition lies in `[1, count]`, the parts add up
      to `count`, and a count below 1 yields no part at all. */
  lemma {:induction false} DecomposeParts(src: nat -> nat, pos: nat, count: int)
    ensures var d := Decompose(src, pos, count).value;
      && (count < 1 <==> d == [])
      && (forall k :: 0 <= k < |d| ==> 1 <= d[k] <= count)
      && (count >= 1 ==> Sum(d) == count)
    decreases count
  {
    if count >= 1 {
      var thisSize := if count < 2 then 1 else NextInt(src, pos, count) + 1;
      var next := if count < 2 then pos else pos + 1;
      DecomposeParts(src, next, count - thisSize);
    }
  }

  /** `s` with the elements at `i` and `j` exchanged. */
  function Swap(s: seq<int>, i: nat, j: nat): (r: seq<int>)
    requires i < |s| && j < |s|
  {
    s[i := s[j]][j := s[i]]
  }

  lemma SwapKeeps(s: seq<int>, i: nat, j: nat)
    requires i < |s| && j < |s|
    ensures |Swap(s, i, j)| == |s|
    ensures multiset(Swap(s, i, j)) == multiset(s)
    ensures Sum(Swap(s, i, j)) == Sum(s)
  {
    SumUpdate(s, i, s[j]);
    SumUpdate(s[i := s[j]], j, s[i]);
  }

  /** The in-place shuffle of `RandomCodeDistribution` from index `i` on:
      at each index one draw `j` in `[0, |s|)`, and the two elements are
      exchanged unless `j` is that index. */
  function ShuffleFrom(src: nat -> nat, pos: nat, s: seq<int>, i: nat): Drawn<seq<int>>
    decreases |s| - i
  {
    if i >= |s| then Drawn(s, pos)
    else
      var j := NextInt(src, pos, |s|);
      ShuffleFrom(src, pos + 1, if i == j then s else Swap(s, i, j), i + 1)
  }

  /** One index of the shuffle: one draw, then the exchange unless the
      drawn index is the index itself. `ShufflePermutes` and the loop of
      `Shuffle` both take this one unfolding of `ShuffleFrom`. */
  lemma ShuffleStep(src: nat -> nat, pos: nat, s: seq<int>, i: nat)
    requires i < |s|
    ensures var j := NextInt(src, pos, |s|);
      ShuffleFrom(src, pos, s, i) == ShuffleFrom(src, pos + 1, if i == j then s else Swap(s, i, j), i + 1)
  {
  }

  /** The shuffle is a permutation: it keeps the multiset, hence the sum
      and the bounds of the elements. */
  lemma {:induction false} ShufflePermutes(src: nat -> nat, pos: nat, s: seq<int>, i: nat)
    ensures multiset(ShuffleFrom(src, pos, s, i).value) == multiset(s)
    ensures |ShuffleFrom(src, pos, s, i).value| == |s|
    ensures Sum(ShuffleFrom(src, pos, s, i).value) == Sum(s)
    decreases |s| - i
  {
    if i < |s| {
      var j := NextInt(src, pos, |s|);
      var next := if i == j then s else Swap(s, i, j);
      ShuffleStep(src, pos, s, i);
      if i != j {
        SwapKeeps(s, i, j);
      }
      assert multiset(next) == multiset(s) && |next| == |s| && Sum(next) == Sum(s);
      ShufflePermutes(src, pos + 1, next, i + 1);
      assert ShuffleFrom(src, pos, s, i) == ShuffleFrom(src, pos + 1, next, i + 1);
    }
  }

  /** `RandomCodeDistribution(count, _)`: decompose, then shuffle. */
  function Distribution(src: nat -> nat, pos: nat, count: int): Drawn<seq<int>>
  {
    var d := Decompose(src, pos, count);
    ShuffleFrom(src, d.pos, d.value, 0)
  }

  /** The distribution is a permutation of the decomposition; its parts lie
      in `[1, count]` and add up to `count`, and it is empty exactly when
      `count < 1`. */
  lemma DistributionParts(src: nat -> nat, pos: nat, count: int)
    ensures var d := Distribution(src, pos, count).value;
      && multiset(d) == multiset(Decompose(src, pos, count).value)
      && (count < 1 <==> d == [])
      && (forall k :: 0 <= k < |d| ==> 1 <= d[k] <= count)
      && (count >= 1 ==> Sum(d) == count)
  {
    var dec := Decompose(src, pos, count);
    DecomposeParts(src, pos, count);
    ShufflePermutes(src, dec.pos, dec.value, 0);
    var d := Distribution(src, pos, count).value;
    forall k | 0 <= k < |d|
      ensures 1 <= d[k] <= count
    {
      assert d[k] in multiset(dec.value);
      var m :| 0 <= m < |dec.value| && dec.value[m] == d[k];
    }
    if d == [] {
      assert multiset(dec.value) == multiset{};
    }
  }

  // ---- integer ephemeral random constants ----

  predicate IsInt32(x: int)
  {
    -0x8000_0000 <= x < 0x8000_0000
  }

  /** Two's-complement wrap-around of a Java `int` result. */
  function Wrap32(x: int): (r: int)
    ensures IsInt32(r)
    ensures IsInt32(x) ==> r == x
    ensures (r - x) % 0x1_0000_0000 == 0
  {
    var m := x % 0x1_0000_0000;
    if m >= 0x8000_0000 then m - 0x1_0000_0000 else m
  }

  /** Java's `%`, which truncates toward zero: the remainder takes the sign
      of the dividend. */
  function JavaRem(a: int, b: int): int
    requires b != 0
  {
    var m := if b > 0 then b else -b;
    if a >= 0 then a % m else -((-a) % m)
  }

  /** Rounding a non-negative draw down to a multiple of `res` stays in
      `[0, r]` and lands on a multiple of `res`. */
  lemma RoundDown(r: nat, res: int)
    requires res > 0
    ensures 0 <= r - JavaRem(r, res) <= r
    ensures (r - JavaRem(r, res)) % res == 0
  {
    var q, m := r / res, r % res;
    assert JavaRem(r, res) == m;
    assert r == res * q + m && 0 <= m < res;
    assert q >= 0 by {
      if q < 0 {
        MulAtLeast(res, -q);
      }
    }
    assert 0 <= m <= r;
    ModOfMultiple(q, res);
  }

  /** `RoundDown` behind its guard, so that the expression body of
      `IntErc` can call it for any draw and any nonzero resolution. */
  lemma RoundDownWhenPositive(r: int, res: int)
    requires res != 0
    ensures r >= 0 && res > 0 ==>
      0 <= r - JavaRem(r, res) <= r && (r - JavaRem(r, res)) % res == 0
  {
    if r >= 0 && res > 0 {
      RoundDown(r, res);
    }
  }

  /** `(res * q) % res == 0`, from the uniqueness of Euclidean division. */
  lemma ModOfMultiple(q: int, res: int)
    requires res > 0
    ensures (res * q) % res == 0
  {
    var a := res * q;
    var q', m' := a / res, a % res;
    assert a == res * q' + m';
    var d := q - q';
    assert res * d == m' by {
      assert res * q - res * q' == res * (q - q');
    }
    if d >= 1 {
      MulAtLeast(res, d);
    }
  }

  lemma {:induction false} MulAtLeast(res: int, d: int)
    requires res > 0 && d >= 1
    ensures res * d >= res
    decreases d
  {
    if d > 1 {
      MulAtLeast(res, d - 1);
      assert res * d == res * (d - 1) + res;
    }
  }

  /** `IntAtomGenerator.Generate` after its one draw `r` from
      `nextInt(max - min)`: `r - r % res + min`, in 32-bit arithmetic.
      `nextInt` refuses a bound that is not positive and `%` a zero
      resolution. When `min < max` without overflow and `res > 0`, the
      constant lies in `[min, max)` on the grid `min + k * res`. */
  function IntErc(min: int, max: int, res: int, r: int): (v: Result<int>)
    requires IsInt32(min) && IsInt32(max) && IsInt32(res)
    requires Wrap32(max - min) > 0 ==> 0 <= r < Wrap32(max - min)
    ensures v == Err(IllegalArgument) <==> Wrap32(max - min) <= 0
    ensures v == Err(Arithmetic) <==> Wrap32(max - min) > 0 && res == 0
    ensures v.Ok? ==> IsInt32(v.value)
    ensures v.Ok? && min < max && IsInt32(max - min) && res > 0 ==>
      min <= v.value < max && (v.value - min) % res == 0
  {
    var bound := Wrap32(max - min);
    if bound <= 0 then Err(IllegalArgument)
    else if res == 0 then Err(Arithmetic)
    else
      RoundDownWhenPositive(r, res);
      Ok(Wrap32(r - JavaRem(r, res) + min))
  }

  /** Every grid point `min + k * res` below `max` is reached by the draw
      `k * res`, so the generator covers its whole range. */
  lemma IntErcReaches(min: int, max: int, res: int, k: nat)
    requires IsInt32(min) && IsInt32(max) && IsInt32(res)
    requires min < max && IsInt32(max - min) && res > 0
    requires min + k * res < max
    ensures IntErc(min, max, res, k * res) == Ok(min + k * res)
  {
    ModOfMultiple(k, res);
    assert k * res == res * k;
    assert 0 <= k * res < max - min;
    assert JavaRem(k * res, res) == 0;
  }
}
