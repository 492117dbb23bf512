/** The dashboard's batch aggregation of M1 candles, its own specification, and its agreement
    with the incremental builder. */
module Resample {
  import opened Common
  import B = Bars

  datatype Candle = Candle(time: int, open: real, high: real, low: real, close: real, tickVolume: int)

  const SECOND := 1_000_000

  /** Whole seconds, rounded toward zero as an integer cast does. */
  function TruncSeconds(ts: int): int { if ts >= 0 then ts / SECOND else -((-ts) / SECOND) }

  /** The bucket key of a candle, in seconds. */
  function Key(ts: int, minutes: int): int
    requires minutes > 0
  {
    TruncSeconds(ts) / (minutes * 60) * (minutes * 60)
  }

  function MaxHigh(g: seq<Candle>): real
    requires g != []
  {
    if |g| == 1 then g[0].high else Max(MaxHigh(g[..|g| - 1]), g[|g| - 1].high)
  }

  function MinLow(g: seq<Candle>): real
    requires g != []
  {
    if |g| == 1 then g[0].low else Min(MinLow(g[..|g| - 1]), g[|g| - 1].low)
  }

  function SumTicks(g: seq<Candle>): int {
    if g == [] then 0 else SumTicks(g[..|g| - 1]) + g[|g| - 1].tickVolume
  }

  /** The candle of one bucket's members. */
  function Fold(key: int, g: seq<Candle>): Candle
    requires g != []
  {
    Candle(key * SECOND, g[0].open, MaxHigh(g), MinLow(g), g[|g| - 1].close, SumTicks(g))
  }

  /** The members of one bucket, wherever they stand. */
  function Members(c: seq<Candle>, key: int, minutes: int): seq<Candle>
    requires minutes > 0
  {
    if c == [] then []
    else
      var x := c[|c| - 1];
      Members(c[..|c| - 1], key, minutes) + if Key(x.time, minutes) == key then [x] else []
  }

  function Keys(c: seq<Candle>, minutes: int): set<int>
    requires minutes > 0
  {
    set x | x in c :: Key(x.time, minutes)
  }

  lemma NoCandles(minutes: int)
    requires minutes > 0
    ensures Keys([], minutes) == {} && forall k :: Members([], k, minutes) == []
  {
  }

  lemma AppendCandle(c: seq<Candle>, x: Candle, minutes: int)
    requires minutes > 0
    ensures Keys(c + [x], minutes) == Keys(c, minutes) + {Key(x.time, minutes)}
    ensures forall key :: Members(c + [x], key, minutes) ==
                          Members(c, key, minutes) + if Key(x.time, minutes) == key then [x] else []
  {
    hide Key;
    assert (c + [x])[..|c|] == c;
    forall y
      ensures y in c + [x] <==> y in c || y == x
    {
    }
  }

  lemma {:induction false} MembersOf(c: seq<Candle>, key: int, minutes: int)
    requires minutes > 0
    ensures Members(c, key, minutes) != [] <==> key in Keys(c, minutes)
  {
    hide Key, Keys, Members;
    NoCandles(minutes);
    if c != [] {
      var n := |c| - 1;
      MembersOf(c[..n], key, minutes);
      assert c == c[..n] + [c[n]];
      AppendCandle(c[..n], c[n], minutes);
    }
  }

  ghost predicate Ascending(s: seq<int>) { forall i, j | 0 <= i < j < |s| :: s[i] < s[j] }

  lemma EmptyOrNot(s: set<int>)
    ensures s == {} || exists x :: x in s
  {
    if forall x :: x !in s { assert s == {}; }
  }

  predicate IsLeast(s: set<int>, x: int) { x in s && forall y | y in s :: x <= y }

  lemma HasLeast(s: set<int>)
    requires s != {}
    ensures exists x :: IsLeast(s, x)
  {
    EmptyOrNot(s);
    var x :| x in s;
    var rest := s - {x};
    assert s == rest + {x};
    if rest == {} {
      assert IsLeast(s, x);
    } else {
      HasLeast(rest);
      var z :| IsLeast(rest, z);
      LeastOfMore(rest, z, x);
    }
  }

  lemma LeastOfMore(s: set<int>, z: int, x: int)
    requires IsLeast(s, z)
    ensures IsLeast(s + {x}, if x <= z then x else z)
  {
  }

  function SortedKeys(s: set<int>): (r: seq<int>)
    ensures Ascending(r) && (forall k :: k in r <==> k in s)
  {
    if s == {} then []
    else
      HasLeast(s);
      var x :| IsLeast(s, x);
      [x] + SortedKeys(s - {x})
  }

  /** `x` is the candle of the bucket `key`, which has members. */
  ghost predicate IsBucket(c: seq<Candle>, minutes: int, key: int, x: Candle)
    requires minutes > 0
  {
    Members(c, key, minutes) != [] && x == Fold(key, Members(c, key, minutes))
  }

  /** One candle per bucket that has members, in time order, folded from its members. */
  ghost predicate IsResample(c: seq<Candle>, minutes: int, keys: seq<int>, out: seq<Candle>)
    requires minutes > 0
  {
    && Ascending(keys) && (forall k :: k in keys <==> k in Keys(c, minutes))
    && |out| == |keys|
    && forall i | 0 <= i < |out| :: IsBucket(c, minutes, keys[i], out[i])
  }

  /** First pass: candles by bucket key, in arrival order. */
  method GroupByKey(candles: seq<Candle>, minutes: int) returns (groups: map<int, seq<Candle>>)
    requires minutes > 0
    ensures groups.Keys == Keys(candles, minutes)
    ensures forall k | k in groups :: groups[k] == Members(candles, k, minutes)
  {
    hide Key, Members, Keys;
    var bucket := minutes * 60;
    groups := map[];
    NoCandles(minutes);
    for i := 0 to |candles|
      invariant groups.Keys == Keys(candles[..i], minutes)
      invariant forall k | k in groups :: groups[k] == Members(candles[..i], k, minutes)
    {
      var c := candles[i];
      var key := TruncSeconds(c.time) / bucket * bucket;
      KeyDefinition(c.time, minutes);
      AppendCandle(candles[..i], c, minutes);
      assert candles[..i + 1] == candles[..i] + [c];
      MembersOf(candles[..i], key, minutes);
      groups := groups[key := (if key in groups then groups[key] else []) + [c]];
    }
    assert candles[..|candles|] == candles;
  }

  method ResampleCandles(candles: seq<Candle>, minutes: int) returns (out: seq<Candle>, ghost keys: seq<int>)
    ensures minutes <= 1 ==> out == candles
    ensures minutes > 1 ==> IsResample(candles, minutes, keys, out)
  {
    hide Key, Members, Keys;
    out, keys := [], [];
    if minutes >= 1 { NoCandles(minutes); }
    if minutes <= 1 || candles == [] { return candles, keys; }
    var groups := GroupByKey(candles, minutes);
    var sorted := SortedKeys(groups.Keys);
    keys := sorted;
    for i := 0 to |sorted|
      invariant |out| == i
      invariant forall k | 0 <= k < i :: IsBucket(candles, minutes, sorted[k], out[k])
    {
      var key := sorted[i];
      MembersOf(candles, key, minutes);
      var g := groups[key];
      out := out + [Candle(key * SECOND, g[0].open, MaxHigh(g), MinLow(g), g[|g| - 1].close, SumTicks(g))];
    }
  }

  lemma KeyDefinition(ts: int, minutes: int)
    requires minutes > 0
    ensures Key(ts, minutes) == TruncSeconds(ts) / (minutes * 60) * (minutes * 60)
  {
  }

  // ---------------------------------------------------------------- the result is determined

  /** Every element of `a` is bounded by the last of `b`. */
  lemma SameEnd(a: seq<int>, b: seq<int>)
    requires Ascending(b) && forall k :: k in a ==> k in b
    ensures a != [] ==> b != [] && a[|a| - 1] <= b[|b| - 1]
  {
    if a != [] {
      assert a[|a| - 1] in a;
      var j :| 0 <= j < |b| && b[j] == a[|a| - 1];
    }
  }

  lemma {:induction false} AscendingUnique(a: seq<int>, b: seq<int>)
    requires Ascending(a) && Ascending(b) && forall k :: k in a <==> k in b
    ensures a == b
  {
    SameEnd(a, b);
    SameEnd(b, a);
    if a != [] {
      var n, m := |a| - 1, |b| - 1;
      forall k
        ensures k in a[..n] <==> k in b[..m]
      {
        assert k in a <==> k in a[..n] || k == a[n];
        assert k in b <==> k in b[..m] || k == b[m];
      }
      AscendingUnique(a[..n], b[..m]);
    }
  }

  lemma ResampleUnique(c: seq<Candle>, minutes: int, keys1: seq<int>, out1: seq<Candle>, keys2: seq<int>,
                       out2: seq<Candle>)
    requires minutes > 0 && IsResample(c, minutes, keys1, out1) && IsResample(c, minutes, keys2, out2)
    ensures keys1 == keys2 && out1 == out2
  {
    AscendingUnique(keys1, keys2);
  }

  // ---------------------------------------------------------------- resampling twice

  lemma TruncWhole(seconds: int)
    ensures TruncSeconds(seconds * SECOND) == seconds
  {
  }

  lemma KeyOfKey(ts: int, minutes: int)
    requires minutes > 0
    ensures Key(Key(ts, minutes) * SECOND, minutes) == Key(ts, minutes)
  {
    hide TruncSeconds;
    var bucket := minutes * 60;
    var q := TruncSeconds(ts) / bucket;
    TruncWhole(q * bucket);
    B.DivIs(q * bucket, bucket, q);
  }

  lemma FoldOne(key: int, x: Candle)
    requires x.time == key * SECOND
    ensures Fold(key, [x]) == x
  {
    assert [x][..0] == [];
    assert SumTicks([x]) == SumTicks([]) + x.tickVolume;
  }

  lemma {:induction false} DistinctMembers(out: seq<Candle>, i: nat, minutes: int)
    requires minutes > 0 && i < |out|
    requires forall j, k | 0 <= j < k < |out| :: Key(out[j].time, minutes) != Key(out[k].time, minutes)
    ensures Members(out, Key(out[i].time, minutes), minutes) == [out[i]]
  {
    hide Key;
    var n := |out| - 1;
    if i < n {
      DistinctMembers(out[..n], i, minutes);
    } else {
      MembersOf(out[..n], Key(out[n].time, minutes), minutes);
    }
  }

  /** Resampling the result at the same width changes nothing, for candles in any order. */
  lemma ResampleIdempotent(c: seq<Candle>, minutes: int, keys: seq<int>, out: seq<Candle>)
    requires minutes > 0 && IsResample(c, minutes, keys, out)
    ensures IsResample(out, minutes, keys, out)
  {
    hide Key;
    forall i | 0 <= i < |out|
      ensures Key(out[i].time, minutes) == keys[i]
    {
      assert IsBucket(c, minutes, keys[i], out[i]);
      assert keys[i] in Keys(c, minutes);
      var x :| x in c && Key(x.time, minutes) == keys[i];
      KeyOfKey(x.time, minutes);
    }
    forall i | 0 <= i < |out|
      ensures Members(out, keys[i], minutes) == [out[i]] && out[i] == Fold(keys[i], [out[i]])
    {
      DistinctMembers(out, i, minutes);
      FoldOne(keys[i], out[i]);
    }
    forall k
      ensures k in keys <==> k in Keys(out, minutes)
    {
      if k in keys {
        var i :| 0 <= i < |keys| && keys[i] == k;
        assert out[i] in out;
      }
    }
  }
}
