/** The dashboard's batch aggregation and the incremental builder give the same candles on an
    ascending stream, exactly as far as their two bucket functions agree. */
module ResampleAgreement {
  import opened Common
  import opened Resample
  import B = Bars
  import O = OhlcBuilder

  /** A fractional second before the epoch, within the last second of a bucket: the integer cast
      rounds it up into the next bucket, the builder's floor does not. */
  predicate Straddles(ts: int, minutes: int)
    requires minutes > 0
  {
    ts < 0 && ts % SECOND != 0 && (ts / SECOND + 1) % (minutes * 60) == 0
  }

  lemma DivNest(x: int, a: int, b: int)
    requires a > 0 && b > 0
    ensures b * a > 0
    ensures x / a / b == x / (b * a)
  {
    B.MulCompare(0, b, a);
    B.ModBounds(x, a);
    B.ModBounds(x / a, b);
    var q := x / a / b;
    B.MulAssociates(q, b, a);
    B.MulAssociates(q + 1, b, a);
    B.MulCompare(q * b, x / a, a);
    B.MulCompare(x / a + 1, (q + 1) * b, a);
    B.DivIs(x, b * a, q);
  }

  lemma StepCrosses(s: int, b: int)
    requires b > 0
    ensures s / b == (s + 1) / b <==> (s + 1) % b != 0
  {
    B.ModBounds(s, b);
    B.ModBounds(s + 1, b);
    var q := s / b;
    if (s + 1) - q * b < b {
      B.DivIs(s + 1, b, q);
    } else {
      B.DivIs(s + 1, b, q + 1);
    }
  }

  lemma TruncFloor(ts: int)
    ensures TruncSeconds(ts) == if ts < 0 && ts % SECOND != 0 then ts / SECOND + 1 else ts / SECOND
  {
  }

  lemma MinuteSeconds(ts: int)
    ensures ts / B.MINUTE == ts / SECOND / 60
  {
    DivNest(ts, SECOND, 60);
  }

  /** The two bucket functions agree on a timestamp exactly when it does not straddle. */
  lemma BucketsAgree(ts: int, minutes: int)
    requires minutes > 0
    ensures Key(ts, minutes) * SECOND == B.BucketStart(ts, minutes) <==> !Straddles(ts, minutes)
  {
    var bucket := minutes * 60;
    var floor := ts / SECOND;
    TruncFloor(ts);
    MinuteSeconds(ts);
    B.ModBounds(floor / 60, minutes);
    DivNest(floor, 60, minutes);
    StepCrosses(floor, bucket);
    var q := floor / bucket;
    FloorScaled(floor / 60, minutes, q);
    MulInjective(TruncSeconds(ts) / bucket, q, bucket);
  }

  lemma FloorScaled(e: int, minutes: int, q: int)
    requires minutes > 0 && e / minutes == q
    ensures (e - e % minutes) * B.MINUTE == q * (minutes * 60) * SECOND
  {
    B.ModBounds(e, minutes);
  }

  lemma MulInjective(x: int, y: int, m: int)
    requires m > 0
    ensures x * m * SECOND == y * m * SECOND <==> x == y
  {
    B.MulCompare(x, y, m);
    B.MulCompare(y, x, m);
  }

  lemma KeyMonotone(s: int, t: int, minutes: int)
    requires minutes > 0 && s <= t
    ensures Key(s, minutes) <= Key(t, minutes)
  {
    TruncFloor(s);
    TruncFloor(t);
    DivMonotone(TruncSeconds(s), TruncSeconds(t), minutes * 60);
  }

  lemma DivMonotone(x: int, y: int, b: int)
    requires b > 0 && x <= y
    ensures x / b * b <= y / b * b
  {
    B.ModBounds(x, b);
    B.ModBounds(y, b);
    B.MulCompare(x / b, y / b + 1, b);
    B.MulCompare(x / b, y / b, b);
  }

  // ---------------------------------------------------------------- one more candle

  function Extend(a: Candle, x: Candle): Candle {
    a.(high := Max(a.high, x.high), low := Min(a.low, x.low), close := x.close,
       tickVolume := a.tickVolume + x.tickVolume)
  }

  lemma FoldAppend(key: int, g: seq<Candle>, x: Candle)
    requires g != []
    ensures Fold(key, g + [x]) == Extend(Fold(key, g), x)
  {
    assert (g + [x])[..|g|] == g;
  }

  lemma ResampleStarts(c: seq<Candle>, x: Candle, minutes: int, keys: seq<int>, out: seq<Candle>)
    requires minutes > 0 && IsResample(c, minutes, keys, out)
    requires forall k | k in keys :: k < Key(x.time, minutes)
    ensures IsResample(c + [x], minutes, keys + [Key(x.time, minutes)], out + [Fold(Key(x.time, minutes), [x])])
  {
    hide Key, Members, Keys, Fold;
    AppendCandle(c, x, minutes);
    var key := Key(x.time, minutes);
    MembersOf(c, key, minutes);
    forall i | 0 <= i < |keys|
      ensures keys[i] < key
    {
      assert keys[i] in keys;
    }
    forall k
      ensures k in keys + [key] <==> k in Keys(c + [x], minutes)
    {
      assert k in keys + [key] <==> k in keys || k == key;
    }
    forall i | 0 <= i < |keys| + 1
      ensures IsBucket(c + [x], minutes, (keys + [key])[i], (out + [Fold(key, [x])])[i])
    {
      if i < |keys| {
        assert IsBucket(c, minutes, keys[i], out[i]) && keys[i] in keys;
        assert Members(c + [x], keys[i], minutes) == Members(c, keys[i], minutes);
      } else {
        assert Members(c + [x], key, minutes) == [x];
      }
    }
  }

  lemma ResampleExtends(c: seq<Candle>, x: Candle, minutes: int, keys: seq<int>, out: seq<Candle>)
    requires minutes > 0 && IsResample(c, minutes, keys, out)
    requires keys != [] && keys[|keys| - 1] == Key(x.time, minutes)
    ensures var n := |keys| - 1; IsResample(c + [x], minutes, keys, out[..n] + [Extend(out[n], x)])
  {
    hide Key, Members, Keys, Fold, Extend;
    AppendCandle(c, x, minutes);
    var n := |keys| - 1;
    assert IsBucket(c, minutes, keys[n], out[n]) && keys[n] in keys;
    FoldAppend(keys[n], Members(c, keys[n], minutes), x);
    assert Keys(c + [x], minutes) == Keys(c, minutes);
    forall i | 0 <= i < |keys|
      ensures IsBucket(c + [x], minutes, keys[i], (out[..n] + [Extend(out[n], x)])[i])
    {
      if i < n {
        assert IsBucket(c, minutes, keys[i], out[i]);
        assert Members(c + [x], keys[i], minutes) == Members(c, keys[i], minutes);
      }
    }
  }

  // ---------------------------------------------------------------- the builder's bars

  function ToCandle(b: B.Bar): Candle { Candle(b.time, b.open, b.high, b.low, b.close, b.tickVolume) }

  function ToCandles(h: seq<B.Bar>): seq<Candle> { seq(|h|, i requires 0 <= i < |h| => ToCandle(h[i])) }

  function KeysOf(bars: seq<B.Bar>): seq<int> { seq(|bars|, i requires 0 <= i < |bars| => bars[i].time / SECOND) }

  ghost predicate Chronological(h: seq<B.Bar>) { forall i, j | 0 <= i < j < |h| :: h[i].time <= h[j].time }

  /** The bars the builder holds are a resampling of the source, and the last one is the bucket
      of the last source bar. */
  ghost predicate Agrees(h: seq<B.Bar>, tf: B.Timeframe) {
    var bars := B.BarsOf(h, tf);
    && IsResample(ToCandles(h), tf.Minutes(), KeysOf(bars), ToCandles(bars))
    && (h == [] ==> bars == [])
    && (h != [] ==> bars != [] && bars[|bars| - 1].time == B.BucketStart(h[|h| - 1].time, tf.Minutes())
                    && KeysOf(bars)[|bars| - 1] == Key(h[|h| - 1].time, tf.Minutes()))
  }

  lemma AgreesStep(h: seq<B.Bar>, x: B.Bar, tf: B.Timeframe)
    requires Agrees(h, tf) && !Straddles(x.time, tf.Minutes())
    requires h != [] ==> h[|h| - 1].time <= x.time && !Straddles(h[|h| - 1].time, tf.Minutes())
    ensures Agrees(h + [x], tf)
  {
    hide Key, B.BucketStart, Members, Keys, B.BarsOf, IsResample, Straddles, Fold;
    var m, bars, key := tf.Minutes(), B.BarsOf(h, tf), Key(x.time, tf.Minutes());
    B.BarsOfAppend(h, x, tf);
    BucketsAgree(x.time, m);
    assert ToCandles(h + [x]) == ToCandles(h) + [ToCandle(x)];
    var n := |bars| - 1;
    var now := B.Absorb(bars, x, tf);
    if bars != [] && bars[n].time == B.BucketStart(x.time, m) {
      assert KeysOf(bars)[n] == key;
      ResampleExtends(ToCandles(h), ToCandle(x), m, KeysOf(bars), ToCandles(bars));
      assert KeysOf(now) == KeysOf(bars);
      assert ToCandles(now) == ToCandles(bars)[..n] + [Extend(ToCandles(bars)[n], ToCandle(x))];
    } else {
      if h != [] {
        BucketsAgree(h[|h| - 1].time, m);
        KeyMonotone(h[|h| - 1].time, x.time, m);
        LastKey(ToCandles(h), m, KeysOf(bars), ToCandles(bars));
      } else {
        assert KeysOf(bars) == [];
      }
      ResampleStarts(ToCandles(h), ToCandle(x), m, KeysOf(bars), ToCandles(bars));
      StartFold(x, tf);
      assert KeysOf(now) == KeysOf(bars) + [key];
      assert ToCandles(now) == ToCandles(bars) + [Fold(key, [ToCandle(x)])];
    }
  }

  lemma LastKey(c: seq<Candle>, minutes: int, keys: seq<int>, out: seq<Candle>)
    requires minutes > 0 && IsResample(c, minutes, keys, out) && keys != []
    ensures forall k | k in keys :: k <= keys[|keys| - 1]
  {
  }

  lemma StartFold(x: B.Bar, tf: B.Timeframe)
    requires Key(x.time, tf.Minutes()) * SECOND == B.BucketStart(x.time, tf.Minutes())
    ensures ToCandle(B.Start(x, tf)) == Fold(Key(x.time, tf.Minutes()), [ToCandle(x)])
    ensures B.Start(x, tf).time / SECOND == Key(x.time, tf.Minutes())
  {
    hide Key, B.BucketStart;
    var c := ToCandle(x);
    assert [c][..0] == [];
    assert SumTicks([c]) == SumTicks([]) + c.tickVolume;
  }

  lemma {:induction false} AllAgree(h: seq<B.Bar>, tf: B.Timeframe)
    requires Chronological(h) && forall i | 0 <= i < |h| :: !Straddles(h[i].time, tf.Minutes())
    ensures Agrees(h, tf)
  {
    if h == [] {
      NoCandles(tf.Minutes());
    } else {
      var n := |h| - 1;
      AllAgree(h[..n], tf);
      AgreesStep(h[..n], h[n], tf);
      assert h[..n] + [h[n]] == h;
    }
  }

  /** Whatever the batch function returns is what the builder holds: always from the epoch on, and
      before it as long as no candle straddles. */
  lemma BatchEqualsIncremental(b: O.OHLCBuilder, tf: B.Timeframe, keys: seq<int>, out: seq<Candle>)
    requires b.Valid() && tf != B.M1
    requires Chronological(b.history) && forall i | 0 <= i < |b.history| :: !Straddles(b.history[i].time, tf.Minutes())
    requires IsResample(ToCandles(b.history), tf.Minutes(), keys, out)
    ensures out == ToCandles(O.Held(O.ClosedOf(b.closed, tf), O.OpenOf(b.open, tf)))
  {
    hide B.BarsOf;
    assert O.Built(b.history, tf, b.closed, b.open);
    AllAgree(b.history, tf);
    var bars := B.BarsOf(b.history, tf);
    ResampleUnique(ToCandles(b.history), tf.Minutes(), keys, out, KeysOf(bars), ToCandles(bars));
  }

  /** Half a second before the epoch the batch function is one five-minute bucket ahead. */
  lemma BeforeTheEpoch()
    ensures Key(-500_000, 5) * SECOND == 0 && B.BucketStart(-500_000, 5) == -5 * B.MINUTE
  {
  }
}
