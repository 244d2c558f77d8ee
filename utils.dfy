/** Indicator and sizing helpers of the trading bot: array statistics, the up/down move split
    behind RSI, relative volume, VWAP, order sizing, the increment-to-decimals rule, the slope
    bucket classifier, the wake-interval parser and the stable metric sort. */
module Utils {
  import opened Js
  import opened Snapshot

  // ---------------------------------------------------------------------------------------
  // Array statistics
  // ---------------------------------------------------------------------------------------

  /** `sumArr`: a left fold with `+` starting from 0. */
  function Sum(vals: seq<real>): real
  {
    if vals == [] then 0.0 else Sum(vals[..|vals| - 1]) + vals[|vals| - 1]
  }

  lemma {:induction false} SumAppend(a: seq<real>, b: seq<real>)
    ensures Sum(a + b) == Sum(a) + Sum(b)
    decreases |b|
  {
    if b == [] {
      assert a + b == a;
    } else {
      assert (a + b)[..|a + b| - 1] == a + b[..|b| - 1];
      SumAppend(a, b[..|b| - 1]);
    }
  }

  /** Summing from the front gives the same total as the left fold. */
  lemma SumFront(vals: seq<real>)
    requires vals != []
    ensures Sum(vals) == vals[0] + Sum(vals[1..])
  {
    SumAppend([vals[0]], vals[1..]);
    assert [vals[0]] + vals[1..] == vals;
  }

  /** Subtracting a constant from every element takes `n * c` off the sum. */
  lemma {:induction false} SumShift(vals: seq<real>, c: real)
    ensures Sum(seq(|vals|, i requires 0 <= i < |vals| => vals[i] - c)) == Sum(vals) - |vals| as real * c
    decreases |vals|
  {
    var shifted := seq(|vals|, i requires 0 <= i < |vals| => vals[i] - c);
    if vals != [] {
      var init := vals[..|vals| - 1];
      SumShift(init, c);
      assert shifted[..|shifted| - 1] == seq(|init|, i requires 0 <= i < |init| => init[i] - c);
    }
  }

  lemma {:induction false} SumNonNegative(vals: seq<real>)
    requires forall i :: 0 <= i < |vals| ==> vals[i] >= 0.0
    ensures Sum(vals) >= 0.0
    decreases |vals|
  {
    if vals != [] {
      SumNonNegative(vals[..|vals| - 1]);
    }
  }

  lemma {:induction false} SumPositive(vals: seq<real>)
    requires vals != []
    requires forall i :: 0 <= i < |vals| ==> vals[i] > 0.0
    ensures Sum(vals) > 0.0
    decreases |vals|
  {
    if |vals| > 1 {
      SumPositive(vals[..|vals| - 1]);
    }
  }

  lemma {:induction false} SumAllZero(vals: seq<real>)
    requires forall i :: 0 <= i < |vals| ==> vals[i] == 0.0
    ensures Sum(vals) == 0.0
    decreases |vals|
  {
    if vals != [] {
      SumAllZero(vals[..|vals| - 1]);
    }
  }

  /** `meanArr`: sum over length; the empty array gives `0 / 0`, that is NaN (`None`). */
  function Mean(vals: seq<real>): (r: Option<real>)
    ensures r.Some? <==> |vals| > 0
    ensures r.Some? ==> r.value * |vals| as real == Sum(vals)
  {
    if |vals| == 0 then None else Some(Sum(vals) / |vals| as real)
  }

  /** `getDeltaYs`: each value's deviation from the mean. */
  function DeltaYs(vals: seq<real>): (r: seq<real>)
    ensures |r| == |vals|
  {
    if vals == [] then [] else seq(|vals|, i requires 0 <= i < |vals| => vals[i] - Mean(vals).value)
  }

  /** The deviations from the mean add up to zero. */
  lemma DeltaYsSumZero(vals: seq<real>)
    ensures Sum(DeltaYs(vals)) == 0.0
  {
    if vals != [] {
      SumShift(vals, Mean(vals).value);
    }
  }

  lemma DeltaYsExample()
    ensures DeltaYs([2.0, 4.0, 1.0, 2.0, 1.0]) == [0.0, 2.0, -1.0, 0.0, -1.0]
  {
    var v := [2.0, 4.0, 1.0, 2.0, 1.0];
    SumOfLiteral5(v);
    assert Mean(v).value == 2.0;
  }

  /** `squareArr`. */
  function SquareArr(vals: seq<real>): (r: seq<real>)
    ensures |r| == |vals|
    ensures forall i :: 0 <= i < |r| ==> r[i] >= 0.0
  {
    seq(|vals|, i requires 0 <= i < |vals| => vals[i] * vals[i])
  }

  /** `calculateVariance`: the mean squared deviation; 0 for the empty array. */
  function Variance(vals: seq<real>): (r: real)
    ensures r >= 0.0
  {
    if |vals| == 0 then 0.0
    else
      SumNonNegative(SquareArr(DeltaYs(vals)));
      Sum(SquareArr(DeltaYs(vals))) / |vals| as real
  }

  /** A constant series has no variance. */
  lemma VarianceOfConstant(vals: seq<real>, c: real)
    requires forall i :: 0 <= i < |vals| ==> vals[i] == c
    ensures Variance(vals) == 0.0
  {
    if vals != [] {
      var n := |vals| as real;
      assert Sum(vals) == n * c by {
        SumShift(vals, c);
        SumAllZero(seq(|vals|, i requires 0 <= i < |vals| => vals[i] - c));
      }
      assert Mean(vals).value == c;
      SumAllZero(SquareArr(DeltaYs(vals)));
    }
  }

  lemma VarianceOneToTen()
    ensures Variance([1.0, 2.0, 3.0, 4.0, 5.0, 6.0, 7.0, 8.0, 9.0, 10.0]) == 8.25
  {
    var v := [1.0, 2.0, 3.0, 4.0, 5.0, 6.0, 7.0, 8.0, 9.0, 10.0];
    SumOfLiteral10(v);
    assert Mean(v).value == 5.5;
    var d := DeltaYs(v);
    assert d == [-4.5, -3.5, -2.5, -1.5, -0.5, 0.5, 1.5, 2.5, 3.5, 4.5];
    var sq := SquareArr(d);
    assert sq == [20.25, 12.25, 6.25, 2.25, 0.25, 0.25, 2.25, 6.25, 12.25, 20.25];
    SumOfLiteral10(sq);
  }

  lemma SumOfLiteral10(v: seq<real>)
    requires |v| == 10
    ensures Sum(v) == v[0] + v[1] + v[2] + v[3] + v[4] + v[5] + v[6] + v[7] + v[8] + v[9]
  {
    SumAppend(v[..5], v[5..]);
    assert v[..5] + v[5..] == v;
    SumOfLiteral5(v[..5]);
    SumOfLiteral5(v[5..]);
  }

  lemma SumOfLiteral5(v: seq<real>)
    requires |v| == 5
    ensures Sum(v) == v[0] + v[1] + v[2] + v[3] + v[4]
  {
    var e: seq<real> := [];
    assert Sum(e) == 0.0;
    SumSnoc(e, v[0]);
    assert e + [v[0]] == [v[0]];
    SumSnoc([v[0]], v[1]);
    assert [v[0]] + [v[1]] == [v[0], v[1]];
    SumSnoc([v[0], v[1]], v[2]);
    assert [v[0], v[1]] + [v[2]] == [v[0], v[1], v[2]];
    SumSnoc([v[0], v[1], v[2]], v[3]);
    assert [v[0], v[1], v[2]] + [v[3]] == [v[0], v[1], v[2], v[3]];
    SumSnoc([v[0], v[1], v[2], v[3]], v[4]);
    assert [v[0], v[1], v[2], v[3]] + [v[4]] == v;
  }

  lemma SumSnoc(s: seq<real>, x: real)
    ensures Sum(s + [x]) == Sum(s) + x
  {
    assert (s + [x])[..|s|] == s;
  }

  // ---------------------------------------------------------------------------------------
  // RSI and relative volume
  // ---------------------------------------------------------------------------------------

  /** The `direction` argument of `calcAverageMoves`: "up", or anything else for down. */
  datatype Direction = Up | Down

  /** The closing-price moves `calcAverageMoves` collects, oldest first: a close at or above the
      previous close is an up move of their difference, one strictly below it a down move of
      the previous close minus this one. */
  function Moves(history: seq<Candle>, dir: Direction): seq<real>
  {
    if |history| < 2 then []
    else
      Moves(history[..|history| - 1], dir) + Step(history[|history| - 2], history[|history| - 1], dir)
  }

  function Step(prev: Candle, cur: Candle, dir: Direction): seq<real>
  {
    match dir
    case Up => if cur.close >= prev.close then [cur.close - prev.close] else []
    case Down => if cur.close < prev.close then [prev.close - cur.close] else []
  }

  /** `calcAverageMoves`: walks the candles after the first, pushing each move in the requested
      direction, and returns their mean (NaN when there is none). */
  method CalcAverageMoves(history: seq<Candle>, dir: Direction) returns (avg: Option<real>)
    ensures avg == Mean(Moves(history, dir))
  {
    var changes: seq<real> := [];
    var i := 1;
    while i < |history|
      invariant 1 <= i
      invariant changes == Moves(history[..if i < |history| then i else |history|], dir)
    {
      var candle, before := history[i], history[i - 1];
      match dir {
        case Up =>
          if candle.close >= before.close {
            changes := changes + [candle.close - before.close];
          }
        case Down =>
          if candle.close < before.close {
            changes := changes + [before.close - candle.close];
          }
      }
      assert history[..i + 1][..i] == history[..i];
      i := i + 1;
    }
    assert history[..|history|] == history;
    avg := Mean(changes);
  }

  /** Every recorded move is a non-negative amount, and every down move is positive. */
  lemma {:induction false} MovesNonNegative(history: seq<Candle>, dir: Direction)
    ensures forall i :: 0 <= i < |Moves(history, dir)| ==> Moves(history, dir)[i] >= 0.0
    ensures dir == Down ==> forall i :: 0 <= i < |Moves(history, dir)| ==> Moves(history, dir)[i] > 0.0
    decreases |history|
  {
    if |history| >= 2 {
      MovesNonNegative(history[..|history| - 1], dir);
    }
  }

  /** Each of the `n - 1` consecutive pairs is counted exactly once, as up or as down. */
  lemma {:induction false} MovesPartition(history: seq<Candle>)
    ensures |Moves(history, Up)| + |Moves(history, Down)| == if |history| == 0 then 0 else |history| - 1
    decreases |history|
  {
    if |history| >= 2 {
      MovesPartition(history[..|history| - 1]);
    }
  }

  /** The average up move is never negative and the average down move is positive. */
  lemma AverageMoveSigns(history: seq<Candle>)
    ensures Mean(Moves(history, Up)).Some? ==> Mean(Moves(history, Up)).value >= 0.0
    ensures Mean(Moves(history, Down)).Some? ==> Mean(Moves(history, Down)).value > 0.0
  {
    var ups, downs := Moves(history, Up), Moves(history, Down);
    MovesNonNegative(history, Up);
    MovesNonNegative(history, Down);
    if |ups| > 0 {
      SumNonNegative(ups);
      MeanSign(ups);
    }
    if |downs| > 0 {
      SumPositive(downs);
      MeanSign(downs);
    }
  }

  lemma MeanSign(vals: seq<real>)
    requires |vals| > 0
    ensures Sum(vals) >= 0.0 ==> Mean(vals).value >= 0.0
    ensures Sum(vals) > 0.0 ==> Mean(vals).value > 0.0
  {
    var n := |vals| as real;
    assert Mean(vals).value == Sum(vals) / n;
  }

  /** The RSI formula `100 - 100 / (1 + up / down)`: for a non-negative average gain and a
      positive average loss it lies in [0, 100) and equals `100 * up / (up + down)`. */
  function RsiFormula(up: real, down: real): (r: real)
    requires up >= 0.0 && down > 0.0
    ensures 0.0 <= r < 100.0
    ensures r * (up + down) == 100.0 * up
  {
    RsiAlgebra(up, down);
    100.0 - 100.0 / (1.0 + up / down)
  }

  lemma RsiAlgebra(up: real, down: real)
    requires up >= 0.0 && down > 0.0
    ensures var r := 100.0 - 100.0 / (1.0 + up / down);
            0.0 <= r < 100.0 && r * (up + down) == 100.0 * up
  {
    var rs := up / down;
    assert rs * down == up;
    assert rs >= 0.0;
    var q := 100.0 / (1.0 + rs);
    assert q * (1.0 + rs) == 100.0;
    assert 0.0 < q <= 100.0;
    assert (100.0 - q) * (up + down) == 100.0 * up by {
      assert (1.0 + rs) * down == up + down;
      assert q * (up + down) == q * (1.0 + rs) * down;
    }
  }

  /** `calculateRSI` on the average up and down moves. A series without up moves or without
      down moves averages `0 / 0` on that side and gives NaN (`None`). */
  function Rsi(history: seq<Candle>): (r: Option<real>)
  {
    if |Moves(history, Up)| == 0 || |Moves(history, Down)| == 0 then None
    else
      AverageMoveSigns(history);
      Some(RsiFormula(Mean(Moves(history, Up)).value, Mean(Moves(history, Down)).value))
  }

  /** RSI is defined exactly when the series has both an up and a down move, and then lies in
      [0, 100), equal to `100 * up / (up + down)`. */
  lemma RsiRange(history: seq<Candle>)
    ensures Rsi(history).Some? <==> |Moves(history, Up)| > 0 && |Moves(history, Down)| > 0
    ensures Rsi(history).Some? ==>
      && 0.0 <= Rsi(history).value < 100.0
      && Rsi(history).value * (Mean(Moves(history, Up)).value + Mean(Moves(history, Down)).value)
         == 100.0 * Mean(Moves(history, Up)).value
  {
  }

  /** A series that only rises has no down moves, so its RSI is NaN rather than 100. */
  lemma RsiOfRisingSeries(history: seq<Candle>)
    requires forall i :: 0 < i < |history| ==> history[i - 1].close <= history[i].close
    ensures Rsi(history).None?
  {
    NoDownMoves(history);
  }

  lemma {:induction false} NoDownMoves(history: seq<Candle>)
    requires forall i :: 0 < i < |history| ==> history[i - 1].close <= history[i].close
    ensures Moves(history, Down) == []
    decreases |history|
  {
    if |history| >= 2 {
      NoDownMoves(history[..|history| - 1]);
    }
  }

  /** `array.slice(-n)`: the last `n` elements for positive `n`; for `n <= 0` the start index
      `-n` counts from the front, so `slice(-0)` is the whole array. */
  function SliceFromEnd<T>(s: seq<T>, n: int): (r: seq<T>)
    ensures n > 0 ==> r == s[|s| - (if n < |s| then n else |s|)..]
    ensures n <= 0 ==> r == s[(if -n < |s| then -n else |s|)..]
  {
    if n > 0 then s[|s| - (if n < |s| then n else |s|)..]
    else s[(if -n < |s| then -n else |s|)..]
  }

  function Volumes(history: seq<Candle>): (r: seq<real>)
    ensures |r| == |history|
    ensures forall i :: 0 <= i < |history| ==> r[i] == history[i].volume
  {
    seq(|history|, i requires 0 <= i < |history| => history[i].volume)
  }

  /** A JavaScript division whose operands may be NaN: a zero divisor gives NaN or an
      infinity, either of which is `None` here. */
  function DivOpt(a: Option<real>, b: Option<real>): (r: Option<real>)
    ensures r.Some? <==> a.Some? && b.Some? && b.value != 0.0
  {
    if a.Some? && b.Some? && b.value != 0.0 then Some(a.value / b.value) else None
  }

  /** `calculateRelativeVolume`: mean volume of `slice(-n)` over the mean volume of the whole
      history. */
  function RelativeVolume(history: seq<Candle>, n: int): Option<real>
  {
    DivOpt(Mean(Volumes(SliceFromEnd(history, n))), Mean(Volumes(history)))
  }

  /** A window that covers the whole history (including `n == 0`) has relative volume 1, and
      so does any non-empty window of a series traded at one constant non-zero volume. */
  lemma RelativeVolumeOfWholeWindow(history: seq<Candle>, n: int)
    requires n == 0 || n >= |history|
    requires Sum(Volumes(history)) != 0.0
    ensures RelativeVolume(history, n) == Some(1.0)
  {
    assert SliceFromEnd(history, n) == history;
    var m := Mean(Volumes(history));
    assert m.value * |history| as real != 0.0;
    DivSelf(m.value);
  }

  lemma DivSelf(x: real)
    requires x != 0.0
    ensures x / x == 1.0
  {
  }

  lemma RelativeVolumeOfConstantVolume(history: seq<Candle>, n: int, v: real)
    requires v != 0.0 && |SliceFromEnd(history, n)| > 0
    requires forall i :: 0 <= i < |history| ==> history[i].volume == v
    ensures RelativeVolume(history, n) == Some(1.0)
  {
    var w := SliceFromEnd(history, n);
    MeanOfConstant(Volumes(w), v);
    MeanOfConstant(Volumes(history), v);
    DivSelf(v);
  }

  lemma MeanOfConstant(vals: seq<real>, c: real)
    requires |vals| > 0
    requires forall i :: 0 <= i < |vals| ==> vals[i] == c
    ensures Mean(vals) == Some(c)
  {
    var n := |vals| as real;
    SumShift(vals, c);
    SumAllZero(seq(|vals|, i requires 0 <= i < |vals| => vals[i] - c));
    assert Sum(vals) == n * c;
    assert Mean(vals).value == (n * c) / n;
    MulDivCancel(n, c);
  }

  lemma MulDivCancel(n: real, c: real)
    requires n > 0.0
    ensures (n * c) / n == c
  {
  }

  // ---------------------------------------------------------------------------------------
  // VWAP
  // ---------------------------------------------------------------------------------------

  /** `meanArr([low, high, close])`, the candle's typical price. */
  function Typical(c: Candle): real
  {
    (c.low + c.high + c.close) / 3.0
  }

  function PriceVolumes(history: seq<Candle>): (r: seq<real>)
    ensures |r| == |history|
  {
    seq(|history|, i requires 0 <= i < |history| => Typical(history[i]) * history[i].volume)
  }

  /** `calculateVWAP`: the volume-weighted typical price, rounded with `toFixed(2)`. A history
      with zero total volume (the empty one included) divides by zero: `None`. */
  function Vwap(history: seq<Candle>): (r: Option<real>)
    ensures r.Some? <==> Sum(Volumes(history)) != 0.0
  {
    var vs := Sum(Volumes(history));
    if vs == 0.0 then None else Some(ToFixed(Sum(PriceVolumes(history)) / vs, 2))
  }

  /** With non-negative volumes, the VWAP lies between the smallest and the largest typical
      price, up to the half cent `toFixed(2)` may add or remove. */
  lemma VwapBetweenTypicalPrices(history: seq<Candle>, lo: real, hi: real)
    requires forall i :: 0 <= i < |history| ==> history[i].volume >= 0.0
    requires forall i :: 0 <= i < |history| ==> lo <= Typical(history[i]) <= hi
    requires Sum(Volumes(history)) != 0.0
    ensures lo - 0.005 <= Vwap(history).value <= hi + 0.005
  {
    var vs := Sum(Volumes(history));
    var pvs := Sum(PriceVolumes(history));
    WeightedBounds(history, lo, hi);
    SumNonNegative(Volumes(history));
    var q := pvs / vs;
    QuotientBetween(pvs, vs, lo, hi);
    ToFixedClose(q, 2);
    assert HalfUnit(2) == 0.005 by { assert HalfUnit(1) == 0.05; }
  }

  lemma QuotientBetween(num: real, den: real, lo: real, hi: real)
    requires den > 0.0 && lo * den <= num <= hi * den
    ensures lo <= num / den <= hi
  {
    assert (num / den) * den == num;
  }

  /** Each candle's price-volume lies between `lo` and `hi` times its volume, hence so do the
      totals. */
  lemma WeightedBounds(history: seq<Candle>, lo: real, hi: real)
    requires forall i :: 0 <= i < |history| ==> history[i].volume >= 0.0
    requires forall i :: 0 <= i < |history| ==> lo <= Typical(history[i]) <= hi
    ensures lo * Sum(Volumes(history)) <= Sum(PriceVolumes(history)) <= hi * Sum(Volumes(history))
  {
    PriceVolumesBetween(history, lo, hi);
    SumBetweenScaled(Volumes(history), PriceVolumes(history), lo, hi);
  }

  lemma PriceVolumesBetween(history: seq<Candle>, lo: real, hi: real)
    requires forall i :: 0 <= i < |history| ==> history[i].volume >= 0.0
    requires forall i :: 0 <= i < |history| ==> lo <= Typical(history[i]) <= hi
    ensures forall i :: 0 <= i < |history| ==>
      lo * Volumes(history)[i] <= PriceVolumes(history)[i] <= hi * Volumes(history)[i]
  {
    var vs, pvs := Volumes(history), PriceVolumes(history);
    forall i | 0 <= i < |history|
      ensures lo * vs[i] <= pvs[i] <= hi * vs[i]
    {
      var t, v := Typical(history[i]), history[i].volume;
      assert vs[i] == v && pvs[i] == t * v;
      MulMonotone(lo, t, v);
      MulMonotone(t, hi, v);
    }
  }

  /** Terms between `lo` and `hi` times their weights sum to between `lo` and `hi` times the
      total weight. */
  lemma SumBetweenScaled(ws: seq<real>, ts: seq<real>, lo: real, hi: real)
    requires |ws| == |ts|
    requires forall i :: 0 <= i < |ws| ==> lo * ws[i] <= ts[i] <= hi * ws[i]
    ensures lo * Sum(ws) <= Sum(ts) <= hi * Sum(ws)
  {
    SumMonotone(Scaled(ws, lo), ts);
    SumMonotone(ts, Scaled(ws, hi));
    SumScale(ws, lo);
    SumScale(ws, hi);
  }

  /** Every element multiplied by `c`. */
  function Scaled(vals: seq<real>, c: real): (r: seq<real>)
    ensures |r| == |vals|
    ensures forall i :: 0 <= i < |vals| ==> r[i] == c * vals[i]
  {
    seq(|vals|, i requires 0 <= i < |vals| => c * vals[i])
  }

  /** Scaling every element scales the sum. */
  lemma {:induction false} SumScale(vals: seq<real>, c: real)
    ensures Sum(Scaled(vals, c)) == c * Sum(vals)
    decreases |vals|
  {
    if vals != [] {
      var k := |vals| - 1;
      SumScale(vals[..k], c);
      forall j | 0 <= j < k
        ensures Scaled(vals, c)[..k][j] == Scaled(vals[..k], c)[j]
      {
        assert vals[..k][j] == vals[j];
      }
      assert Scaled(vals, c)[..k] == Scaled(vals[..k], c);
      Distributes(c, Sum(vals[..k]), vals[k]);
    }
  }

  lemma Distributes(c: real, a: real, b: real)
    ensures c * a + c * b == c * (a + b)
  {
  }

  /** Summing keeps an element-wise order. */
  lemma {:induction false} SumMonotone(a: seq<real>, b: seq<real>)
    requires |a| == |b|
    requires forall i :: 0 <= i < |a| ==> a[i] <= b[i]
    ensures Sum(a) <= Sum(b)
    decreases |a|
  {
    if a != [] {
      SumMonotone(a[..|a| - 1], b[..|b| - 1]);
    }
  }

  lemma MulMonotone(a: real, b: real, w: real)
    requires a <= b && w >= 0.0
    ensures a * w <= b * w
  {
  }

  lemma VwapExample()
    ensures Vwap([Candle(0.0, 9.0, 11.0, 10.0, 10.0, 100.0),
                  Candle(0.0, 6.0, 10.0, 8.0, 8.0, 300.0),
                  Candle(0.0, 10.0, 12.0, 11.0, 11.0, 200.0)]) == Some(9.33)
  {
    var h := [Candle(0.0, 9.0, 11.0, 10.0, 10.0, 100.0),
              Candle(0.0, 6.0, 10.0, 8.0, 8.0, 300.0),
              Candle(0.0, 10.0, 12.0, 11.0, 11.0, 200.0)];
    assert Volumes(h) == [100.0, 300.0, 200.0];
    assert PriceVolumes(h) == [1000.0, 2400.0, 2200.0];
    assert Sum([100.0, 300.0, 200.0]) == 600.0 by {
      assert [100.0, 300.0, 200.0][..2][..1][..0] == [];
    }
    assert Sum([1000.0, 2400.0, 2200.0]) == 5600.0 by {
      assert [1000.0, 2400.0, 2200.0][..2][..1][..0] == [];
    }
    assert Pow10(2) == 100;
    RoundMagnitudeOf(5600.0 / 600.0, 100.0, 933);
  }

  // ---------------------------------------------------------------------------------------
  // Order sizing
  // ---------------------------------------------------------------------------------------

  /** `calcSize`: the quantity that spends `fraction` of `cash` at `price`. */
  function CalcSize(price: real, cash: real, fraction: real): (r: real)
    requires price != 0.0
    ensures r * price == cash * fraction
  {
    cash * fraction / price
  }

  lemma MulDivInverse(b: real, k: real)
    ensures k != 0.0 ==> (b * k) / k == b
  {
  }

  /** `isValidSize`: strictly above the product minimum. */
  predicate IsValidSize(size: real, minSize: real)
  {
    size > minSize
  }

  /** `calcLimitPrice`: the price `margin` above `buyPrice`. */
  function CalcLimitPrice(buyPrice: real, margin: real): (r: real)
    ensures 1.0 + margin != 0.0 ==> r / (1.0 + margin) == buyPrice
  {
    MulDivInverse(buyPrice, 1.0 + margin);
    buyPrice * (1.0 + margin)
  }

  lemma SizingExamples()
    ensures CalcSize(1000.0, 100.0, 0.5) == 0.05
    ensures !IsValidSize(0.0002, 0.01)
    ensures CalcLimitPrice(1000.0, 0.1) == 1100.0
    ensures forall m :: !IsValidSize(m, m)
  {
  }

  // ---------------------------------------------------------------------------------------
  // Size increments
  // ---------------------------------------------------------------------------------------

  /** `s.replace(c, "")` with a one-character string pattern: only the first occurrence goes. */
  function RemoveFirst(s: string, c: char): (r: string)
    ensures IndexOf(s, c) < |s| ==> r == s[..IndexOf(s, c)] + s[IndexOf(s, c) + 1..]
    ensures IndexOf(s, c) == |s| ==> r == s
  {
    var i := IndexOf(s, c);
    if i < |s| then s[..i] + s[i + 1..] else s
  }

  /** Length of the run of '0' characters at the start of `s`. */
  function ZeroRun(s: string): (n: nat)
    ensures n <= |s|
    ensures forall i :: 0 <= i < n ==> s[i] == '0'
    ensures n < |s| ==> s[n] != '0'
  {
    if s != [] && s[0] == '0' then 1 + ZeroRun(s[1..]) else 0
  }

  /** The regular-expression replace in `setSigDig` (leading zeros, a `1`, then zeros; kept
      without the trailing zeros): the leftmost match always ends its `1` at the first '1' of
      the string, so the net effect is to delete the zeros right after that '1'. */
  function DropZerosAfterFirstOne(s: string): string
  {
    var j := IndexOf(s, '1');
    if j == |s| then s else s[..j + 1] + s[j + 1 + ZeroRun(s[j + 1..])..]
  }

  /** The reduce in `setSigDig`: how many characters are not '1'. */
  function CountNonOnes(s: string): (n: nat)
    ensures n <= |s|
  {
    if s == [] then 0 else (if s[0] != '1' then 1 else 0) + CountNonOnes(s[1..])
  }

  /** The number of decimals `setSigDig` keeps for a size increment such as "0.0010000". */
  function DecimalPlaces(increment: string): nat
  {
    CountNonOnes(DropZerosAfterFirstOne(RemoveFirst(increment, '.')))
  }

  /** `setSigDig`: the size rounded with `toFixed` to the increment's number of decimals. */
  function SetSigDig(size: real, increment: string): real
  {
    ToFixed(size, DecimalPlaces(increment))
  }

  function Zeros(n: nat): (s: string)
    ensures |s| == n && forall i :: 0 <= i < n ==> s[i] == '0'
  {
    if n == 0 then "" else "0" + Zeros(n - 1)
  }

  /** An increment of `10^-d` written as the exchange writes it, "0.", `d - 1` zeros, "1" and
      any number of trailing zeros, yields exactly `d` decimals; "1." followed by zeros yields
      none. */
  lemma DecimalPlacesOfIncrement(d: nat, trailing: nat)
    ensures d > 0 ==> DecimalPlaces("0." + Zeros(d - 1) + "1" + Zeros(trailing)) == d
    ensures d == 0 ==> DecimalPlaces("1." + Zeros(trailing)) == 0
  {
    if d > 0 {
      var inc := "0." + Zeros(d - 1) + "1" + Zeros(trailing);
      assert IndexOf(inc, '.') == 1;
      var s := RemoveFirst(inc, '.');
      assert s == Zeros(d) + "1" + Zeros(trailing);
      assert s[d] == '1' && forall j :: 0 <= j < d ==> s[j] == '0';
      assert IndexOf(s, '1') == d;
      assert s[d + 1..] == Zeros(trailing);
      assert ZeroRun(Zeros(trailing)) == trailing;
      assert DropZerosAfterFirstOne(s) == Zeros(d) + "1";
      CountNonOnesOfZeros(d);
    } else {
      var inc := "1." + Zeros(trailing);
      assert IndexOf(inc, '.') == 1;
      var s := RemoveFirst(inc, '.');
      assert s == "1" + Zeros(trailing);
      assert IndexOf(s, '1') == 0;
      assert s[1..] == Zeros(trailing);
      assert ZeroRun(Zeros(trailing)) == trailing;
      assert DropZerosAfterFirstOne(s) == "1";
    }
  }

  lemma {:induction false} CountNonOnesOfZeros(d: nat)
    ensures CountNonOnes(Zeros(d) + "1") == d
    decreases d
  {
    if d > 0 {
      assert (Zeros(d) + "1")[1..] == Zeros(d - 1) + "1";
      CountNonOnesOfZeros(d - 1);
    }
  }

  /** So for such an increment the size is rounded to a multiple of the increment: it moves
      by at most half an increment. */
  lemma SetSigDigRoundsToIncrement(size: real, d: nat, trailing: nat)
    requires d > 0
    ensures var r := SetSigDig(size, "0." + Zeros(d - 1) + "1" + Zeros(trailing));
            Abs(r - size) <= HalfUnit(d)
  {
    DecimalPlacesOfIncrement(d, trailing);
    ToFixedClose(size, d);
  }

  lemma SetSigDigThousandths()
    ensures DecimalPlaces("0.0010000") == 3
    ensures SetSigDig(0.0239487, "0.0010000") == 0.024
  {
    assert "0.0010000" == "0." + Zeros(2) + "1" + Zeros(4) by {
      assert Zeros(2) == "00";
      assert Zeros(4) == "0000";
    }
    DecimalPlacesOfIncrement(3, 4);
    ToFixedThousandths();
  }

  lemma ToFixedThousandths()
    ensures ToFixed(0.0239487, 3) == 0.024
  {
    assert Pow10(3) == 1000 by {
      assert Pow10(2) == 100 by { assert Pow10(1) == 10; }
    }
    RoundMagnitudeOf(0.0239487, 1000.0, 24);
  }

  lemma SetSigDigUnits()
    ensures DecimalPlaces("1.0000000") == 0
    ensures SetSigDig(2.23452345, "1.0000000") == 2.0
  {
    assert "1.0000000" == "1." + Zeros(7) by {
      assert Zeros(7) == "0000000";
    }
    DecimalPlacesOfIncrement(0, 7);
    ToFixedUnits();
  }

  lemma ToFixedUnits()
    ensures ToFixed(2.23452345, 0) == 2.0
  {
    assert Pow10(0) == 1;
    RoundMagnitudeOf(2.23452345, 1.0, 2);
  }

  lemma SetSigDigHundredths()
    ensures DecimalPlaces("0.010000000") == 2
    ensures SetSigDig(1230.234235345, "0.010000000") == 1230.23
  {
    assert "0.010000000" == "0." + Zeros(1) + "1" + Zeros(7) by {
      assert Zeros(1) == "0";
      assert Zeros(7) == "0000000";
    }
    DecimalPlacesOfIncrement(2, 7);
    ToFixedHundredths();
  }

  lemma ToFixedHundredths()
    ensures ToFixed(1230.234235345, 2) == 1230.23
  {
    assert Pow10(2) == 100 by { assert Pow10(1) == 10; }
    RoundMagnitudeOf(1230.234235345, 100.0, 123023);
  }

  // ---------------------------------------------------------------------------------------
  // Slope buckets
  // ---------------------------------------------------------------------------------------

  /** `computeSlopeScore`: 1 strong bear, 2 bear, 3 flat, 4 bull, 5 strong bull, with edges at
      -0.0001, -0.00001, 0.00001 and 0.0001, each lower edge inclusive. */
  function SlopeScore(slope: real): (r: int)
    ensures 1 <= r <= 5
    ensures r == 1 <==> slope < -0.0001
    ensures r == 3 <==> -0.00001 <= slope < 0.00001
    ensures r == 5 <==> slope >= 0.0001
  {
    if slope < -0.0001 then 1
    else if slope >= -0.0001 && slope < -0.00001 then 2
    else if slope >= -0.00001 && slope < 0.00001 then 3
    else if slope >= 0.00001 && slope < 0.0001 then 4
    else 5
  }

  /** A steeper slope never lands in a lower bucket. */
  lemma SlopeScoreMonotone(a: real, b: real)
    requires a <= b
    ensures SlopeScore(a) <= SlopeScore(b)
  {
  }

  // ---------------------------------------------------------------------------------------
  // Wake interval shorthand
  // ---------------------------------------------------------------------------------------

  /** `unitFactors[unit]`: minutes per unit; seconds count as 0, other units are undefined. */
  function UnitFactor(unit: char): Option<int>
  {
    if unit == 's' then Some(0) else if unit == 'm' then Some(1) else if unit == 'h' then Some(60)
    else None
  }

  /** `convertTimeShortHandToMinutes`: the last character is the unit, the rest goes through
      `parseInt`; a product that is 0 or NaN becomes 1. */
  function ShortHandToMinutes(shorthand: string): (r: int)
    ensures r != 0
  {
    if shorthand == [] then 1
    else
      var n := ParseInt(shorthand[..|shorthand| - 1]);
      var f := UnitFactor(shorthand[|shorthand| - 1]);
      if n.Some? && f.Some? && n.value * f.value != 0 then n.value * f.value else 1
  }

  /** A run of digits followed by a unit letter: the digits' value times the unit's factor,
      or 1 when that product is 0 or the unit is unknown. */
  lemma ShortHandOfDigits(digits: string, unit: char)
    requires |digits| > 0 && AllDigits(digits)
    ensures unit == 'm' && DigitsValue(digits) > 0 ==> ShortHandToMinutes(digits + [unit]) == DigitsValue(digits)
    ensures unit == 'h' && DigitsValue(digits) > 0 ==> ShortHandToMinutes(digits + [unit]) == 60 * DigitsValue(digits)
    ensures unit == 's' || UnitFactor(unit).None? || DigitsValue(digits) == 0 ==> ShortHandToMinutes(digits + [unit]) == 1
  {
    var s := digits + [unit];
    assert s[..|s| - 1] == digits + [];
    ParseIntOfDigits(digits, []);
  }

  /** So "<n>m" is n minutes and "<n>h" is 60n minutes for the canonical spelling of any
      positive n, while seconds and unknown units fall back to 1. */
  lemma ShortHandOfNumber(n: nat, unit: char)
    requires n > 0
    ensures unit == 'm' ==> ShortHandToMinutes(NatToString(n) + [unit]) == n
    ensures unit == 'h' ==> ShortHandToMinutes(NatToString(n) + [unit]) == 60 * n
    ensures unit == 's' || UnitFactor(unit).None? ==> ShortHandToMinutes(NatToString(n) + [unit]) == 1
  {
    NatToStringValue(n);
    ShortHandOfDigits(NatToString(n), unit);
  }

  lemma ShortHandTenMinutes()
    ensures ShortHandToMinutes("10m") == 10
  {
    assert DigitsValue("10") == 10 by { assert "10"[..1] == "1"; }
    ShortHandOfDigits("10", 'm');
    assert "10" + ['m'] == "10m";
  }

  lemma ShortHandTwoHours()
    ensures ShortHandToMinutes("2h") == 120
  {
    ShortHandOfDigits("2", 'h');
    assert "2" + ['h'] == "2h";
  }

  lemma ShortHandSeconds()
    ensures ShortHandToMinutes("30s") == 1
  {
    ShortHandOfDigits("30", 's');
    assert "30" + ['s'] == "30s";
  }

  lemma ShortHandZero()
    ensures ShortHandToMinutes("0m") == 1
  {
    ShortHandOfDigits("0", 'm');
    assert "0" + ['m'] == "0m";
  }

  /** `parseInt` reads a "0x" prefix as hexadecimal, so "0x10m" is 16 minutes. */
  lemma ShortHandHex()
    ensures ShortHandToMinutes("0x10m") == 16
  {
    ParseIntHex();
    assert "0x10m"[..4] == "0x10";
  }

  // ---------------------------------------------------------------------------------------
  // Stable metric sort
  // ---------------------------------------------------------------------------------------

  /** lodash's ascending comparison: numbers in order, `undefined` after every number. */
  predicate KeyLt(a: Option<real>, b: Option<real>)
  {
    a.Some? && (b.None? || a.value < b.value)
  }

  predicate KeyLe(a: Option<real>, b: Option<real>)
  {
    !KeyLt(b, a)
  }

  function Key(e: (string, Product), metric: string): Option<real>
  {
    Metric(e.1, metric)
  }

  ghost predicate SortedBy(s: Dict<Product>, metric: string)
  {
    forall i, j :: 0 <= i < j < |s| ==> KeyLe(Key(s[i], metric), Key(s[j], metric))
  }

  /** The entries whose metric equals `v`, in their order. */
  function WithKey(s: Dict<Product>, metric: string, v: Option<real>): Dict<Product>
  {
    if s == [] then []
    else (if Key(s[0], metric) == v then [s[0]] else []) + WithKey(s[1..], metric, v)
  }

  /** Places `x` after every entry with a strictly smaller metric and before the rest. */
  function Insert(x: (string, Product), t: Dict<Product>, metric: string): (r: Dict<Product>)
    ensures multiset(r) == multiset(t) + multiset{x}
    ensures r[0] == x || (t != [] && r[0] == t[0])
  {
    if t == [] then [x]
    else if KeyLe(Key(x, metric), Key(t[0], metric)) then [x] + t
    else
      assert t == [t[0]] + t[1..];
      [t[0]] + Insert(x, t[1..], metric)
  }

  lemma {:induction false} InsertWithKey(x: (string, Product), t: Dict<Product>, metric: string, v: Option<real>)
    ensures WithKey(Insert(x, t, metric), metric, v) == (if Key(x, metric) == v then [x] else []) + WithKey(t, metric, v)
    decreases |t|
  {
    var r := Insert(x, t, metric);
    if t == [] {
      assert WithKey([x], metric, v) == (if Key(x, metric) == v then [x] else []) + WithKey([], metric, v) by {
        assert [x][1..] == [];
      }
    } else if KeyLe(Key(x, metric), Key(t[0], metric)) {
      assert r[1..] == t;
    } else {
      // x goes after t[0], whose metric is strictly smaller, so at most one of them is kept
      var rest := Insert(x, t[1..], metric);
      var a := if Key(t[0], metric) == v then [t[0]] else [];
      var b := if Key(x, metric) == v then [x] else [];
      InsertWithKey(x, t[1..], metric, v);
      assert r[0] == t[0] && r[1..] == rest;
      assert WithKey(r, metric, v) == a + WithKey(rest, metric, v);
      assert WithKey(t, metric, v) == a + WithKey(t[1..], metric, v);
      SwapEmpty(a, b, WithKey(t[1..], metric, v));
    }
  }

  lemma SwapEmpty<T>(a: seq<T>, b: seq<T>, w: seq<T>)
    requires a == [] || b == []
    ensures a + (b + w) == b + (a + w)
  {
    if a == [] {
      assert a + (b + w) == b + w == b + (a + w);
    } else {
      assert a + (b + w) == a + w == b + (a + w);
    }
  }

  lemma {:induction false} InsertSorted(x: (string, Product), t: Dict<Product>, metric: string)
    requires SortedBy(t, metric)
    ensures SortedBy(Insert(x, t, metric), metric)
    decreases |t|
  {
    var r := Insert(x, t, metric);
    if t == [] {
    } else if KeyLe(Key(x, metric), Key(t[0], metric)) {
      forall i, j | 0 <= i < j < |r| ensures KeyLe(Key(r[i], metric), Key(r[j], metric)) {
        if i == 0 && j > 1 {
          assert KeyLe(Key(t[0], metric), Key(t[j - 1], metric));
        }
        if i > 0 {
          assert r[i] == t[i - 1] && r[j] == t[j - 1];
        }
      }
    } else {
      var rest := Insert(x, t[1..], metric);
      assert SortedBy(t[1..], metric) by {
        forall i, j | 0 <= i < j < |t[1..]| ensures KeyLe(Key(t[1..][i], metric), Key(t[1..][j], metric)) {
          assert t[1..][i] == t[i + 1] && t[1..][j] == t[j + 1];
        }
      }
      InsertSorted(x, t[1..], metric);
      assert KeyLe(Key(t[0], metric), Key(rest[0], metric)) by {
        if |t| > 1 && rest[0] == t[1..][0] {
          assert t[1..][0] == t[1];
        }
      }
      forall i, j | 0 <= i < j < |r| ensures KeyLe(Key(r[i], metric), Key(r[j], metric)) {
        if i == 0 && j > 1 {
          assert KeyLe(Key(rest[0], metric), Key(rest[j - 1], metric));
        }
        if i > 0 {
          assert r[i] == rest[i - 1] && r[j] == rest[j - 1];
        }
      }
    }
  }

  /** lodash `sortBy` on the product entries: ascending by the metric, `undefined` last, equal
      metrics in their input order. */
  function SortBy(s: Dict<Product>, metric: string): (r: Dict<Product>)
    ensures multiset(r) == multiset(s)
    ensures SortedBy(r, metric)
    ensures forall v :: WithKey(r, metric, v) == WithKey(s, metric, v)
  {
    if s == [] then []
    else
      var rest := SortBy(s[1..], metric);
      InsertSorted(s[0], rest, metric);
      assert forall v :: WithKey(Insert(s[0], rest, metric), metric, v) == WithKey(s, metric, v) by {
        forall v ensures WithKey(Insert(s[0], rest, metric), metric, v) == WithKey(s, metric, v) {
          InsertWithKey(s[0], rest, metric, v);
        }
      }
      assert s == [s[0]] + s[1..];
      Insert(s[0], rest, metric)
  }

  /** `sortByMetric`: the same state with only the products re-ordered. The result is ascending
      by the metric, a permutation of the input, and stable: for every metric value, the
      products carrying it appear in their original order. */
  function SortByMetric(state: MarketState, metric: string): (r: MarketState)
    ensures r == state.(products := r.products)
    ensures multiset(r.products) == multiset(state.products)
    ensures SortedBy(r.products, metric)
    ensures forall v :: WithKey(r.products, metric, v) == WithKey(state.products, metric, v)
  {
    state.(products := SortBy(state.products, metric))
  }
}
