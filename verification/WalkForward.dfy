/** Walk-forward windows: knob defaults, the window loop in day or month steps, and the slices
    of bars each window walks. */
module WalkForward {
  import opened Common
  import opened Calendar
  import B = Bars
  import ExitModel
  import Engine

  datatype Args = Args(
    inDays: Option<int>, outDays: Option<int>, stepDays: Option<int>,
    inMonths: Option<int>, outMonths: Option<int>, stepMonths: Option<int>)

  /** Lengths as the loop uses them, in days or in months. */
  datatype Knobs = Knobs(days: bool, inLen: int, outLen: int, step: int)

  datatype Window = Window(startIn: int, endIn: int, startOos: int, endOos: int)

  /** EmptySlice: the backtest of a slice rejects an end that is not after its start. */
  datatype WalkError = BadKnob | EndNotAfterStart | DateOverflow | EmptySlice

  /** A missing or zero value falls back to `other`. */
  function Or(x: Option<int>, other: int): int { if x.Some? && x.value != 0 then x.value else other }

  /** Day knobs win over month knobs; missing out-of-sample and step lengths are a quarter of the
      in-sample length, and a length of zero counts as one. */
  function Resolve(a: Args): Result<Knobs, WalkError> {
    if a.inDays.Some? && a.inDays.value <= 0 then Err(BadKnob)
    else if a.inMonths.Some? && a.inMonths.value <= 0 then Err(BadKnob)
    else if a.inDays.Some? then
      var n := a.inDays.value;
      Ok(Knobs(true, n, Or(Some(Or(a.outDays, n / 4)), 1), Or(Some(Or(a.stepDays, n / 4)), 1)))
    else if a.inMonths.Some? then
      var n := a.inMonths.value;
      Ok(Knobs(false, n, Or(Some(Or(a.outMonths, n / 4)), 1), Or(Some(Or(a.stepMonths, n / 4)), 1)))
    else Ok(Knobs(false, 12, 3, 3))
  }

  function Move(k: Knobs, t: int, amount: int): (r: Option<int>)
    requires t >= 0
    ensures r.Some? ==> r.value >= 0
  {
    if k.days then AddDays(t, amount)
    else
      var r := AddMonths(t, amount);
      if r.Some? then (AddMonthsFields(t, amount); r) else r
  }

  /** The window that starts at `t`, if its dates exist. */
  function WindowAt(k: Knobs, t: int): Option<Window>
    requires t >= 0
  {
    var mid := Move(k, t, k.inLen);
    if mid.None? then None
    else
      var last := Move(k, mid.value, k.outLen);
      if last.None? then None else Some(Window(t, mid.value - 1, mid.value, last.value - 1))
  }

  /** The out-of-sample slice starts before the end and is over by it. */
  predicate Fits(w: Window, end: int) { w.startOos < end && w.endOos + 1 <= end }

  /** Both slices end after they start, as a backtest demands. */
  predicate HasSlices(w: Window) { w.startIn < w.endIn && w.startOos < w.endOos }

  /** Where window `n` would start. */
  function StartOf(k: Knobs, start: int, ws: seq<Window>): Option<int>
    requires start >= 0 && (ws != [] ==> ws[|ws| - 1].startIn >= 0)
  {
    if ws == [] then Some(start) else Move(k, ws[|ws| - 1].startIn, k.step)
  }

  /** Each window starts one step after the one before it, is built from its start, and fits. */
  ghost predicate IsWalk(k: Knobs, start: int, end: int, ws: seq<Window>)
    requires start >= 0
  {
    forall i | 0 <= i < |ws| ::
      && ws[i].startIn >= 0 && Fits(ws[i], end) && HasSlices(ws[i])
      && WindowAt(k, ws[i].startIn) == Some(ws[i])
      && (i == 0 ==> ws[i].startIn == start)
      && (i > 0 ==> ws[i - 1].startIn >= 0 && Move(k, ws[i - 1].startIn, k.step) == Some(ws[i].startIn)
                    && ws[i].startIn < end)
  }

  /** The next window starts too late or does not fit. */
  ghost predicate IsOver(k: Knobs, start: int, end: int, ws: seq<Window>)
    requires start >= 0 && (ws != [] ==> ws[|ws| - 1].startIn >= 0)
  {
    var next := StartOf(k, start, ws);
    && next.Some?
    && ((ws != [] && next.value >= end)
        || (WindowAt(k, next.value).Some? && !Fits(WindowAt(k, next.value).value, end)))
  }

  /** A date the next window needs does not exist. */
  ghost predicate Overflows(k: Knobs, start: int, ws: seq<Window>)
    requires start >= 0 && (ws != [] ==> ws[|ws| - 1].startIn >= 0)
  {
    var next := StartOf(k, start, ws);
    next.None? || WindowAt(k, next.value).None?
  }

  lemma MoveStrict(k: Knobs, t: int, amount: int)
    requires t >= 0 && Move(k, t, amount).Some?
    ensures amount > 0 ==> Move(k, t, amount).value >= t + DAY
    ensures amount < 0 ==> Move(k, t, amount).value <= t - DAY
  {
    hide AddMonths, InRange;
    if !k.days { AddMonthsStrict(t, amount); }
  }

  method Run(args: Args, start: int, end: int) returns (r: Result<seq<Window>, WalkError>, ghost walked: seq<Window>)
    requires InRange(start) && InRange(end)
    ensures r == Err(BadKnob) <==> Resolve(args).Err?
    ensures r == Err(EndNotAfterStart) <==> Resolve(args).Ok? && end <= start
    ensures r.Ok? ==>
              && Resolve(args).Ok? && start < end
              && IsWalk(Resolve(args).value, start, end, r.value)
              && IsOver(Resolve(args).value, start, end, r.value)
    ensures r == Err(DateOverflow) ==>
              && Resolve(args).Ok? && start < end
              && IsWalk(Resolve(args).value, start, end, walked)
              && Overflows(Resolve(args).value, start, walked)
    ensures r == Err(EmptySlice) <==>
              && Resolve(args).Ok? && start < end && Resolve(args).value.outLen < 0
              && WindowAt(Resolve(args).value, start).Some?
              && Fits(WindowAt(Resolve(args).value, start).value, end)
  {
    hide Move, Year, IsWalk, WindowAt, Resolve;
    walked := [];
    if Resolve(args).Err? { return Err(BadKnob), walked; }
    var k := Resolve(args).value;
    if end <= start { return Err(EndNotAfterStart), walked; }
    StepNotZero(args);
    var ws: seq<Window> := [];
    var inStart := start;
    WalkStarts(k, start, end);
    while true
      invariant inStart >= 0 && IsWalk(k, start, end, ws) && (ws != [] ==> ws[|ws| - 1].startIn >= 0)
      invariant StartOf(k, start, ws) == Some(inStart)
      invariant ws != [] ==> inStart < end && k.outLen > 0
      invariant ws == [] ==> inStart == start
      decreases if k.step > 0 then (if inStart < end then end - inStart else 0) else inStart
    {
      WindowDates(k, inStart);
      var inEnd := Move(k, inStart, k.inLen);
      if inEnd.None? { return Err(DateOverflow), ws; }
      var oosEnd := Move(k, inEnd.value, k.outLen);
      if oosEnd.None? { return Err(DateOverflow), ws; }
      var w := Window(inStart, inEnd.value - 1, inEnd.value, oosEnd.value - 1);
      if inEnd.value >= end || oosEnd.value > end { return Ok(ws), ws; }
      SlicesIff(k, w);
      if w.endIn <= w.startIn || w.endOos <= w.startOos { return Err(EmptySlice), ws; }
      WalkExtends(k, start, end, ws, w);
      ws := ws + [w];
      var next := Move(k, inStart, k.step);
      if next.None? { return Err(DateOverflow), ws; }
      MoveStrict(k, inStart, k.step);
      FitStartsBefore(k, w, end);
      inStart := next.value;
      if inStart >= end { return Ok(ws), ws; }
    }
  }

  lemma WalkStarts(k: Knobs, start: int, end: int)
    requires start >= 0
    ensures IsWalk(k, start, end, [])
  {
  }

  lemma WalkExtends(k: Knobs, start: int, end: int, ws: seq<Window>, w: Window)
    requires start >= 0 && IsWalk(k, start, end, ws) && (ws != [] ==> ws[|ws| - 1].startIn >= 0)
    requires w.startIn >= 0 && StartOf(k, start, ws) == Some(w.startIn) && (ws != [] ==> w.startIn < end)
    requires WindowAt(k, w.startIn) == Some(w) && Fits(w, end) && HasSlices(w)
    ensures IsWalk(k, start, end, ws + [w])
  {
    hide Move, WindowAt, Fits;
  }

  lemma WindowDates(k: Knobs, t: int)
    requires t >= 0
    ensures var mid := Move(k, t, k.inLen);
            && (mid.None? ==> WindowAt(k, t) == None)
            && (mid.Some? && Move(k, mid.value, k.outLen).None? ==> WindowAt(k, t) == None)
            && (mid.Some? && Move(k, mid.value, k.outLen).Some? ==>
                  WindowAt(k, t) == Some(Window(t, mid.value - 1, mid.value, Move(k, mid.value, k.outLen).value - 1)))
  {
    hide Move;
  }

  lemma StepNotZero(a: Args)
    requires Resolve(a).Ok?
    ensures Resolve(a).value.step != 0 && Resolve(a).value.outLen != 0 && Resolve(a).value.inLen > 0
  {
  }

  /** Without negative knobs every length the loop uses is positive: exactly the given ones where
      they are given and not zero. */
  lemma NonNegativeKnobs(a: Args)
    requires Resolve(a).Ok?
    requires forall x | x in {a.outDays, a.stepDays, a.outMonths, a.stepMonths} && x.Some? :: x.value >= 0
    ensures var k := Resolve(a).value;
            && k.inLen > 0 && k.outLen > 0 && k.step > 0 && (k.days <==> a.inDays.Some?)
            && (a.inDays.Some? && a.stepDays.Some? && a.stepDays.value > 0 ==> k.step == a.stepDays.value)
            && (a.inDays.Some? && a.outDays.Some? && a.outDays.value > 0 ==> k.outLen == a.outDays.value)
            && (a.inDays.Some? ==> k.inLen == a.inDays.value)
            && (a.inDays.None? && a.inMonths.Some? ==> k.inLen == a.inMonths.value)
  {
    assert forall x | x in [a.outDays, a.stepDays, a.outMonths, a.stepMonths] :: x.Some? ==> x.value >= 0;
  }

  /** A window has both its slices exactly when the out-of-sample length is positive. */
  lemma SlicesIff(k: Knobs, w: Window)
    requires w.startIn >= 0 && k.inLen > 0 && k.outLen != 0 && WindowAt(k, w.startIn) == Some(w)
    ensures w.startIn < w.endIn && (w.startOos < w.endOos <==> k.outLen > 0)
  {
    hide Move;
    MoveStrict(k, w.startIn, k.inLen);
    MoveStrict(k, w.startOos, k.outLen);
  }

  /** What a given knob means: itself, or a quarter of the in-sample length where it is missing or
      zero, and at least one either way. */
  ghost predicate Knob(given: Option<int>, inLen: int, used: int) {
    if given.Some? && given.value != 0 then used == given.value
    else if inLen >= 4 then used == inLen / 4 else used == 1
  }

  /** Every knob setting: days win over months, nothing given means 12, 3 and 3 months, and a length
      of zero or less in either unit is refused. */
  lemma KnobsAre(a: Args)
    ensures Resolve(a).Err? <==> (a.inDays.Some? && a.inDays.value <= 0) || (a.inMonths.Some? && a.inMonths.value <= 0)
    ensures Resolve(a).Ok? && a.inDays.Some? ==>
              var k := Resolve(a).value;
              && k.days && k.inLen == a.inDays.value
              && Knob(a.outDays, k.inLen, k.outLen) && Knob(a.stepDays, k.inLen, k.step)
    ensures Resolve(a).Ok? && a.inDays.None? && a.inMonths.Some? ==>
              var k := Resolve(a).value;
              && !k.days && k.inLen == a.inMonths.value
              && Knob(a.outMonths, k.inLen, k.outLen) && Knob(a.stepMonths, k.inLen, k.step)
    ensures a.inDays.None? && a.inMonths.None? ==> Resolve(a) == Ok(Knobs(false, 12, 3, 3))
  {
  }

  /** A window's dates in day mode: whole days from its start, each slice ending a microsecond before
      the next date. */
  lemma DayWindow(k: Knobs, t: int)
    requires k.days && t >= 0 && WindowAt(k, t).Some?
    ensures var w := WindowAt(k, t).value;
            && w.startIn == t && w.endIn + 1 == w.startOos
            && w.startOos == t + k.inLen * 86_400_000_000
            && w.endOos + 1 == w.startOos + k.outLen * 86_400_000_000
  {
    hide InRange;
  }

  /** In month mode: the same time of day, the month that many months on, the same day of the month
      or that month's last. */
  lemma MonthWindow(k: Knobs, t: int)
    requires !k.days && t >= 0 && WindowAt(k, t).Some?
    ensures var w := WindowAt(k, t).value;
            && w.startIn == t && w.endIn + 1 == w.startOos && w.startOos >= 0 && w.endOos + 1 >= 0
            && Lies(t, w.startOos, k.inLen) && Lies(w.startOos, w.endOos + 1, k.outLen)
  {
    hide AddMonths, InRange;
    AddMonthsFields(t, k.inLen);
    AddMonthsFields(WindowAt(k, t).value.startOos, k.outLen);
  }

  predicate Lies(s: int, t: int, months: int)
    requires s >= 0 && t >= 0
  {
    && MonthIndex(t) == MonthIndex(s) + months && t % DAY == s % DAY
    && (Day(t) == Day(s) || (Day(s) > Day(t) && Day(t) == MonthLength(MonthIndex(t))))
  }

  /** A window fits exactly when its out-of-sample slice is over before the end. */
  lemma FitsIff(k: Knobs, w: Window, end: int)
    requires w.startIn >= 0 && k.inLen > 0 && k.outLen > 0 && WindowAt(k, w.startIn) == Some(w)
    ensures Fits(w, end) <==> w.endOos < end
  {
    SlicesIff(k, w);
  }

  /** Month `i` of a walk in months starts `i` steps of months after the start. */
  lemma {:induction false} MonthStarts(k: Knobs, start: int, end: int, ws: seq<Window>, i: nat)
    requires !k.days && start >= 0 && IsWalk(k, start, end, ws) && i < |ws|
    ensures ws[i].startIn >= 0 && MonthIndex(ws[i].startIn) == MonthIndex(start) + i * k.step
  {
    hide AddMonths, InRange, MonthIndex, WindowAt;
    if i > 0 {
      MonthStarts(k, start, end, ws, i - 1);
      AddMonthsFields(ws[i - 1].startIn, k.step);
      assert i * k.step == (i - 1) * k.step + k.step;
    }
  }

  lemma FitStartsBefore(k: Knobs, w: Window, end: int)
    requires w.startIn >= 0 && k.inLen > 0 && WindowAt(k, w.startIn) == Some(w) && Fits(w, end)
    ensures w.startIn < end
  {
    MoveStrict(k, w.startIn, k.inLen);
  }

  // ---------------------------------------------------------------- what the windows are

  /** With positive lengths every window lies inside the range, in order, its two slices adjacent. */
  lemma {:induction false} WindowsInside(k: Knobs, start: int, end: int, ws: seq<Window>, i: nat)
    requires start >= 0 && IsWalk(k, start, end, ws) && i < |ws|
    requires k.inLen > 0 && k.outLen > 0 && k.step > 0
    ensures start <= ws[i].startIn <= ws[i].endIn < ws[i].startOos <= ws[i].endOos < end
    ensures ws[i].endIn + 1 == ws[i].startOos
    ensures i > 0 ==> ws[i - 1].startIn < ws[i].startIn
  {
    hide Move;
    var w := ws[i];
    if i > 0 {
      WindowsInside(k, start, end, ws, i - 1);
      MoveStrict(k, ws[i - 1].startIn, k.step);
    }
    MoveStrict(k, w.startIn, k.inLen);
    MoveStrict(k, w.startOos, k.outLen);
  }

  /** Window `i` in day mode starts `i` steps after the start. */
  lemma {:induction false} DayStarts(k: Knobs, start: int, end: int, ws: seq<Window>, i: nat)
    requires k.days && start >= 0 && IsWalk(k, start, end, ws) && i < |ws|
    ensures ws[i].startIn == start + i * (k.step * DAY)
  {
    hide InRange;
    if i > 0 { DayStarts(k, start, end, ws, i - 1); }
  }

  lemma DayFits(k: Knobs, t: int, end: int)
    requires k.days && k.outLen > 0 && t >= 0 && WindowAt(k, t).Some?
    ensures Fits(WindowAt(k, t).value, end) <==> t + (k.inLen + k.outLen) * DAY <= end
  {
    hide InRange;
  }

  /** Windows that fit: one for each whole step that leaves room for both slices. */
  function WindowCount(k: Knobs, span: int): int
    requires k.step > 0
  {
    var room := span - (k.inLen + k.outLen) * DAY;
    B.MulCompare(0, k.step, DAY);
    if room < 0 then 0 else room / (k.step * DAY) + 1
  }

  /** In day mode the loop emits exactly the windows that fit. */
  lemma DayModeCount(k: Knobs, start: int, end: int, ws: seq<Window>)
    requires k.days && k.inLen > 0 && k.outLen > 0 && k.step > 0
    requires 0 <= start < end && IsWalk(k, start, end, ws) && IsOver(k, start, end, ws)
    ensures |ws| == WindowCount(k, end - start)
  {
    hide IsOver, WindowAt;
    var n := |ws|;
    if n > 0 {
      DayStarts(k, start, end, ws, n - 1);
      DayFits(k, ws[n - 1].startIn, end);
    }
    NextDoesNotFit(k, start, end, ws);
    CountIs(k, end - start, n);
  }

  lemma CountIs(k: Knobs, span: int, n: nat)
    requires k.inLen > 0 && k.outLen > 0 && k.step > 0
    requires n > 0 ==> (n - 1) * (k.step * DAY) + (k.inLen + k.outLen) * DAY <= span
    requires span < n * (k.step * DAY) + (k.inLen + k.outLen) * DAY
    ensures n == WindowCount(k, span)
  {
    var stride := k.step * DAY;
    B.MulCompare(0, k.step, DAY);
    if n > 0 {
      B.MulCompare(0, n, stride);
      B.MulCompare(0, n - 1, stride);
      B.DivIs(span - (k.inLen + k.outLen) * DAY, stride, n - 1);
    }
  }

  lemma NextDoesNotFit(k: Knobs, start: int, end: int, ws: seq<Window>)
    requires k.days && k.inLen > 0 && k.outLen > 0 && k.step > 0
    requires 0 <= start < end && IsWalk(k, start, end, ws) && IsOver(k, start, end, ws)
    ensures end < start + |ws| * (k.step * DAY) + (k.inLen + k.outLen) * DAY
  {
    hide InRange;
    var next := StartOf(k, start, ws).value;
    if ws != [] { DayStarts(k, start, end, ws, |ws| - 1); }
    assert next == start + |ws| * (k.step * DAY);
    if ws == [] || next < end { DayFits(k, next, end); }
  }

  /** The two slices of a window meet without sharing or skipping a bar, whatever the order of the bars. */
  lemma SlicesMeet(bars: seq<ExitModel.Bar>, w: Window, lastIn: int, firstOos: int)
    requires w.endIn + 1 == w.startOos
    requires Engine.IsLastAtOrBefore(bars, w.endIn, lastIn) && Engine.IsFirstAtOrAfter(bars, w.startOos, firstOos)
    ensures firstOos == lastIn + 1
  {
    if 0 <= firstOos < |bars| { NotShared(bars, w, firstOos, lastIn); }
  }

  /** A bar at or after the start of the out-of-sample slice is not in the in-sample slice. */
  lemma NotShared(bars: seq<ExitModel.Bar>, w: Window, k: nat, lastIn: int)
    requires w.endIn + 1 == w.startOos && k < |bars| && bars[k].time >= w.startOos
    requires Engine.IsLastAtOrBefore(bars, w.endIn, lastIn)
    ensures lastIn < k
  {
  }
}
