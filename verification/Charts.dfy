/** Sampling of the burndown chart and the window of the velocity chart (`report/charts.rs`). */
module Charts {
  import opened Calendar
  import opened Counting
  import opened Options
  import opened Periods
  import opened Rollups

  const MAX_POINTS := 31
  const VELOCITY_MIN_WEEKS := 4
  const VELOCITY_MAX_WEEKS := 26

  datatype Task = Task(status: string, created: Option<Date>, completed: Option<Date>)

  predicate Terminal(t: Task) { t.status == "done" || t.status == "skipped" }

  // ------------------------------------------------------------------ burndown

  datatype Span = Span(created: Option<Date>, finished: Option<Date>)

  /** A finished task without a completion day cannot be placed. */
  predicate Placed(t: Task) { Terminal(t) ==> t.completed.Some? }

  function SpanOf(t: Task): Span { Span(t.created, if Terminal(t) then t.completed else None) }

  function Spans(tasks: seq<Task>): seq<Span> {
    if tasks == [] then []
    else Spans(tasks[..|tasks| - 1]) + if Placed(tasks[|tasks| - 1]) then [SpanOf(tasks[|tasks| - 1])] else []
  }

  predicate Remains(s: Span, d: Date) {
    (s.created.Some? ==> s.created.value <= d) && (s.finished.Some? ==> d < s.finished.value)
  }

  function Remaining(spans: seq<Span>, d: Date): nat {
    if spans == [] then 0 else Remaining(spans[..|spans| - 1], d) + if Remains(spans[|spans| - 1], d) then 1 else 0
  }

  /** `usize::div_ceil`, then at least 1. */
  function SampleStep(days: nat): (step: nat)
    ensures step >= 1 && days <= step * MAX_POINTS
    ensures step > 1 ==> days > (step - 1) * MAX_POINTS
  {
    var step := (days + MAX_POINTS - 1) / MAX_POINTS;
    if step < 1 then 1 else step
  }

  /** The days from `day` to `end` at an even step. */
  function Evenly(day: Date, step: nat, end: Date): seq<Date>
    requires step >= 1
    decreases end - day
  {
    if end < day then [] else [day] + Evenly(day + step, step, end)
  }

  function SampledDays(p: Period): seq<Date>
    requires p.start <= p.end
  {
    var days := Evenly(p.start, SampleStep(p.Days()), p.end);
    if days == [] || days[|days| - 1] != p.end then days + [p.end] else days
  }

  lemma EvenlyUnfolds(day: Date, step: nat, end: Date)
    requires step >= 1
    ensures Evenly(day, step, end) == if end < day then [] else [day] + Evenly(day + step, step, end)
  {
  }

  /** The sampling loop. */
  method SampleDays(p: Period) returns (days: seq<Date>)
    requires p.start <= p.end
    ensures days == SampledDays(p)
  {
    hide SampleStep, Evenly;
    var step := SampleStep(p.Days());
    days := [];
    var day := p.start;
    while day <= p.end
      invariant Evenly(p.start, step, p.end) == days + Evenly(day, step, p.end)
      decreases p.end - day
    {
      EvenlyUnfolds(day, step, p.end);
      days := days + [day];
      day := day + step;
    }
    EvenlyUnfolds(day, step, p.end);
    if days == [] || days[|days| - 1] != p.end {
      days := days + [p.end];
    }
  }

  /** Evenly spaced from the first day, and the last one is less than a step before the end. */
  lemma {:induction false} EvenlyIs(day: Date, step: nat, end: Date)
    requires step >= 1 && day <= end
    ensures var days := Evenly(day, step, end);
            && days != [] && days[0] == day && days[|days| - 1] <= end < days[|days| - 1] + step
            && (forall k | 0 < k < |days| :: days[k] == days[k - 1] + step)
            && days[|days| - 1] == day + Times(|days| - 1, step)
    decreases end - day
  {
    if day + step <= end {
      EvenlyIs(day + step, step, end);
      TimesStep(|Evenly(day + step, step, end)|, step);
    } else {
      assert Evenly(day + step, step, end) == [];
    }
  }

  function Times(k: nat, step: nat): nat { k * step }

  lemma TimesStep(k: nat, step: nat)
    requires k >= 1
    ensures Times(k, step) == Times(k - 1, step) + step
  {
  }

  lemma TimesInOrder(a: nat, b: nat, step: nat)
    requires a <= b
    ensures Times(a, step) <= Times(b, step)
  {
  }

  /** The sampled days run strictly from the period's first to its last day, evenly but for
      the last gap, which is at most a step. */
  lemma SamplesRun(p: Period)
    requires p.start <= p.end
    ensures var days, step := SampledDays(p), SampleStep(p.Days());
            && days != [] && days[0] == p.start && days[|days| - 1] == p.end
            && (forall k | 0 < k < |days| :: days[k - 1] < days[k] <= days[k - 1] + step)
            && (forall k | 0 < k < |days| - 1 :: days[k] == days[k - 1] + step)
  {
    hide SampleStep;
    EvenlyIs(p.start, SampleStep(p.Days()), p.end);
  }

  /** The number of points: one per started step, and one more when the last day is not hit. */
  lemma SampleCount(p: Period)
    requires p.start <= p.end
    ensures |SampledDays(p)| <= MAX_POINTS + 1
    ensures |SampledDays(p)| > MAX_POINTS <==> p.Days() > Times(MAX_POINTS - 1, SampleStep(p.Days())) + 1
    ensures p.Days() <= MAX_POINTS ==> |SampledDays(p)| == p.Days()
  {
    hide Times, SampleStep, Evenly;
    var n, step := p.Days(), SampleStep(p.Days());
    EvenlyIs(p.start, step, p.end);
    StepBounds(n);
    CountFromLast(|Evenly(p.start, step, p.end)|, n, step);
  }

  lemma StepBounds(n: nat)
    ensures n <= Times(MAX_POINTS, SampleStep(n)) && (n <= MAX_POINTS ==> SampleStep(n) == 1)
  {
  }

  lemma CountFromLast(c: nat, n: nat, step: nat)
    requires c >= 1 && step >= 1 && Times(c - 1, step) <= n - 1 < Times(c - 1, step) + step
    requires n <= Times(MAX_POINTS, step)
    ensures c <= MAX_POINTS
    ensures (if Times(c - 1, step) == n - 1 then c else c + 1) > MAX_POINTS <==> n > Times(MAX_POINTS - 1, step) + 1
    ensures step == 1 ==> c == n && Times(c - 1, step) == n - 1
  {
    hide Times;
    TimesStep(MAX_POINTS, step);
    TimesStep(c, step);
    if c > MAX_POINTS { TimesInOrder(MAX_POINTS, c - 1, step); }
    if c < MAX_POINTS { TimesInOrder(c, MAX_POINTS - 1, step); }
    if step == 1 { TimesOne(c - 1); }
  }

  lemma TimesOne(k: nat)
    ensures Times(k, 1) == k
  {
  }

  /** A period of 62 days is drawn with 32 points, one more than the documented bound. */
  lemma MaxPointsIsExceeded()
    ensures |SampledDays(Period(0, 61))| == MAX_POINTS + 1
  {
    SampleCount(Period(0, 61));
    assert SampleStep(62) == 2;
  }

  /** The burndown points; no chart when no task can be placed. */
  function Burndown(tasks: seq<Task>, p: Period): Option<seq<(Date, nat)>>
    requires p.start <= p.end
  {
    var spans, days := Spans(tasks), SampledDays(p);
    if spans == [] then None else Some(seq(|days|, k requires 0 <= k < |days| => (days[k], Remaining(spans, days[k]))))
  }

  /** The task was created by the end of day `d` (or at an unknown time) and is not finished by
      then; without a completion day a finished task is never open. */
  predicate OpenAt(t: Task, d: Date) {
    && (t.created.Some? ==> t.created.value <= d)
    && (t.status in {"done", "skipped"} ==> t.completed.Some? && d < t.completed.value)
  }

  /** The number of open tasks. */
  function OpenTasks(tasks: seq<Task>, d: Date): nat {
    |set i: nat | i < |tasks| && OpenAt(tasks[i], d)|
  }

  lemma {:induction false} SpansAre(tasks: seq<Task>, d: Date)
    ensures Remaining(Spans(tasks), d) == OpenTasks(tasks, d)
    ensures Spans(tasks) == [] <==> forall t | t in tasks :: t.status in {"done", "skipped"} && t.completed.None?
  {
    var q := (i: nat) => i < |tasks| && OpenAt(tasks[i], d);
    SpansBelow(tasks, d, q, |tasks|);
    assert tasks[..|tasks|] == tasks;
    assert (set i: nat | i < |tasks| && OpenAt(tasks[i], d)) == Among(|tasks|, q);
  }

  lemma {:induction false} SpansBelow(tasks: seq<Task>, d: Date, q: nat -> bool, n: nat)
    requires n <= |tasks| && forall i: nat | i < |tasks| :: q(i) <==> OpenAt(tasks[i], d)
    ensures Remaining(Spans(tasks[..n]), d) == |Among(n, q)|
    ensures Spans(tasks[..n]) == [] <==> forall t | t in tasks[..n] :: t.status in {"done", "skipped"} && t.completed.None?
  {
    hide Remains, OpenAt;
    if n > 0 {
      SpansBelow(tasks, d, q, n - 1);
      var t, before := tasks[n - 1], Spans(tasks[..n - 1]);
      assert tasks[..n][..n - 1] == tasks[..n - 1] && tasks[..n] == tasks[..n - 1] + [t] && before + [] == before;
      assert (before + [SpanOf(t)])[..|before|] == before;
      AmongNext(n - 1, q);
      RemainsIs(t, d);
    }
  }

  lemma RemainsIs(t: Task, d: Date)
    ensures OpenAt(t, d) <==> Placed(t) && Remains(SpanOf(t), d)
    ensures Placed(t) <==> !(t.status in {"done", "skipped"} && t.completed.None?)
  {
  }

  /** The chart shows the sampled days, each with the tasks open at its end; there is none
      exactly when no task can be placed. */
  lemma {:induction false} BurndownIs(tasks: seq<Task>, p: Period)
    requires p.start <= p.end
    ensures Burndown(tasks, p).None? <==> forall t | t in tasks :: t.status in {"done", "skipped"} && t.completed.None?
    ensures Burndown(tasks, p).Some? ==>
              && |Burndown(tasks, p).value| == |SampledDays(p)|
              && forall k | 0 <= k < |SampledDays(p)| :: Burndown(tasks, p).value[k] == (SampledDays(p)[k], OpenTasks(tasks, SampledDays(p)[k]))
  {
    hide SampledDays, Remaining, OpenTasks, Spans;
    SpansAre(tasks, 0);
    forall k | 0 <= k < |SampledDays(p)| ensures Remaining(Spans(tasks), SampledDays(p)[k]) == OpenTasks(tasks, SampledDays(p)[k]) {
      SpansAre(tasks, SampledDays(p)[k]);
    }
  }

  function CreatedIn(spans: seq<Span>, p: Period): nat {
    if spans == [] then 0
    else
      var s := spans[|spans| - 1];
      CreatedIn(spans[..|spans| - 1], p) + if s.created.Some? && p.Contains(s.created.value) then 1 else 0
  }

  function FinishedIn(spans: seq<Span>, p: Period): nat {
    if spans == [] then 0
    else
      var s := spans[|spans| - 1];
      FinishedIn(spans[..|spans| - 1], p) + if s.finished.Some? && p.Contains(s.finished.value) then 1 else 0
  }

  lemma {:induction false} MovesAre(spans: seq<Span>, p: Period)
    ensures CreatedIn(spans, p) == |set i: nat | i < |spans| && spans[i].created.Some? && p.start <= spans[i].created.value <= p.end|
    ensures FinishedIn(spans, p) == |set i: nat | i < |spans| && spans[i].finished.Some? && p.start <= spans[i].finished.value <= p.end|
  {
    var c := (i: nat) => i < |spans| && spans[i].created.Some? && p.Contains(spans[i].created.value);
    var f := (i: nat) => i < |spans| && spans[i].finished.Some? && p.Contains(spans[i].finished.value);
    MovesBelow(spans, p, c, f, |spans|);
    assert spans[..|spans|] == spans;
    assert (set i: nat | i < |spans| && spans[i].created.Some? && p.start <= spans[i].created.value <= p.end) == Among(|spans|, c);
    assert (set i: nat | i < |spans| && spans[i].finished.Some? && p.start <= spans[i].finished.value <= p.end) == Among(|spans|, f);
  }

  lemma {:induction false} MovesBelow(spans: seq<Span>, p: Period, c: nat -> bool, f: nat -> bool, n: nat)
    requires n <= |spans|
    requires forall i: nat | i < |spans| :: c(i) <==> spans[i].created.Some? && p.Contains(spans[i].created.value)
    requires forall i: nat | i < |spans| :: f(i) <==> spans[i].finished.Some? && p.Contains(spans[i].finished.value)
    ensures CreatedIn(spans[..n], p) == |Among(n, c)| && FinishedIn(spans[..n], p) == |Among(n, f)|
  {
    if n > 0 {
      MovesBelow(spans, p, c, f, n - 1);
      assert spans[..n][..n - 1] == spans[..n - 1];
      AmongNext(n - 1, c);
      AmongNext(n - 1, f);
    }
  }

  /** Tasks finished before they were created: they are never on the line. */
  function Backwards(spans: seq<Span>): seq<Span> {
    if spans == [] then []
    else
      var s := spans[|spans| - 1];
      Backwards(spans[..|spans| - 1])
      + if s.created.Some? && s.finished.Some? && s.finished.value < s.created.value then [s] else []
  }

  /** Between two points the line rises by what was created and falls by what was finished, not
      counting tasks finished before they were created; with those it does so exactly when as
      many of them were created as finished in between. */
  lemma {:induction false} BurndownBalances(spans: seq<Span>, a: Date, b: Date)
    requires a <= b
    ensures var p, odd := Period(a + 1, b), Backwards(spans);
            && Remaining(spans, b) + (FinishedIn(spans, p) - FinishedIn(odd, p))
               == Remaining(spans, a) + (CreatedIn(spans, p) - CreatedIn(odd, p))
            && (Remaining(spans, b) + FinishedIn(spans, p) == Remaining(spans, a) + CreatedIn(spans, p)
                <==> CreatedIn(odd, p) == FinishedIn(odd, p))
  {
    if spans != [] {
      var n := |spans| - 1;
      BurndownBalances(spans[..n], a, b);
      var odd := Backwards(spans[..n]);
      assert odd + [] == odd && (odd + [spans[n]])[..|odd|] == odd;
    }
  }

  // ------------------------------------------------------------------ velocity

  function VelocityFirst(p: Period): Date {
    var last := IsoWeekOf(p.end).start;
    MaxDate(MinDate(IsoWeekOf(p.start).start, last - 7 * (VELOCITY_MIN_WEEKS - 1)), last - 7 * (VELOCITY_MAX_WEEKS - 1))
  }

  function Done(tasks: seq<Task>): seq<Date> {
    if tasks == [] then []
    else
      var t := tasks[|tasks| - 1];
      Done(tasks[..|tasks| - 1]) + if t.status == "done" && t.completed.Some? then [t.completed.value] else []
  }

  /** What a bar counts: the tasks that are done and were completed in its week. */
  lemma {:induction false} DoneAre(tasks: seq<Task>, week: Period)
    ensures CountIn(Done(tasks), week) ==
            |set i: nat | i < |tasks| && tasks[i].status == "done" && tasks[i].completed.Some? && week.start <= tasks[i].completed.value <= week.end|
  {
    var q := (i: nat) => i < |tasks| && DoneIn(tasks[i], week);
    DoneBelow(tasks, week, q, |tasks|);
    assert tasks[..|tasks|] == tasks;
    assert (set i: nat | i < |tasks| && tasks[i].status == "done" && tasks[i].completed.Some?
                         && week.start <= tasks[i].completed.value <= week.end) == Among(|tasks|, q);
  }

  predicate DoneIn(t: Task, week: Period) {
    t.status == "done" && t.completed.Some? && week.start <= t.completed.value <= week.end
  }

  lemma {:induction false} DoneBelow(tasks: seq<Task>, week: Period, q: nat -> bool, n: nat)
    requires n <= |tasks| && forall i: nat | i < |tasks| :: q(i) <==> DoneIn(tasks[i], week)
    ensures CountIn(Done(tasks[..n]), week) == |Among(n, q)|
  {
    if n > 0 {
      DoneBelow(tasks, week, q, n - 1);
      var before := Done(tasks[..n - 1]);
      assert tasks[..n][..n - 1] == tasks[..n - 1] && before + [] == before;
      if tasks[n - 1].completed.Some? { assert (before + [tasks[n - 1].completed.value])[..|before|] == before; }
      AmongNext(n - 1, q);
    }
  }

  /** One bar per week: its label and the completions dated in it. */
  function Bars(completed: seq<Date>, start: Date, last: Date): seq<(string, nat)>
    decreases last - start
  {
    if last < start then []
    else [(WeekLabel(start), CountIn(completed, IsoWeekOf(start)))] + Bars(completed, start + 7, last)
  }

  /** `velocity`; no chart without tasks. */
  method Velocity(tasks: seq<Task>, p: Period) returns (bars: Option<seq<(string, nat)>>)
    ensures bars == if tasks == [] then None else Some(Bars(Done(tasks), VelocityFirst(p), IsoWeekOf(p.end).start))
  {
    hide IsoWeekOf, VelocityFirst, WeekLabel, Done, CountIn, Bars;
    if tasks == [] { return None; }
    var last, first := IsoWeekOf(p.end).start, VelocityFirst(p);
    var completed := Done(tasks);
    var shown: seq<(string, nat)> := [];
    var start := first;
    while start <= last
      invariant Bars(completed, first, last) == shown + Bars(completed, start, last)
      decreases last - start
    {
      BarsUnfold(completed, start, last);
      shown := shown + [(WeekLabel(start), CountIn(completed, IsoWeekOf(start)))];
      start := start + 7;
    }
    BarsUnfold(completed, start, last);
    assert shown == Bars(completed, first, last);
    bars := Some(shown);
  }

  lemma BarsUnfold(completed: seq<Date>, start: Date, last: Date)
    ensures Bars(completed, start, last) ==
            if last < start then [] else [(WeekLabel(start), CountIn(completed, IsoWeekOf(start)))] + Bars(completed, start + 7, last)
  {
    hide IsoWeekOf, WeekLabel;
  }

  /** The weeks the bars stand for. */
  function Weeks(start: Date, last: Date): seq<Period>
    decreases last - start
  {
    if last < start then [] else [Period(start, start + 6)] + Weeks(start + 7, last)
  }

  lemma {:induction false} WeeksAre(start: Date, last: Date)
    requires start % 7 == 0 && last % 7 == 0 && start <= last
    ensures |Weeks(start, last)| == (last - start) / 7 + 1
    ensures Partition(Period(start, last + 6), Weeks(start, last))
    decreases last - start
  {
    if start < last {
      WeeksAre(start + 7, last);
      var rest := Weeks(start + 7, last);
      assert Weeks(start, last) == [Period(start, start + 6)] + rest;
    } else {
      assert Weeks(start + 7, last) == [];
    }
  }

  lemma {:induction false} BarsAre(completed: seq<Date>, start: Date, last: Date)
    requires start % 7 == 0
    ensures |Bars(completed, start, last)| == |Weeks(start, last)|
    ensures forall k | 0 <= k < |Weeks(start, last)| ::
              Bars(completed, start, last)[k] == (WeekLabel(Weeks(start, last)[k].start), CountIn(completed, Weeks(start, last)[k]))
    decreases last - start
  {
    hide IsoWeekOf, WeekLabel, CountIn;
    if start <= last {
      IsoWeekOfIs(start);
      MondayOfMonday(start);
      BarsAre(completed, start + 7, last);
    }
  }

  lemma WindowIs(p: Period)
    requires p.start <= p.end
    ensures var first, last := VelocityFirst(p), IsoWeekOf(p.end).start;
            && first % 7 == 0 && last % 7 == 0 && 7 * (VELOCITY_MIN_WEEKS - 1) <= last - first <= 7 * (VELOCITY_MAX_WEEKS - 1)
  {
    hide IsoWeekOf, Monday;
    IsoWeekOfIs(p.start);
    IsoWeekOfIs(p.end);
    MondayIs(p.start);
    MondayIs(p.end);
  }

  /** The number of ISO weeks a period touches. */
  lemma {:induction false} WeeksTouched(p: Period, cursor: Date)
    requires Tiles(IsoWeekOf) && cursor <= p.end
    ensures |Cuts(IsoWeekOf, p, cursor)| == (Monday(p.end) - Monday(cursor)) / 7 + 1
    decreases p.end - cursor
  {
    hide Tiles, IsoWeekOf, Monday;
    IsoWeekOfIs(cursor);
    MondayIs(cursor);
    MondayIs(p.end);
    var next := Monday(cursor) + 7;
    if next <= p.end {
      WeeksTouched(p, next);
      MondayOfMonday(next);
      assert (Monday(p.end) - Monday(cursor)) / 7 == (Monday(p.end) - next) / 7 + 1;
    } else {
      assert Cuts(IsoWeekOf, p, next) == [];
    }
  }

  /** The velocity chart shows the weeks the period touches, but at least 4 and at most 26:
      consecutive weeks that end with the period's last one. */
  lemma {:induction false} VelocityWindow(completed: seq<Date>, p: Period)
    requires p.start <= p.end
    ensures Tiles(IsoWeekOf)
    ensures var first, last := VelocityFirst(p), IsoWeekOf(p.end).start;
            var bars, weeks, touched := Bars(completed, first, last), Weeks(first, last), |Cuts(IsoWeekOf, p, p.start)|;
            && |bars| == |weeks| == (if touched < 4 then 4 else if touched > 26 then 26 else touched)
            && weeks[|weeks| - 1] == IsoWeekOf(p.end) && Partition(Period(first, last + 6), weeks)
            && (forall k | 0 <= k < |weeks| :: bars[k] == (WeekLabel(weeks[k].start), CountIn(completed, weeks[k])))
            && SumCounts(completed, weeks) == CountIn(completed, Period(first, last + 6))
  {
    hide Tiles, IsoWeekOf, Monday, VelocityFirst, WeekLabel, CountIn;
    var first, last := VelocityFirst(p), IsoWeekOf(p.end).start;
    WeeksTile();
    WindowIs(p);
    WeeksAre(first, last);
    BarsAre(completed, first, last);
    FiguresAddUp(completed, [], Period(first, last + 6), Weeks(first, last));
    WindowLength(p);
    IsoWeekOfIs(p.end);
    LastWeek(first, last);
  }

  lemma {:induction false} LastWeek(start: Date, last: Date)
    requires start % 7 == 0 && last % 7 == 0 && start <= last
    ensures Weeks(start, last) != [] && Weeks(start, last)[|Weeks(start, last)| - 1] == Period(last, last + 6)
    decreases last - start
  {
    if start < last { LastWeek(start + 7, last); } else { assert Weeks(start + 7, last) == []; }
  }

  lemma WindowLength(p: Period)
    requires p.start <= p.end && Tiles(IsoWeekOf)
    ensures var first, last, touched := VelocityFirst(p), IsoWeekOf(p.end).start, |Cuts(IsoWeekOf, p, p.start)|;
            (last - first) / 7 + 1 == if touched < VELOCITY_MIN_WEEKS then VELOCITY_MIN_WEEKS
                                      else if touched > VELOCITY_MAX_WEEKS then VELOCITY_MAX_WEEKS else touched
  {
    hide Tiles, IsoWeekOf, Monday, Cuts;
    WeeksTouched(p, p.start);
    IsoWeekOfIs(p.start);
    IsoWeekOfIs(p.end);
    MondayIs(p.start);
    MondayIs(p.end);
    WholeWeeks(Monday(p.start), Monday(p.end));
  }
}
