/** Rows per month, quarter and ISO week (`report/rollup.rs`, `report/monthly.rs`).

The weekly figures of a row are taken to be counts and sums over what is dated inside it,
before rounding.
*/
module Rollups {
  import opened Calendar
  import opened Counting
  import opened Options
  import opened Periods

  datatype Logged = Logged(date: Date, hours: real)

  /** `snapshots` holds each snapshot's date, if readable. */
  datatype Inputs = Inputs(period: Period, completed: seq<Date>, log: seq<Logged>, snapshots: seq<Option<Date>>)

  datatype Row = Row(name: string, span: Period, completed: nat, hours: real, entries: nat, snapshot: Option<nat>)

  function CountIn(dates: seq<Date>, p: Period): nat {
    if dates == [] then 0 else CountIn(dates[..|dates| - 1], p) + if p.Contains(dates[|dates| - 1]) then 1 else 0
  }

  lemma {:induction false} CountInIs(dates: seq<Date>, p: Period)
    ensures CountIn(dates, p) == |set i: nat | i < |dates| && p.start <= dates[i] <= p.end|
  {
    var q := (i: nat) => i < |dates| && p.start <= dates[i] <= p.end;
    CountBelow(dates, p, q, |dates|);
    assert dates[..|dates|] == dates;
    assert (set i: nat | i < |dates| && p.start <= dates[i] <= p.end) == Among(|dates|, q);
  }

  lemma {:induction false} CountBelow(dates: seq<Date>, p: Period, q: nat -> bool, n: nat)
    requires n <= |dates| && forall i: nat | i < |dates| :: q(i) <==> p.start <= dates[i] <= p.end
    ensures CountIn(dates[..n], p) == |Among(n, q)|
  {
    if n > 0 {
      CountBelow(dates, p, q, n - 1);
      assert dates[..n][..n - 1] == dates[..n - 1];
      AmongNext(n - 1, q);
    }
  }

  function EntriesIn(log: seq<Logged>, p: Period): nat {
    if log == [] then 0 else EntriesIn(log[..|log| - 1], p) + if p.Contains(log[|log| - 1].date) then 1 else 0
  }

  lemma {:induction false} EntriesInIs(log: seq<Logged>, p: Period)
    ensures EntriesIn(log, p) == |set i: nat | i < |log| && p.start <= log[i].date <= p.end|
  {
    var q := (i: nat) => i < |log| && p.start <= log[i].date <= p.end;
    EntriesBelow(log, p, q, |log|);
    assert log[..|log|] == log;
    assert (set i: nat | i < |log| && p.start <= log[i].date <= p.end) == Among(|log|, q);
  }

  lemma {:induction false} EntriesBelow(log: seq<Logged>, p: Period, q: nat -> bool, n: nat)
    requires n <= |log| && forall i: nat | i < |log| :: q(i) <==> p.start <= log[i].date <= p.end
    ensures EntriesIn(log[..n], p) == |Among(n, q)|
  {
    if n > 0 {
      EntriesBelow(log, p, q, n - 1);
      assert log[..n][..n - 1] == log[..n - 1];
      AmongNext(n - 1, q);
    }
  }

  /** Hours add up over logs, and an entry gives its own to the periods it is dated in. */
  lemma {:induction false} HoursAdd(a: seq<Logged>, b: seq<Logged>, p: Period)
    ensures HoursIn(a + b, p) == HoursIn(a, p) + HoursIn(b, p)
    ensures HoursIn([], p) == 0.0
    ensures forall e: Logged :: HoursIn([e], p) == if p.start <= e.date <= p.end then e.hours else 0.0
  {
    forall e: Logged ensures HoursIn([e], p) == if p.start <= e.date <= p.end then e.hours else 0.0 { assert [e][..0] == []; }
    if b == [] {
      assert a + b == a;
    } else {
      assert (a + b)[..|a + b| - 1] == a + b[..|b| - 1];
      HoursAdd(a, b[..|b| - 1], p);
    }
  }

  function HoursIn(log: seq<Logged>, p: Period): real {
    if log == [] then 0.0
    else HoursIn(log[..|log| - 1], p) + if p.Contains(log[|log| - 1].date) then log[|log| - 1].hours else 0.0
  }

  /** `last_snapshot_in`: the latest date inside the period, the last one among equals. */
  function LastSnapshotIn(snapshots: seq<Option<Date>>, p: Period): (r: Option<nat>)
    ensures r.Some? ==> r.value < |snapshots| && snapshots[r.value].Some? && p.Contains(snapshots[r.value].value)
  {
    if snapshots == [] then None
    else
      var n := |snapshots| - 1;
      var before := LastSnapshotIn(snapshots[..n], p);
      if snapshots[n].Some? && p.Contains(snapshots[n].value)
         && (before.Some? ==> snapshots[before.value].value <= snapshots[n].value)
      then Some(n)
      else before
  }

  function MaxDate(a: Date, b: Date): Date { if a < b then b else a }

  function MinDate(a: Date, b: Date): Date { if a < b then a else b }

  function Clip(unit: Period, p: Period): Period {
    Period(MaxDate(unit.start, p.start), MinDate(unit.end, p.end))
  }

  function RowOf(inputs: Inputs, name: string, span: Period): Row {
    Row(name, span, CountIn(inputs.completed, span), HoursIn(inputs.log, span), EntriesIn(inputs.log, span), LastSnapshotIn(inputs.snapshots, span))
  }

  /** The clipped units from `cursor` to the end of the period. */
  function Cuts(unit: Date -> Period, p: Period, cursor: Date): seq<Period>
    requires Tiles(unit)
    decreases p.end - cursor
  {
    if p.end < cursor then []
    else
      SameUnit(unit, cursor, cursor);
      [Clip(unit(cursor), p)] + Cuts(unit, p, unit(cursor).end + 1)
  }

  function Rows(inputs: Inputs, unit: Date -> Period, name: Date -> string, cursor: Date): seq<Row>
    requires Tiles(unit)
    decreases inputs.period.end - cursor
  {
    if inputs.period.end < cursor then []
    else
      SameUnit(unit, cursor, cursor);
      [RowOf(inputs, name(cursor), Clip(unit(cursor), inputs.period))] + Rows(inputs, unit, name, unit(cursor).end + 1)
  }

  /** `unit_rows`. */
  method UnitRows(inputs: Inputs, unit: Date -> Period, name: Date -> string) returns (rows: seq<Row>)
    requires Tiles(unit)
    ensures rows == Rows(inputs, unit, name, inputs.period.start)
    ensures Spans(rows) == Cuts(unit, inputs.period, inputs.period.start)
  {
    hide Tiles, RowOf, Clip;
    rows := [];
    var cursor := inputs.period.start;
    while cursor <= inputs.period.end
      invariant Rows(inputs, unit, name, inputs.period.start) == rows + Rows(inputs, unit, name, cursor)
      decreases inputs.period.end - cursor
    {
      var u := unit(cursor);
      SameUnit(unit, cursor, cursor);
      rows := rows + [RowOf(inputs, name(cursor), Clip(u, inputs.period))];
      cursor := u.end + 1;
    }
    RowsSpan(inputs, unit, name, inputs.period.start);
  }

  function Spans(rows: seq<Row>): seq<Period> {
    seq(|rows|, k requires 0 <= k < |rows| => rows[k].span)
  }

  lemma {:induction false} RowsSpan(inputs: Inputs, unit: Date -> Period, name: Date -> string, cursor: Date)
    requires Tiles(unit)
    ensures Spans(Rows(inputs, unit, name, cursor)) == Cuts(unit, inputs.period, cursor)
    decreases inputs.period.end - cursor
  {
    if cursor <= inputs.period.end {
      SameUnit(unit, cursor, cursor);
      var rest := Rows(inputs, unit, name, unit(cursor).end + 1);
      RowsSpan(inputs, unit, name, unit(cursor).end + 1);
      assert Spans(Rows(inputs, unit, name, cursor)) == [Clip(unit(cursor), inputs.period)] + Spans(rest);
    }
  }

  // ------------------------------------------------------------------- tiling

  /** The pieces follow one another without gap or overlap from the first day to the last. */
  ghost predicate Partition(p: Period, cuts: seq<Period>) {
    && cuts != [] && cuts[0].start == p.start && cuts[|cuts| - 1].end == p.end
    && (forall k | 0 <= k < |cuts| :: cuts[k].start <= cuts[k].end)
    && (forall k | 0 < k < |cuts| :: cuts[k].start == cuts[k - 1].end + 1)
  }

  /** The first day of a unit, or of the period. */
  predicate Begins(unit: Date -> Period, p: Period, cursor: Date) {
    p.start <= cursor && (cursor == p.start || unit(cursor).start == cursor)
  }

  lemma SameUnit(unit: Date -> Period, d: Date, e: Date)
    requires Tiles(unit)
    ensures unit(d).Contains(e) <==> unit(d) == unit(e)
  {
    assert unit(e).Contains(e);
  }

  lemma NextUnitBegins(unit: Date -> Period, d: Date)
    requires Tiles(unit)
    ensures unit(unit(d).end + 1).start == unit(d).end + 1
  {
    hide Tiles;
    var e := unit(d).end + 1;
    SameUnit(unit, d, d);
    SameUnit(unit, e, e);
    SameUnit(unit, d, e - 1);
    SameUnit(unit, e, e - 1);
    SameUnit(unit, d, e);
  }

  /** The clipped units partition the rest of the period. */
  lemma {:induction false} CutsPartition(unit: Date -> Period, p: Period, cursor: Date)
    requires Tiles(unit) && Begins(unit, p, cursor) && cursor <= p.end
    ensures Partition(Period(cursor, p.end), Cuts(unit, p, cursor))
    decreases p.end - cursor
  {
    hide Tiles;
    var u := unit(cursor);
    SameUnit(unit, cursor, cursor);
    if cursor != p.start { SameUnit(unit, cursor, p.start); }
    assert Clip(u, p).start == cursor;
    if u.end < p.end {
      NextUnitBegins(unit, cursor);
      CutsPartition(unit, p, u.end + 1);
      var rest := Cuts(unit, p, u.end + 1);
      assert Cuts(unit, p, cursor) == [Clip(u, p)] + rest;
    } else {
      assert Cuts(unit, p, u.end + 1) == [];
      assert Cuts(unit, p, cursor) == [Clip(u, p)];
    }
  }

  /** The rows of a period: consecutive, disjoint and covering it exactly. */
  lemma {:induction false} RowsPartition(unit: Date -> Period, p: Period)
    requires Tiles(unit) && p.start <= p.end
    ensures Partition(p, Cuts(unit, p, p.start))
  {
    CutsPartition(unit, p, p.start);
  }

  lemma {:induction false} PartitionOrdered(p: Period, cuts: seq<Period>, j: nat, k: nat)
    requires Partition(p, cuts) && j < k < |cuts|
    ensures cuts[j].end < cuts[k].start
  {
    if j < k - 1 { PartitionOrdered(p, cuts, j, k - 1); }
  }

  lemma {:induction false} StartsInside(p: Period, cuts: seq<Period>, j: nat)
    requires Partition(p, cuts) && j < |cuts|
    ensures p.start <= cuts[j].start
  {
    if j > 0 { StartsInside(p, cuts, j - 1); }
  }

  lemma {:induction false} EndsInside(p: Period, cuts: seq<Period>, k: nat)
    requires Partition(p, cuts) && k < |cuts|
    ensures cuts[k].end <= p.end
    decreases |cuts| - k
  {
    if k < |cuts| - 1 { EndsInside(p, cuts, k + 1); }
  }

  // ------------------------------------------------------------- conservation

  function SumCounts(dates: seq<Date>, cuts: seq<Period>): nat {
    if cuts == [] then 0 else SumCounts(dates, cuts[..|cuts| - 1]) + CountIn(dates, cuts[|cuts| - 1])
  }

  function SumEntries(log: seq<Logged>, cuts: seq<Period>): nat {
    if cuts == [] then 0 else SumEntries(log, cuts[..|cuts| - 1]) + EntriesIn(log, cuts[|cuts| - 1])
  }

  function SumHours(log: seq<Logged>, cuts: seq<Period>): real {
    if cuts == [] then 0.0 else SumHours(log, cuts[..|cuts| - 1]) + HoursIn(log, cuts[|cuts| - 1])
  }

  /** Splitting a period at a day splits every figure. */
  lemma {:induction false} FiguresSplit(dates: seq<Date>, log: seq<Logged>, a: Period, b: Period)
    requires a.start <= a.end && b.start == a.end + 1 && b.start <= b.end
    ensures var p := Period(a.start, b.end);
            && CountIn(dates, p) == CountIn(dates, a) + CountIn(dates, b)
            && EntriesIn(log, p) == EntriesIn(log, a) + EntriesIn(log, b)
            && HoursIn(log, p) == HoursIn(log, a) + HoursIn(log, b)
    decreases |dates| + |log|
  {
    if dates != [] { FiguresSplit(dates[..|dates| - 1], log, a, b); }
    if log != [] { FiguresSplit(dates, log[..|log| - 1], a, b); }
  }

  /** Over any partition the rows' figures add up to the period's. */
  lemma {:induction false} FiguresAddUp(dates: seq<Date>, log: seq<Logged>, p: Period, cuts: seq<Period>)
    requires Partition(p, cuts)
    ensures SumCounts(dates, cuts) == CountIn(dates, p)
    ensures SumEntries(log, cuts) == EntriesIn(log, p)
    ensures SumHours(log, cuts) == HoursIn(log, p)
    decreases |cuts|
  {
    var n := |cuts| - 1;
    if n == 0 {
      assert cuts[..0] == [] && cuts[0] == p;
    } else {
      var front := Period(p.start, cuts[n - 1].end);
      StartsInside(p, cuts, n - 1);
      assert Partition(front, cuts[..n]);
      FiguresAddUp(dates, log, front, cuts[..n]);
      FiguresSplit(dates, log, front, cuts[n]);
    }
  }

  // ---------------------------------------------------------------- two levels

  /** The fine cuts of each piece, one after the other. */
  function CutEach(fine: Date -> Period, pieces: seq<Period>): seq<Period>
    requires Tiles(fine)
  {
    if pieces == [] then [] else Cuts(fine, pieces[0], pieces[0].start) + CutEach(fine, pieces[1..])
  }

  /** Up to the end of a coarse piece, cutting the period is cutting that piece. */
  lemma {:induction false} CutsOfPiece(fine: Date -> Period, coarse: Date -> Period, p: Period, cursor: Date, x: Date)
    requires Tiles(fine) && Tiles(coarse) && Refines(fine, coarse)
    requires Begins(coarse, p, cursor) && cursor <= p.end
    requires var piece := Clip(coarse(cursor), p); piece.start <= x <= piece.end && Begins(fine, piece, x)
    ensures var piece := Clip(coarse(cursor), p);
            Cuts(fine, p, x) == Cuts(fine, piece, x) + Cuts(fine, p, piece.end + 1)
    decreases p.end - x
  {
    hide Tiles, Refines;
    var piece := Clip(coarse(cursor), p);
    var next := fine(x).end + 1;
    UnitInPiece(fine, coarse, p, cursor, x);
    if next <= piece.end {
      NextUnitBegins(fine, x);
      CutsOfPiece(fine, coarse, p, cursor, next);
      assert Cuts(fine, piece, x) == [Clip(fine(x), piece)] + Cuts(fine, piece, next);
    } else {
      assert Cuts(fine, piece, next) == [];
      assert Cuts(fine, p, next) == Cuts(fine, p, piece.end + 1);
    }
  }

  /** Clipped to the period or to the piece, a fine unit of the piece is the same. */
  lemma UnitInPiece(fine: Date -> Period, coarse: Date -> Period, p: Period, cursor: Date, x: Date)
    requires Tiles(fine) && Tiles(coarse) && Refines(fine, coarse)
    requires Begins(coarse, p, cursor) && cursor <= p.end
    requires var piece := Clip(coarse(cursor), p); piece.start <= x <= piece.end && Begins(fine, piece, x)
    ensures var piece := Clip(coarse(cursor), p);
            && x <= fine(x).end && Clip(fine(x), p) == Clip(fine(x), piece)
            && (fine(x).end >= piece.end ==> fine(x).end == piece.end || piece.end == p.end)
  {
    hide Tiles;
    PieceStarts(coarse, p, cursor);
    SameUnit(coarse, cursor, x);
    SameUnit(fine, x, x);
    SameUnit(fine, x, cursor);
  }

  lemma PieceStarts(unit: Date -> Period, p: Period, cursor: Date)
    requires Tiles(unit) && Begins(unit, p, cursor)
    ensures unit(cursor).start <= cursor <= unit(cursor).end && Clip(unit(cursor), p).start == cursor
  {
    SameUnit(unit, cursor, cursor);
    SameUnit(unit, cursor, p.start);
  }

  /** Cutting into fine units is cutting into coarse ones and then each of those. */
  lemma {:induction false} TwoLevels(fine: Date -> Period, coarse: Date -> Period, p: Period, cursor: Date)
    requires Tiles(fine) && Tiles(coarse) && Refines(fine, coarse) && Begins(coarse, p, cursor)
    ensures Cuts(fine, p, cursor) == CutEach(fine, Cuts(coarse, p, cursor))
    decreases p.end - cursor
  {
    hide Tiles, Refines;
    if cursor <= p.end {
      PieceStarts(coarse, p, cursor);
      var piece, next := Clip(coarse(cursor), p), coarse(cursor).end + 1;
      CutsOfPiece(fine, coarse, p, cursor, cursor);
      NextUnitBegins(coarse, cursor);
      TwoLevels(fine, coarse, p, next);
      var rest := Cuts(coarse, p, next);
      assert ([piece] + rest)[1..] == rest;
      if next > p.end { assert Cuts(fine, p, piece.end + 1) == Cuts(fine, p, next); }
    }
  }

  /** The quarterly rows of a period group its monthly rows, and both add up to the period. */
  lemma {:induction false} QuartersGroupMonths(dates: seq<Date>, log: seq<Logged>, p: Period)
    requires p.start <= p.end
    ensures Tiles(MonthOf) && Tiles(QuarterOf)
    ensures var months, quarters := Cuts(MonthOf, p, p.start), Cuts(QuarterOf, p, p.start);
            && Partition(p, months) && Partition(p, quarters) && months == CutEach(MonthOf, quarters)
            && SumCounts(dates, months) == SumCounts(dates, quarters) == CountIn(dates, p)
            && SumEntries(log, months) == SumEntries(log, quarters) == EntriesIn(log, p)
            && SumHours(log, months) == SumHours(log, quarters) == HoursIn(log, p)
  {
    hide Tiles, Refines, MonthOf, QuarterOf;
    MonthsTile();
    QuartersTile();
    MonthsRefineQuarters();
    TwoLevels(MonthOf, QuarterOf, p, p.start);
    RowsPartition(MonthOf, p);
    RowsPartition(QuarterOf, p);
    FiguresAddUp(dates, log, p, Cuts(MonthOf, p, p.start));
    FiguresAddUp(dates, log, p, Cuts(QuarterOf, p, p.start));
  }

  /** A quarter row of any period shows the sums of its own month rows. */
  lemma {:induction false} QuarterRowIsItsMonths(dates: seq<Date>, log: seq<Logged>, p: Period, k: nat)
    requires Tiles(MonthOf) && Tiles(QuarterOf) && p.start <= p.end && k < |Cuts(QuarterOf, p, p.start)|
    ensures var quarter := Cuts(QuarterOf, p, p.start)[k];
            var months := Cuts(MonthOf, quarter, quarter.start);
            && CountIn(dates, quarter) == SumCounts(dates, months)
            && EntriesIn(log, quarter) == SumEntries(log, months)
            && HoursIn(log, quarter) == SumHours(log, months)
  {
    hide Tiles, MonthOf, QuarterOf;
    RowsPartition(QuarterOf, p);
    var quarter := Cuts(QuarterOf, p, p.start)[k];
    RowsPartition(MonthOf, quarter);
    FiguresAddUp(dates, log, quarter, Cuts(MonthOf, quarter, quarter.start));
  }

  // -------------------------------------------------------------------- ISO weeks

  function WeekName(d: Date): string { WeekLabel(IsoWeekOf(d).start) }

  lemma NoRows(inputs: Inputs, unit: Date -> Period, name: Date -> string, cursor: Date)
    requires Tiles(unit) && inputs.period.end < cursor
    ensures Rows(inputs, unit, name, cursor) == []
  {
  }

  lemma WeekStep(inputs: Inputs, cursor: Date)
    requires Tiles(IsoWeekOf) && cursor <= inputs.period.end
    ensures var week := IsoWeekOf(cursor);
            && week.start <= cursor <= week.end && IsoWeekOf(week.end + 1) == week.Next()
            && Rows(inputs, IsoWeekOf, WeekName, cursor) ==
               [RowOf(inputs, WeekLabel(week.start), Clip(week, inputs.period))] + Rows(inputs, IsoWeekOf, WeekName, week.end + 1)
  {
    hide Tiles, RowOf, Clip, IsoWeekOf, WeekName;
    WeekRowNamed(cursor);
    SameUnit(IsoWeekOf, cursor, cursor);
    NextWeekIs(cursor);
  }

  /** The week loop of `build_monthly_data`, which steps with `next` instead of the calendar. */
  method WeekRows(inputs: Inputs) returns (rows: seq<Row>)
    requires inputs.period.start <= inputs.period.end
    ensures Tiles(IsoWeekOf)
    ensures rows == Rows(inputs, IsoWeekOf, WeekName, inputs.period.start)
    ensures Spans(rows) == Cuts(IsoWeekOf, inputs.period, inputs.period.start)
  {
    hide Tiles, RowOf, Clip, IsoWeekOf, WeekName, WeekLabel, Rows, Cuts, Spans;
    WeeksTile();
    rows := [];
    var p := inputs.period;
    var week := IsoWeekOf(p.start);
    ghost var cursor := p.start;
    SameUnit(IsoWeekOf, cursor, cursor);
    while week.start <= p.end
      invariant cursor == week.start || (cursor == p.start && week.start <= cursor)
      invariant IsoWeekOf(cursor) == week
      invariant Rows(inputs, IsoWeekOf, WeekName, p.start) == rows + Rows(inputs, IsoWeekOf, WeekName, cursor)
      decreases p.end - week.start
    {
      WeekStep(inputs, cursor);
      rows := rows + [RowOf(inputs, WeekLabel(week.start), Clip(week, p))];
      cursor := week.end + 1;
      week := week.Next();
    }
    NoRows(inputs, IsoWeekOf, WeekName, cursor);
    RowsSpan(inputs, IsoWeekOf, WeekName, p.start);
  }

  lemma WeekRowNamed(d: Date)
    ensures WeekName(d) == WeekLabel(IsoWeekOf(d).start)
  {
  }

  /** The clipped ISO weeks of a period add up to the period. */
  lemma {:induction false} WeeksAddUp(dates: seq<Date>, log: seq<Logged>, p: Period)
    requires p.start <= p.end
    ensures Tiles(IsoWeekOf)
    ensures var weeks := Cuts(IsoWeekOf, p, p.start);
            && Partition(p, weeks) && SumCounts(dates, weeks) == CountIn(dates, p)
            && SumEntries(log, weeks) == EntriesIn(log, p) && SumHours(log, weeks) == HoursIn(log, p)
  {
    hide Tiles, IsoWeekOf;
    WeeksTile();
    RowsPartition(IsoWeekOf, p);
    FiguresAddUp(dates, log, p, Cuts(IsoWeekOf, p, p.start));
  }

  // -------------------------------------------------------------------- snapshots

  /** Snapshot `i` is the latest in the period: no other is dated later, none after it in
      the list as late. */
  predicate IsLast(snapshots: seq<Option<Date>>, p: Period, i: nat) {
    && i < |snapshots| && snapshots[i].Some? && p.Contains(snapshots[i].value)
    && forall j | 0 <= j < |snapshots| && snapshots[j].Some? && p.Contains(snapshots[j].value) ::
         snapshots[j].value < snapshots[i].value || (snapshots[j].value == snapshots[i].value && j <= i)
  }

  lemma {:induction false} LastSnapshotIs(snapshots: seq<Option<Date>>, p: Period)
    ensures match LastSnapshotIn(snapshots, p)
            case Some(i) => IsLast(snapshots, p, i)
            case None => forall j | 0 <= j < |snapshots| && snapshots[j].Some? :: !p.Contains(snapshots[j].value)
  {
    if snapshots != [] {
      var n := |snapshots| - 1;
      LastSnapshotIs(snapshots[..n], p);
      var before := LastSnapshotIn(snapshots[..n], p);
      forall j | 0 <= j < n ensures snapshots[j] == snapshots[..n][j] {}
    }
  }

  /** The snapshot of a period is that of the last of its pieces that has one. */
  lemma SnapshotOfPieces(snapshots: seq<Option<Date>>, p: Period, cuts: seq<Period>, k: nat)
    requires Partition(p, cuts) && k < |cuts| && LastSnapshotIn(snapshots, cuts[k]).Some?
    requires forall m | k < m < |cuts| :: LastSnapshotIn(snapshots, cuts[m]).None?
    ensures LastSnapshotIn(snapshots, p) == LastSnapshotIn(snapshots, cuts[k])
  {
    var i := LastSnapshotIn(snapshots, cuts[k]).value;
    LastSnapshotIs(snapshots, p);
    LastSnapshotIs(snapshots, cuts[k]);
    StartsInside(p, cuts, k);
    EndsInside(p, cuts, k);
    forall j | 0 <= j < |snapshots| && snapshots[j].Some? && p.Contains(snapshots[j].value)
      ensures snapshots[j].value < snapshots[i].value || (snapshots[j].value == snapshots[i].value && j <= i)
    {
      var m := PieceOf(p, cuts, snapshots[j].value);
      if m < k { PartitionOrdered(p, cuts, m, k); }
      if k < m { LastSnapshotIs(snapshots, cuts[m]); }
    }
  }

  /** Every day of the period is in one of the pieces. */
  lemma {:induction false} PieceOf(p: Period, cuts: seq<Period>, d: Date) returns (m: nat)
    requires Partition(p, cuts) && p.Contains(d)
    ensures m < |cuts| && cuts[m].Contains(d)
    ensures forall k | 0 <= k < |cuts| && cuts[k].Contains(d) :: k == m
    decreases |cuts|
  {
    var n := |cuts| - 1;
    if cuts[n].start <= d {
      m := n;
      assert cuts[n].Contains(d);
    } else {
      var front := Period(p.start, cuts[n - 1].end);
      assert Partition(front, cuts[..n]);
      m := PieceOf(front, cuts[..n], d);
    }
    forall k | 0 <= k < |cuts| && cuts[k].Contains(d) ensures k == m {
      if k < m { PartitionOrdered(p, cuts, k, m); }
      if m < k { PartitionOrdered(p, cuts, m, k); }
    }
  }
}
