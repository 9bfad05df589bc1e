/** The accumulators of the effort report (`report/effort.rs`), before rounding. Hours are
reals and may be negative (corrections). */
module Effort {
  import opened Calendar
  import opened Counting
  import opened Options
  import opened Periods

  /** `date` is the day of the entry's timestamp, if that can be read. */
  datatype Entry = Entry(agentId: Option<string>, taskId: string, date: Option<Date>, hours: real)

  datatype Task = Task(id: string, assignee: Option<string>)

  datatype Inputs = Inputs(period: Option<Period>, assignee: Option<string>, tasks: seq<Task>, log: seq<Entry>)

  const UNASSIGNED := "(unassigned)"

  /** The task with this id; of several, the last. */
  function TaskOf(tasks: seq<Task>, id: string): Option<Task> {
    if tasks == [] then None
    else if tasks[|tasks| - 1].id == id then Some(tasks[|tasks| - 1])
    else TaskOf(tasks[..|tasks| - 1], id)
  }

  function Person(tasks: seq<Task>, e: Entry): string {
    match e.agentId
    case Some(agent) => agent
    case None =>
      match TaskOf(tasks, e.taskId)
      case Some(Task(_, Some(assignee))) => assignee
      case _ => UNASSIGNED
  }

  predicate Wanted(inputs: Inputs, e: Entry) {
    inputs.assignee.Some? ==> inputs.assignee.value == Person(inputs.tasks, e)
  }

  predicate Counted(inputs: Inputs, e: Entry) {
    Wanted(inputs, e) && e.date.Some? && (inputs.period.Some? ==> inputs.period.value.Contains(e.date.value))
  }

  /** A dated entry of the report, with the person it is attributed to. */
  datatype Kept = Kept(date: Date, taskId: string, person: string, hours: real)

  function KeptOf(inputs: Inputs, e: Entry): Kept
    requires e.date.Some?
  {
    Kept(e.date.value, e.taskId, Person(inputs.tasks, e), e.hours)
  }

  function Keep(inputs: Inputs, n: nat): seq<Kept>
    requires n <= |inputs.log|
  {
    if n == 0 then []
    else
      var e := inputs.log[n - 1];
      Keep(inputs, n - 1) + if Counted(inputs, e) then [KeptOf(inputs, e)] else []
  }

  /** Entries of the wanted person whose timestamp cannot be read: each is warned about. */
  function Unreadable(inputs: Inputs, n: nat): seq<Entry>
    requires n <= |inputs.log|
  {
    if n == 0 then []
    else Unreadable(inputs, n - 1) + if Wanted(inputs, inputs.log[n - 1]) && inputs.log[n - 1].date.None? then [inputs.log[n - 1]] else []
  }

  datatype Acc = Acc(hours: real, entries: nat) {
    function Add(more: real): Acc { Acc(hours + more, entries + 1) }
  }

  const ZERO := Acc(0.0, 0)

  /** Hours and entries of those with key `k`. */
  function AccOf<K(==)>(kept: seq<Kept>, key: Kept -> K, k: K): Acc {
    if kept == [] then ZERO
    else
      var before := AccOf(kept[..|kept| - 1], key, k);
      if key(kept[|kept| - 1]) == k then before.Add(kept[|kept| - 1].hours) else before
  }

  function Total(kept: seq<Kept>): Acc {
    if kept == [] then ZERO else Total(kept[..|kept| - 1]).Add(kept[|kept| - 1].hours)
  }

  /** The map holds exactly the keys that occur, each with its own hours and entries. */
  ghost predicate Grouped<K(!new)>(kept: seq<Kept>, key: Kept -> K, m: map<K, Acc>) {
    && (forall k :: k in m <==> exists e | e in kept :: key(e) == k)
    && forall k | k in m :: m[k] == AccOf(kept, key, k)
  }

  datatype Listing = Listing(acc: Acc, members: set<string>)

  /** The same with, for each key, the set of names seen with it. */
  ghost predicate Listed(kept: seq<Kept>, key: Kept -> string, name: Kept -> string, m: map<string, Listing>) {
    && (forall k :: k in m <==> exists e | e in kept :: key(e) == k)
    && (forall k | k in m :: m[k].acc == AccOf(kept, key, k))
    && forall k, x | k in m :: x in m[k].members <==> exists e | e in kept :: key(e) == k && name(e) == x
  }

  function DayKey(e: Kept): Date { e.date }

  function WeekKey(e: Kept): (int, int) { (IsoYear(e.date), IsoWeek(e.date)) }

  function TaskKey(e: Kept): string { e.taskId }

  function PersonKey(e: Kept): string { e.person }

  function Bump<K>(m: map<K, Acc>, k: K, hours: real): map<K, Acc> {
    m[k := (if k in m then m[k] else ZERO).Add(hours)]
  }

  function BumpListing(m: map<string, Listing>, k: string, hours: real, name: string): map<string, Listing> {
    var old_ := if k in m then m[k] else Listing(ZERO, {});
    m[k := Listing(old_.acc.Add(hours), old_.members + {name})]
  }

  lemma {:induction false} NoneWithKey<K>(kept: seq<Kept>, key: Kept -> K, k: K)
    requires forall e | e in kept :: key(e) != k
    ensures AccOf(kept, key, k) == ZERO
  {
    if kept != [] {
      var n := |kept| - 1;
      assert kept[n] in kept && forall e | e in kept[..n] :: e in kept;
      NoneWithKey(kept[..n], key, k);
    }
  }

  lemma GroupGrows<K(!new)>(kept: seq<Kept>, e: Kept, key: Kept -> K, m: map<K, Acc>)
    requires Grouped(kept, key, m)
    ensures Grouped(kept + [e], key, Bump(m, key(e), e.hours))
  {
    var after := Bump(m, key(e), e.hours);
    assert e in kept + [e];
    forall k | k in after ensures after[k] == AccOf(kept + [e], key, k) {
      if k !in m { NoneWithKey(kept, key, k); }
    }
    forall k ensures k in after <==> exists x | x in kept + [e] :: key(x) == k {
    }
  }

  lemma ListingGrows(kept: seq<Kept>, e: Kept, key: Kept -> string, name: Kept -> string, m: map<string, Listing>)
    requires Listed(kept, key, name, m)
    ensures Listed(kept + [e], key, name, BumpListing(m, key(e), e.hours, name(e)))
  {
    var after := BumpListing(m, key(e), e.hours, name(e));
    assert e in kept + [e];
    forall k | k in after ensures after[k].acc == AccOf(kept + [e], key, k) {
      if k !in m { NoneWithKey(kept, key, k); }
    }
    forall k ensures k in after <==> exists x | x in kept + [e] :: key(x) == k {
    }
    forall k, x | k in after ensures x in after[k].members <==> exists y | y in kept + [e] :: key(y) == k && name(y) == x {
      if k !in m { assert forall y | y in kept :: key(y) != k; }
    }
  }

  datatype Report = Report(
    total: Acc,
    byDay: map<Date, Acc>,
    byWeek: map<(int, int), Acc>,
    byTask: map<string, Listing>,
    byPerson: map<string, Listing>,
    unreadable: seq<Entry>)

  ghost predicate Accounts(kept: seq<Kept>, r: Report) {
    && r.total == Total(kept)
    && Grouped(kept, DayKey, r.byDay)
    && Grouped(kept, WeekKey, r.byWeek)
    && Listed(kept, TaskKey, PersonKey, r.byTask)
    && Listed(kept, PersonKey, TaskKey, r.byPerson)
  }

  function AddEntry(r: Report, e: Kept): Report {
    Report(
      r.total.Add(e.hours),
      Bump(r.byDay, DayKey(e), e.hours),
      Bump(r.byWeek, WeekKey(e), e.hours),
      BumpListing(r.byTask, TaskKey(e), e.hours, PersonKey(e)),
      BumpListing(r.byPerson, PersonKey(e), e.hours, TaskKey(e)),
      r.unreadable)
  }

  lemma AccountsGrow(kept: seq<Kept>, e: Kept, r: Report)
    requires Accounts(kept, r)
    ensures Accounts(kept + [e], AddEntry(r, e))
  {
    hide Grouped, Listed, Bump, BumpListing, WeekKey;
    GroupGrows(kept, e, DayKey, r.byDay);
    GroupGrows(kept, e, WeekKey, r.byWeek);
    ListingGrows(kept, e, TaskKey, PersonKey, r.byTask);
    ListingGrows(kept, e, PersonKey, TaskKey, r.byPerson);
    assert (kept + [e])[..|kept + [e]| - 1] == kept;
  }

  lemma KeepStep(inputs: Inputs, n: nat)
    requires n < |inputs.log|
    ensures var e := inputs.log[n];
            Keep(inputs, n + 1) == if Counted(inputs, e) then Keep(inputs, n) + [KeptOf(inputs, e)]
                                   else Keep(inputs, n)
    ensures var e := inputs.log[n];
            Unreadable(inputs, n + 1) == if Wanted(inputs, e) && e.date.None? then Unreadable(inputs, n) + [e] else Unreadable(inputs, n)
  {
    assert Keep(inputs, n) + [] == Keep(inputs, n);
    assert Unreadable(inputs, n) + [] == Unreadable(inputs, n);
  }

  lemma KeepsUnreadable(r: Report, e: Kept)
    ensures AddEntry(r, e).unreadable == r.unreadable
  {
  }

  /** `build_effort_data`: one pass over the log. */
  method BuildEffort(inputs: Inputs) returns (r: Report)
    ensures Accounts(Keep(inputs, |inputs.log|), r)
    ensures r.unreadable == Unreadable(inputs, |inputs.log|)
  {
    hide Accounts, AddEntry, WeekKey, Person, Keep, Unreadable, TaskOf;
    r := Report(ZERO, map[], map[], map[], map[], []);
    NothingAccounted(inputs);
    for n := 0 to |inputs.log|
      invariant Accounts(Keep(inputs, n), r)
      invariant r.unreadable == Unreadable(inputs, n)
    {
      var e := inputs.log[n];
      var person := Person(inputs.tasks, e);
      KeepStep(inputs, n);
      if inputs.assignee.Some? && inputs.assignee.value != person { continue; }
      if e.date.None? {
        AlsoUnreadable(Keep(inputs, n), r, e);
        r := r.(unreadable := r.unreadable + [e]);
        continue;
      }
      var date := e.date.value;
      if inputs.period.Some? && !inputs.period.value.Contains(date) { continue; }
      var kept := Kept(date, e.taskId, person, e.hours);
      AccountsGrow(Keep(inputs, n), kept, r);
      KeepsUnreadable(r, kept);
      r := AddEntry(r, kept);
    }
  }

  lemma NothingAccounted(inputs: Inputs)
    ensures Keep(inputs, 0) == [] && Unreadable(inputs, 0) == []
    ensures Accounts([], Report(ZERO, map[], map[], map[], map[], []))
  {
  }

  lemma AlsoUnreadable(kept: seq<Kept>, r: Report, e: Entry)
    requires Accounts(kept, r)
    ensures Accounts(kept, r.(unreadable := r.unreadable + [e]))
  {
  }

  // ----------------------------------------------------------- what a row counts

  /** Rows add up over lists, and an entry gives its own row one entry and its hours. */
  lemma {:induction false} AccAdds<K>(a: seq<Kept>, b: seq<Kept>, key: Kept -> K, k: K)
    ensures AccOf(a + b, key, k).hours == AccOf(a, key, k).hours + AccOf(b, key, k).hours
    ensures AccOf(a + b, key, k).entries == AccOf(a, key, k).entries + AccOf(b, key, k).entries
    ensures AccOf([], key, k) == Acc(0.0, 0)
    ensures forall e :: AccOf([e], key, k) == if key(e) == k then Acc(e.hours, 1) else Acc(0.0, 0)
  {
    forall e ensures AccOf([e], key, k) == if key(e) == k then Acc(e.hours, 1) else Acc(0.0, 0) { assert [e][..0] == []; }
    if b == [] {
      assert a + b == a;
    } else {
      assert (a + b)[..|a + b| - 1] == a + b[..|b| - 1];
      AccAdds(a, b[..|b| - 1], key, k);
    }
  }

  lemma {:induction false} AccCounts<K>(kept: seq<Kept>, key: Kept -> K, k: K)
    ensures AccOf(kept, key, k).entries == |set i: nat | i < |kept| && key(kept[i]) == k|
  {
    var q := (i: nat) => i < |kept| && key(kept[i]) == k;
    AccBelow(kept, key, k, q, |kept|);
    assert kept[..|kept|] == kept;
    assert (set i: nat | i < |kept| && key(kept[i]) == k) == Among(|kept|, q);
  }

  lemma {:induction false} AccBelow<K>(kept: seq<Kept>, key: Kept -> K, k: K, q: nat -> bool, n: nat)
    requires n <= |kept| && forall i: nat | i < |kept| :: q(i) <==> key(kept[i]) == k
    ensures AccOf(kept[..n], key, k).entries == |Among(n, q)|
  {
    if n > 0 {
      AccBelow(kept, key, k, q, n - 1);
      assert kept[..n][..n - 1] == kept[..n - 1];
      AmongNext(n - 1, q);
    }
  }

  // -------------------------------------------------------------- conservation

  /** The rows of a grouping in some order. */
  function SumRows<K>(keys: seq<K>, rows: map<K, Acc>): Acc
    requires forall k | k in keys :: k in rows
  {
    if keys == [] then ZERO
    else
      var n := |keys| - 1;
      var before := SumRows(keys[..n], rows);
      Acc(before.hours + rows[keys[n]].hours, before.entries + rows[keys[n]].entries)
  }

  /** Hours and entries of those whose key is among `keys`. */
  function AccAmong<K(==)>(kept: seq<Kept>, key: Kept -> K, keys: seq<K>): Acc {
    if kept == [] then ZERO
    else
      var before := AccAmong(kept[..|kept| - 1], key, keys);
      if key(kept[|kept| - 1]) in keys then before.Add(kept[|kept| - 1].hours) else before
  }

  lemma {:induction false} AmongMore<K>(kept: seq<Kept>, key: Kept -> K, keys: seq<K>, k: K)
    requires k !in keys
    ensures var a, b, c := AccAmong(kept, key, keys), AccOf(kept, key, k), AccAmong(kept, key, keys + [k]);
            c.hours == a.hours + b.hours && c.entries == a.entries + b.entries
  {
    if kept != [] { AmongMore(kept[..|kept| - 1], key, keys, k); }
  }

  lemma {:induction false} AmongNone<K>(kept: seq<Kept>, key: Kept -> K)
    ensures AccAmong(kept, key, []) == ZERO
  {
    if kept != [] { AmongNone(kept[..|kept| - 1], key); }
  }

  lemma {:induction false} AmongAll<K>(kept: seq<Kept>, key: Kept -> K, keys: seq<K>)
    requires forall e | e in kept :: key(e) in keys
    ensures AccAmong(kept, key, keys) == Total(kept)
  {
    if kept != [] {
      var n := |kept| - 1;
      assert kept[n] in kept && forall e | e in kept[..n] :: e in kept;
      AmongAll(kept[..n], key, keys);
    }
  }

  predicate NoRepeats<K(==)>(keys: seq<K>) {
    forall a, b | 0 <= a < b < |keys| :: keys[a] != keys[b]
  }

  /** The rows in some order: every key of the grouping once. */
  ghost predicate Lists<K(!new)>(keys: seq<K>, rows: map<K, Acc>) {
    NoRepeats(keys) && forall k :: k in keys <==> k in rows
  }

  lemma {:induction false} RowsAreAmong<K(!new)>(kept: seq<Kept>, key: Kept -> K, keys: seq<K>, rows: map<K, Acc>)
    requires Grouped(kept, key, rows) && NoRepeats(keys) && forall k | k in keys :: k in rows
    ensures SumRows(keys, rows) == AccAmong(kept, key, keys)
  {
    if keys == [] {
      AmongNone(kept, key);
    } else {
      var n := |keys| - 1;
      RowsAreAmong(kept, key, keys[..n], rows);
      AmongMore(kept, key, keys[..n], keys[n]);
      assert keys[..n] + [keys[n]] == keys;
    }
  }

  /** In whatever order a grouping's rows are listed, they add up to the total. */
  lemma RowsAddUp<K(!new)>(kept: seq<Kept>, key: Kept -> K, keys: seq<K>, rows: map<K, Acc>)
    requires Grouped(kept, key, rows) && Lists(keys, rows)
    ensures (forall k | k in keys :: k in rows) && SumRows(keys, rows) == Total(kept)
  {
    RowsAreAmong(kept, key, keys, rows);
    forall e | e in kept ensures key(e) in keys {
      assert key(e) in rows;
    }
    AmongAll(kept, key, keys);
  }

  function Accs(m: map<string, Listing>): map<string, Acc> {
    map k | k in m :: m[k].acc
  }

  lemma ListedIsGrouped(kept: seq<Kept>, key: Kept -> string, name: Kept -> string, m: map<string, Listing>)
    requires Listed(kept, key, name, m)
    ensures Grouped(kept, key, Accs(m)) && Accs(m).Keys == m.Keys
  {
  }

  /** Days, weeks, tasks and people each account for exactly the total, for any filter and
      with negative corrections. */
  lemma EveryGroupingAddsUp(inputs: Inputs, r: Report, days: seq<Date>, weeks: seq<(int, int)>, tasks: seq<string>, people: seq<string>)
    requires Accounts(Keep(inputs, |inputs.log|), r)
    requires Lists(days, r.byDay) && Lists(weeks, r.byWeek) && Lists(tasks, Accs(r.byTask)) && Lists(people, Accs(r.byPerson))
    ensures SumRows(days, r.byDay) == r.total && SumRows(weeks, r.byWeek) == r.total
    ensures SumRows(tasks, Accs(r.byTask)) == r.total && SumRows(people, Accs(r.byPerson)) == r.total
  {
    hide WeekKey, Grouped, Listed, NoRepeats, SumRows, Keep, Accs, Total;
    var kept := Keep(inputs, |inputs.log|);
    RowsAddUp(kept, DayKey, days, r.byDay);
    RowsAddUp(kept, WeekKey, weeks, r.byWeek);
    ListedIsGrouped(kept, TaskKey, PersonKey, r.byTask);
    RowsAddUp(kept, TaskKey, tasks, Accs(r.byTask));
    ListedIsGrouped(kept, PersonKey, TaskKey, r.byPerson);
    RowsAddUp(kept, PersonKey, people, Accs(r.byPerson));
  }

  /** A person is listed with a task exactly when the task is listed with the person. */
  lemma ListingsAgree(inputs: Inputs, r: Report, task: string, person: string)
    requires Accounts(Keep(inputs, |inputs.log|), r)
    ensures (task in r.byTask && person in r.byTask[task].members) <==> (person in r.byPerson && task in r.byPerson[person].members)
  {
    var kept := Keep(inputs, |inputs.log|);
    assert forall e: Kept :: TaskKey(e) == e.taskId && PersonKey(e) == e.person;
    if e :| e in kept && e.taskId == task && e.person == person {
      assert TaskKey(e) == task && PersonKey(e) == person;
    }
  }

  function DaysFrom(monday: Date): seq<Date> {
    [monday, monday + 1, monday + 2, monday + 3, monday + 4, monday + 5, monday + 6]
  }

  lemma WeekOfDay(monday: Date, d: Date)
    requires monday % 7 == 0
    ensures (IsoYear(d), IsoWeek(d)) == (IsoYear(monday), IsoWeek(monday)) <==> d in DaysFrom(monday)
  {
    hide Year, DayOfYear, Monday, FromIsoWeek, DaysFrom;
    IsoWeekFound(d);
    IsoWeekFound(monday);
    MondayOfMonday(monday);
    SameMondays(d, monday);
    InDaysFrom(monday, d);
  }

  lemma InDaysFrom(monday: Date, d: Date)
    ensures d in DaysFrom(monday) <==> monday <= d <= monday + 6
  {
    if monday <= d <= monday + 6 { assert DaysFrom(monday)[d - monday] == d; }
  }

  lemma SameMondays(d: Date, monday: Date)
    requires monday % 7 == 0
    ensures Monday(d) == monday <==> monday <= d <= monday + 6
  {
  }

  /** A week's row is the sum of its seven days. */
  lemma {:induction false} WeekIsItsDays(kept: seq<Kept>, monday: Date)
    requires monday % 7 == 0
    ensures AccOf(kept, WeekKey, (IsoYear(monday), IsoWeek(monday))) == AccAmong(kept, DayKey, DaysFrom(monday))
  {
    hide IsoYear, IsoWeek, DaysFrom;
    if kept != [] {
      var n := |kept| - 1;
      WeekIsItsDays(kept[..n], monday);
      WeekOfDay(monday, kept[n].date);
    }
  }

  // ------------------------------------------------------------------ attribution

  /** Task `i` is the last with this id. */
  ghost predicate LastWithId(tasks: seq<Task>, id: string, i: int) {
    0 <= i < |tasks| && tasks[i].id == id && forall j | i < j < |tasks| :: tasks[j].id != id
  }

  lemma {:induction false} TaskOfIs(tasks: seq<Task>, id: string)
    ensures match TaskOf(tasks, id)
            case None => forall t | t in tasks :: t.id != id
            case Some(t) => exists i :: LastWithId(tasks, id, i) && tasks[i] == t
  {
    if tasks != [] {
      var n := |tasks| - 1;
      TaskOfIs(tasks[..n], id);
      if tasks[n].id == id {
        assert LastWithId(tasks, id, n);
      } else if TaskOf(tasks[..n], id).Some? {
        var i :| LastWithId(tasks[..n], id, i) && tasks[..n][i] == TaskOf(tasks[..n], id).value;
        assert forall j | i < j < n :: tasks[..n][j] == tasks[j];
        assert LastWithId(tasks, id, i);
      }
    }
  }

  /** Who an entry's hours go to: its agent, else the assignee of the last task with its id,
      else nobody in particular. */
  ghost predicate AttributedTo(tasks: seq<Task>, e: Entry, person: string) {
    match e.agentId
    case Some(agent) => person == agent
    case None =>
      || (exists i :: LastWithId(tasks, e.taskId, i) && tasks[i].assignee == Some(person))
      || (person == "(unassigned)" && forall i | LastWithId(tasks, e.taskId, i) :: tasks[i].assignee.None?)
  }

  lemma {:induction false} PersonIs(tasks: seq<Task>, e: Entry, person: string)
    ensures Person(tasks, e) == person <==> AttributedTo(tasks, e, person)
  {
    TaskOfIs(tasks, e.taskId);
    if e.agentId.None? && TaskOf(tasks, e.taskId).Some? {
      var i :| LastWithId(tasks, e.taskId, i) && tasks[i] == TaskOf(tasks, e.taskId).value;
      forall k | LastWithId(tasks, e.taskId, k) ensures k == i {
      }
    }
  }

  lemma {:induction false} KeepIs(inputs: Inputs, n: nat, x: Kept)
    requires n <= |inputs.log|
    ensures x in Keep(inputs, n) <==>
            exists k :: 0 <= k < n && Counted(inputs, inputs.log[k]) && x == KeptOf(inputs, inputs.log[k])
  {
    hide Counted, Person;
    if n > 0 { KeepIs(inputs, n - 1, x); }
  }

  /** The people of the report, each with their tasks: a person is listed with a task exactly when
      some entry of that task passes the filters and is attributed to them. */
  lemma {:induction false} PeopleAre(inputs: Inputs, r: Report, person: string, task: string)
    requires Accounts(Keep(inputs, |inputs.log|), r)
    ensures person in r.byPerson && task in r.byPerson[person].members <==>
            exists e | e in inputs.log :: e.taskId == task && AttributedTo(inputs.tasks, e, person) && InScope(inputs, e, person)
  {
    hide Counted, Person, AttributedTo, InScope, Keep, Grouped;
    var kept := Keep(inputs, |inputs.log|);
    forall e ensures (Counted(inputs, e) || InScope(inputs, e, person) ==> e.date.Some?) { CountedIs(inputs, e, person); }
    forall e ensures Counted(inputs, e) && Person(inputs.tasks, e) == person <==> InScope(inputs, e, person) && AttributedTo(inputs.tasks, e, person) {
      PersonIs(inputs.tasks, e, person);
      CountedIs(inputs, e, person);
    }
    if x :| x in kept && PersonKey(x) == person && TaskKey(x) == task {
      KeepIs(inputs, |inputs.log|, x);
      var k :| 0 <= k < |inputs.log| && Counted(inputs, inputs.log[k]) && x == KeptOf(inputs, inputs.log[k]);
      assert inputs.log[k] in inputs.log;
      assert Listed(kept, PersonKey, TaskKey, r.byPerson);
    }
    if e :| e in inputs.log && e.taskId == task && AttributedTo(inputs.tasks, e, person) && InScope(inputs, e, person) {
      var x := KeptOf(inputs, e);
      KeepIs(inputs, |inputs.log|, x);
      assert x in kept && PersonKey(x) == person && TaskKey(x) == task;
      assert Listed(kept, PersonKey, TaskKey, r.byPerson);
    }
  }

  /** An entry of `person` passes the filters. */
  predicate InScope(inputs: Inputs, e: Entry, person: string) {
    && (inputs.assignee.Some? ==> inputs.assignee.value == person)
    && e.date.Some? && (inputs.period.Some? ==> inputs.period.value.Contains(e.date.value))
  }

  lemma CountedIs(inputs: Inputs, e: Entry, person: string)
    ensures Counted(inputs, e) || InScope(inputs, e, person) ==> e.date.Some?
    ensures Person(inputs.tasks, e) == person ==> (Counted(inputs, e) <==> InScope(inputs, e, person))
  {
  }

  /** Every entry of the log is counted, warned about, or filtered out, each exactly once; with
      no filter and readable timestamps nothing is lost. */
  lemma {:induction false} NothingLost(inputs: Inputs, n: nat)
    requires n <= |inputs.log| && inputs.assignee.None? && inputs.period.None?
    ensures |Keep(inputs, n)| + |Unreadable(inputs, n)| == n
  {
    if n > 0 { NothingLost(inputs, n - 1); }
  }
}
