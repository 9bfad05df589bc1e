/** Picking and ordering the sections of a rendered report (`report/sections.rs`). */
module Sections {
  import opened Markdown
  import opened Options
  import opened RustText

  datatype Result<T> = Ok(value: T) | Err(error: string)

  datatype Spec =
    | Metrics | Charts | TraceDiagram | AiSummary | AiAnalysis | AiRisks | AiRecommendations | AiSections | TaskList
    | Named(heading: string)
    | Custom(title: Option<string>, body: Option<string>, template: Option<string>)

  const WARNINGS := "Warnings"

  /** What `parse_list` lets through. */
  predicate Valid(spec: Spec) {
    && (spec.Named? ==> Trim(spec.heading) != "")
    && (spec.Custom? ==> spec.body.Some? || spec.template.Some?)
  }

  function Wanted(spec: Spec): seq<string> {
    match spec
    case Metrics => ["Summary", "Overview", "Schedule"]
    case Charts => ["Charts"]
    case TraceDiagram => ["Traceability Diagram"]
    case AiSummary => ["AI Summary"]
    case AiAnalysis => ["AI Analysis"]
    case AiRisks => ["AI Risks"]
    case AiRecommendations => ["AI Recommendations"]
    case AiSections => ["AI Summary", "AI Analysis", "AI Risks", "AI Recommendations"]
    case TaskList => ["Completed Tasks", "In Progress", "Blockers", "Tasks", "Defects"]
    case Named(heading) => [Trim(heading)]
    case Custom(_, _, _) => []
  }

  function Lower(c: char): char {
    if 'A' <= c <= 'Z' then c - 'A' + 'a' else c
  }

  /** `eq_ignore_ascii_case`. */
  predicate SameHeading(a: string, b: string) {
    |a| == |b| && forall i | 0 <= i < |a| :: Lower(a[i]) == Lower(b[i])
  }

  /** The first section with this heading, or the number of sections. */
  function Position(sections: seq<Section>, heading: string): (i: nat)
    ensures i <= |sections| && forall k | 0 <= k < i :: !SameHeading(sections[k].heading, heading)
    ensures i < |sections| ==> SameHeading(sections[i].heading, heading)
  {
    if sections == [] || SameHeading(sections[0].heading, heading) then 0 else 1 + Position(sections[1..], heading)
  }

  /** A part of the composed report: a section of the report, or custom text. */
  datatype Part = Kept(index: nat) | Free(text: string)

  /** The sections an entry shows; `first` stops at the first heading found. */
  function Matches(sections: seq<Section>, wanted: seq<string>, first: bool): seq<nat> {
    if wanted == [] then []
    else
      var i := Position(sections, wanted[0]);
      if i == |sections| then Matches(sections, wanted[1..], first)
      else if first then [i]
      else [i] + Matches(sections, wanted[1..], first)
  }

  function AddOne(parts: seq<Part>, i: nat): seq<Part> {
    if Kept(i) in parts then parts else parts + [Kept(i)]
  }

  function AddAll(parts: seq<Part>, matches: seq<nat>): seq<Part>
    decreases |matches|
  {
    if matches == [] then parts else AddAll(AddOne(parts, matches[0]), matches[1..])
  }

  /** The text of a custom entry. */
  function CustomText(spec: Spec, render: string -> Result<string>): Result<string>
    requires spec.Custom?
  {
    var title := match spec.title case Some(t) => "## " + Trim(t) + "\n\n" case None => "";
    var body := match spec.body case Some(b) => TrimEnd(b) + "\n" case None => "";
    match spec.template
    case None => Ok(TrimEnd(title + body))
    case Some(name) =>
      match render(name)
      case Err(e) => Err(e)
      case Ok(text) => Ok(TrimEnd(title + body + TrimEnd(text) + "\n"))
  }

  /** The parts so far, and the entries that matched nothing. */
  datatype Outcome = Outcome(parts: seq<Part>, missed: seq<Spec>)

  function PickOne(sections: seq<Section>, o: Outcome, spec: Spec, render: string -> Result<string>): Result<Outcome> {
    if spec.Custom? then
      match CustomText(spec, render)
      case Err(e) => Err(e)
      case Ok(text) => Ok(o.(parts := o.parts + [Free(text)]))
    else
      var matches := Matches(sections, Wanted(spec), spec.Metrics?);
      Ok(Outcome(AddAll(o.parts, matches), if matches == [] then o.missed + [spec] else o.missed))
  }

  function Pick(sections: seq<Section>, specs: seq<Spec>, render: string -> Result<string>): Result<Outcome> {
    if specs == [] then Ok(Outcome([], []))
    else
      match Pick(sections, specs[..|specs| - 1], render)
      case Err(e) => Err(e)
      case Ok(o) => PickOne(sections, o, specs[|specs| - 1], render)
  }

  predicate IsWarnings(s: Section) { SameHeading(s.heading, WARNINGS) }

  /** The Warnings sections among the first `n` that no entry picked. */
  function Leftovers(sections: seq<Section>, parts: seq<Part>, n: nat): seq<Part>
    requires n <= |sections|
  {
    if n == 0 then []
    else
      Leftovers(sections, parts, n - 1)
      + if Kept(n - 1) !in parts && IsWarnings(sections[n - 1]) then [Kept(n - 1)] else []
  }

  predicate InRange(sections: seq<Section>, parts: seq<Part>) {
    forall p | p in parts :: p.Kept? ==> p.index < |sections|
  }

  function PartText(sections: seq<Section>, p: Part): string
    requires p.Kept? ==> p.index < |sections|
  {
    if p.Kept? then TrimEnd(sections[p.index].text) else p.text
  }

  function PartTexts(sections: seq<Section>, parts: seq<Part>): seq<string>
    requires InRange(sections, parts)
  {
    seq(|parts|, k requires 0 <= k < |parts| => PartText(sections, parts[k]))
  }

  function NonEmpty(texts: seq<string>): seq<string> {
    if texts == [] then []
    else NonEmpty(texts[..|texts| - 1]) + if texts[|texts| - 1] == "" then [] else [texts[|texts| - 1]]
  }

  function Print(texts: seq<string>): string {
    (if NonEmpty(texts) == [] then "" else Join(NonEmpty(texts))) + "\n"
  }

  datatype Composed = Composed(markdown: string, missed: seq<Spec>)

  function AllParts(sections: seq<Section>, o: Outcome): seq<Part> {
    o.parts + Leftovers(sections, o.parts, |sections|)
  }

  function Compose(rendered: string, specs: seq<Spec>, render: string -> Result<string>): Result<Composed> {
    var split := SplitOf(rendered);
    PickStaysInRange(split.sections, specs, render);
    match Pick(split.sections, specs, render)
    case Err(e) => Err(e)
    case Ok(o) =>
      LeftoversAre(split.sections, o.parts, |split.sections|);
      var texts := [TrimEnd(split.preamble)] + PartTexts(split.sections, AllParts(split.sections, o));
      Ok(Composed(Print(texts), o.missed))
  }

  // ------------------------------------------------------- facts about picking

  lemma {:induction false} MatchesInRange(sections: seq<Section>, wanted: seq<string>, first: bool)
    ensures forall i | i in Matches(sections, wanted, first) :: i < |sections|
  {
    if wanted != [] { MatchesInRange(sections, wanted[1..], first); }
  }

  predicate Distinct(parts: seq<Part>) {
    forall a, b | 0 <= a < b < |parts| && parts[a].Kept? :: parts[a] != parts[b]
  }

  lemma {:induction false} AddAllIs(parts: seq<Part>, matches: seq<nat>)
    ensures parts <= AddAll(parts, matches)
    ensures Distinct(parts) ==> Distinct(AddAll(parts, matches))
    ensures forall p :: p in AddAll(parts, matches) <==> p in parts || (p.Kept? && p.index in matches)
    decreases |matches|
  {
    if matches != [] { AddAllIs(AddOne(parts, matches[0]), matches[1..]); }
  }

  lemma {:induction false} PickStaysInRange(sections: seq<Section>, specs: seq<Spec>, render: string -> Result<string>)
    ensures var r := Pick(sections, specs, render); r.Ok? ==> InRange(sections, r.value.parts) && Distinct(r.value.parts)
  {
    if specs != [] {
      var n := |specs| - 1;
      PickStaysInRange(sections, specs[..n], render);
      if Pick(sections, specs, render).Ok? && !specs[n].Custom? {
        var matches := Matches(sections, Wanted(specs[n]), specs[n].Metrics?);
        MatchesInRange(sections, Wanted(specs[n]), specs[n].Metrics?);
        AddAllIs(Pick(sections, specs[..n], render).value.parts, matches);
      }
    }
  }

  lemma {:induction false} LeftoversAre(sections: seq<Section>, parts: seq<Part>, n: nat)
    requires n <= |sections|
    ensures var rest := Leftovers(sections, parts, n);
            && (forall p :: p in rest <==> p.Kept? && p.index < n && p !in parts && IsWarnings(sections[p.index]))
            && (forall a, b | 0 <= a < b < |rest| :: rest[a].index < rest[b].index)
  {
    LeftoverMembers(sections, parts, n);
    LeftoversRise(sections, parts, n);
  }

  lemma {:induction false} LeftoverMembers(sections: seq<Section>, parts: seq<Part>, n: nat)
    requires n <= |sections|
    ensures forall p :: p in Leftovers(sections, parts, n) <==> p.Kept? && p.index < n && p !in parts && IsWarnings(sections[p.index])
  {
    hide IsWarnings;
    if n > 0 { LeftoverMembers(sections, parts, n - 1); }
  }

  predicate Rising(parts: seq<Part>, n: nat) {
    && (forall a | 0 <= a < |parts| :: parts[a].Kept? && parts[a].index < n)
    && (forall a, b | 0 <= a < b < |parts| :: parts[a].index < parts[b].index)
  }

  lemma {:induction false} LeftoversRise(sections: seq<Section>, parts: seq<Part>, n: nat)
    requires n <= |sections|
    ensures Rising(Leftovers(sections, parts, n), n)
  {
    hide IsWarnings;
    if n > 0 {
      LeftoversRise(sections, parts, n - 1);
      RisesOn(Leftovers(sections, parts, n - 1), n - 1);
    }
  }

  lemma RisesOn(parts: seq<Part>, n: nat)
    requires Rising(parts, n)
    ensures Rising(parts + [Kept(n)], n + 1) && Rising(parts + [], n + 1)
  {
  }

  /** Heading number `k` is found at section `i` and, when only the first counts, none before it is found. */
  predicate Hit(sections: seq<Section>, wanted: seq<string>, first: bool, i: nat, k: nat) {
    && k < |wanted| && Position(sections, wanted[k]) == i
    && (first ==> NoneFound(sections, wanted[..k]))
  }

  predicate NoneFound(sections: seq<Section>, wanted: seq<string>) {
    forall h | h in wanted :: Position(sections, h) == |sections|
  }

  /** Which sections an entry asks for: the first one with each heading it names; for
      `metrics` only that of the first heading the report has. */
  predicate Asks(sections: seq<Section>, spec: Spec, i: nat) {
    i < |sections| && exists k | 0 <= k < |Wanted(spec)| :: Hit(sections, Wanted(spec), spec.Metrics?, i, k)
  }

  lemma {:induction false} MatchesAre(sections: seq<Section>, wanted: seq<string>, first: bool, i: nat)
    ensures i in Matches(sections, wanted, first) <==>
            i < |sections| && exists k | 0 <= k < |wanted| :: Hit(sections, wanted, first, i, k)
  {
    if wanted != [] {
      MatchesAre(sections, wanted[1..], first, i);
      forall k: nat | 0 < k < |wanted|
        ensures Hit(sections, wanted, first, i, k) <==>
                Hit(sections, wanted[1..], first, i, k - 1) && (first ==> Position(sections, wanted[0]) == |sections|)
      {
      }
      if Position(sections, wanted[0]) == i { assert Hit(sections, wanted, first, i, 0); }
      if k :| 0 <= k < |wanted[1..]| && Hit(sections, wanted[1..], first, i, k) {
        assert Hit(sections, wanted, first, i, k + 1) <==> (first ==> Position(sections, wanted[0]) == |sections|);
      }
    }
  }

  predicate Asked(sections: seq<Section>, specs: seq<Spec>, i: nat) {
    exists k | 0 <= k < |specs| :: Asks(sections, specs[k], i)
  }

  /** The entries put in exactly the sections they ask for, none twice, and an earlier
      entry's before a later one's. */
  lemma {:induction false} PickedExactly(sections: seq<Section>, specs: seq<Spec>, render: string -> Result<string>)
    requires Pick(sections, specs, render).Ok?
    ensures var parts := Pick(sections, specs, render).value.parts;
            && Distinct(parts)
            && (forall i: nat :: Kept(i) in parts <==> Asked(sections, specs, i))
            && forall n | 0 <= n <= |specs| ::
                 Pick(sections, specs[..n], render).Ok? && Pick(sections, specs[..n], render).value.parts <= parts
  {
    PickStaysInRange(sections, specs, render);
    if specs == [] {
      assert specs[..0] == specs;
    } else {
      var n := |specs| - 1;
      PickedExactly(sections, specs[..n], render);
      var before := Pick(sections, specs[..n], render).value.parts;
      PickedLast(sections, specs, render);
      forall m | 0 <= m <= |specs|
        ensures Pick(sections, specs[..m], render).Ok? && Pick(sections, specs[..m], render).value.parts <= Pick(sections, specs, render).value.parts
      {
        if m == |specs| { assert specs[..m] == specs; } else { assert specs[..n][..m] == specs[..m]; }
      }
    }
  }

  lemma PickedLast(sections: seq<Section>, specs: seq<Spec>, render: string -> Result<string>)
    requires specs != [] && Pick(sections, specs, render).Ok?
    requires forall i: nat :: Kept(i) in Pick(sections, specs[..|specs| - 1], render).value.parts <==> Asked(sections, specs[..|specs| - 1], i)
    ensures Pick(sections, specs[..|specs| - 1], render).value.parts <= Pick(sections, specs, render).value.parts
    ensures forall i: nat :: Kept(i) in Pick(sections, specs, render).value.parts <==> Asked(sections, specs, i)
  {
    var n := |specs| - 1;
    var spec := specs[n];
    var before := Pick(sections, specs[..n], render).value.parts;
    if !spec.Custom? { AddAllIs(before, Matches(sections, Wanted(spec), spec.Metrics?)); }
    forall i: nat ensures Kept(i) in Pick(sections, specs, render).value.parts <==> Asked(sections, specs, i) {
      MatchesAre(sections, Wanted(spec), spec.Metrics?, i);
      AskedGrows(sections, specs, i);
    }
  }

  lemma AskedGrows(sections: seq<Section>, specs: seq<Spec>, i: nat)
    requires specs != []
    ensures Asked(sections, specs, i) <==> Asked(sections, specs[..|specs| - 1], i) || Asks(sections, specs[|specs| - 1], i)
  {
    var n := |specs| - 1;
    if k :| 0 <= k < n && Asks(sections, specs[..n][k], i) { assert Asks(sections, specs[k], i); }
    if k :| 0 <= k < |specs| && Asks(sections, specs[k], i) { assert k < n ==> Asks(sections, specs[..n][k], i); }
  }

  function Selected(sections: seq<Section>, specs: seq<Spec>, render: string -> Result<string>): seq<Part>
    requires Pick(sections, specs, render).Ok?
  {
    AllParts(sections, Pick(sections, specs, render).value)
  }

  /** Which sections a composed report shows: those asked for and every Warnings section,
      each exactly once. */
  lemma ShownExactly(sections: seq<Section>, specs: seq<Spec>, render: string -> Result<string>)
    requires Pick(sections, specs, render).Ok?
    ensures var parts := Selected(sections, specs, render);
            && Distinct(parts) && InRange(sections, parts)
            && forall i: nat :: Kept(i) in parts <==> Asked(sections, specs, i) || (i < |sections| && IsWarnings(sections[i]))
  {
    var o := Pick(sections, specs, render).value;
    PickStaysInRange(sections, specs, render);
    PickedExactly(sections, specs, render);
    LeftoversAre(sections, o.parts, |sections|);
    var rest := Leftovers(sections, o.parts, |sections|);
    assert forall a | 0 <= a < |o.parts| :: o.parts[a] in o.parts;
    assert forall b | 0 <= b < |rest| :: rest[b] in rest && rest[b] !in o.parts;
  }

  /** An entry is reported as matching nothing exactly when it asks for no section. */
  lemma {:induction false} MissedExactly(sections: seq<Section>, specs: seq<Spec>, render: string -> Result<string>)
    requires Pick(sections, specs, render).Ok?
    ensures forall s :: s in Pick(sections, specs, render).value.missed <==>
              s in specs && !s.Custom? && forall i: nat :: !Asks(sections, s, i)
  {
    if specs != [] {
      var n := |specs| - 1;
      var spec := specs[n];
      MissedExactly(sections, specs[..n], render);
      assert forall s :: s in specs <==> s in specs[..n] || s == spec;
      var matches := Matches(sections, Wanted(spec), spec.Metrics?);
      forall i: nat ensures i in matches <==> Asks(sections, spec, i) {
        MatchesAre(sections, Wanted(spec), spec.Metrics?, i);
      }
      assert matches != [] ==> matches[0] in matches;
    }
  }

  /** A custom entry puts its text behind all parts of the entries before it, an earlier failure or
      its own fails the whole. */
  lemma CustomGoesLast(sections: seq<Section>, specs: seq<Spec>, spec: Spec, render: string -> Result<string>)
    requires spec.Custom?
    ensures var before, after := Pick(sections, specs, render), Pick(sections, specs + [spec], render);
            && (before.Err? ==> after == before)
            && (before.Ok? && CustomText(spec, render).Err? ==> after == Err(CustomText(spec, render).error))
            && (before.Ok? && CustomText(spec, render).Ok? ==>
                  after == Ok(Outcome(before.value.parts + [Free(CustomText(spec, render).value)], before.value.missed)))
  {
    assert (specs + [spec])[..|specs|] == specs;
  }

  // ------------------------------------------------------ what the entries mean

  /** Section `i` is the first with this heading. */
  ghost predicate FirstWith(sections: seq<Section>, heading: string, i: nat) {
    && i < |sections| && SameHeading(sections[i].heading, heading)
    && forall k | 0 <= k < i :: !SameHeading(sections[k].heading, heading)
  }

  ghost predicate NoneWith(sections: seq<Section>, heading: string) {
    forall s | s in sections :: !SameHeading(s.heading, heading)
  }

  lemma PositionIs(sections: seq<Section>, heading: string, i: nat)
    ensures i < |sections| && Position(sections, heading) == i <==> FirstWith(sections, heading, i)
    ensures Position(sections, heading) == |sections| <==> NoneWith(sections, heading)
  {
    var p := Position(sections, heading);
    if p < |sections| { assert sections[p] in sections; }
    if FirstWith(sections, heading, i) { assert sections[i] in sections; }
  }

  /** Upper and lower case of the same ASCII letter. */
  predicate SameLetter(a: char, b: char) {
    ('A' <= a <= 'Z' && b as int == a as int + 32) || ('A' <= b <= 'Z' && a as int == b as int + 32)
  }

  lemma SameHeadingExactly(a: string, b: string)
    ensures SameHeading(a, b) <==> |a| == |b| && forall i | 0 <= i < |a| :: a[i] == b[i] || SameLetter(a[i], b[i])
  {
    assert forall x, y :: Lower(x) == Lower(y) <==> x == y || SameLetter(x, y);
  }

  /** Which sections each kind of entry asks for. */
  lemma {:induction false} AsksExactly(sections: seq<Section>, spec: Spec, i: nat)
    ensures Asks(sections, spec, i) <==>
            match spec
            case Metrics =>
              || FirstWith(sections, "Summary", i)
              || (NoneWith(sections, "Summary") && FirstWith(sections, "Overview", i))
              || (NoneWith(sections, "Summary") && NoneWith(sections, "Overview") && FirstWith(sections, "Schedule", i))
            case Charts => FirstWith(sections, "Charts", i)
            case TraceDiagram => FirstWith(sections, "Traceability Diagram", i)
            case AiSummary => FirstWith(sections, "AI Summary", i)
            case AiAnalysis => FirstWith(sections, "AI Analysis", i)
            case AiRisks => FirstWith(sections, "AI Risks", i)
            case AiRecommendations => FirstWith(sections, "AI Recommendations", i)
            case AiSections => exists s | s in {AiSummary, AiAnalysis, AiRisks, AiRecommendations} :: Asks(sections, s, i)
            case TaskList =>
              || FirstWith(sections, "Completed Tasks", i) || FirstWith(sections, "In Progress", i)
              || FirstWith(sections, "Blockers", i) || FirstWith(sections, "Tasks", i) || FirstWith(sections, "Defects", i)
            case Named(heading) => FirstWith(sections, Trim(heading), i)
            case Custom(_, _, _) => false
  {
    hide Asks, FirstWith, NoneWith;
    match spec
    case Metrics => MetricsAsks(sections, i);
    case TaskList => AsksOneOf(sections, spec, i); FiveHeadings(sections, i);
    case AiSections =>
      AsksOneOf(sections, AiSections, i);
      AsksOne(sections, AiSummary, i, "AI Summary");
      AsksOne(sections, AiAnalysis, i, "AI Analysis");
      AsksOne(sections, AiRisks, i, "AI Risks");
      AsksOne(sections, AiRecommendations, i, "AI Recommendations");
      FourHeadings(sections, i);
    case Custom(_, _, _) => AsksOneOf(sections, spec, i);
    case Charts => AsksOne(sections, spec, i, "Charts");
    case TraceDiagram => AsksOne(sections, spec, i, "Traceability Diagram");
    case AiSummary => AsksOne(sections, spec, i, "AI Summary");
    case AiAnalysis => AsksOne(sections, spec, i, "AI Analysis");
    case AiRisks => AsksOne(sections, spec, i, "AI Risks");
    case AiRecommendations => AsksOne(sections, spec, i, "AI Recommendations");
    case Named(heading) => AsksOne(sections, spec, i, Trim(heading));
  }

  lemma AsksOne(sections: seq<Section>, spec: Spec, i: nat, heading: string)
    requires !spec.Metrics? && Wanted(spec) == [heading]
    ensures Asks(sections, spec, i) <==> FirstWith(sections, heading, i)
  {
    hide FirstWith, Asks;
    AsksOneOf(sections, spec, i);
    assert FirstWith(sections, Wanted(spec)[0], i) <==> FirstWith(sections, heading, i);
  }

  lemma FiveHeadings(sections: seq<Section>, i: nat)
    ensures var w := Wanted(TaskList);
            (exists k | 0 <= k < |w| :: FirstWith(sections, w[k], i)) <==>
            || FirstWith(sections, "Completed Tasks", i) || FirstWith(sections, "In Progress", i)
            || FirstWith(sections, "Blockers", i) || FirstWith(sections, "Tasks", i) || FirstWith(sections, "Defects", i)
  {
    hide FirstWith;
    var w := Wanted(TaskList);
    assert w[0] == "Completed Tasks" && w[1] == "In Progress" && w[2] == "Blockers" && w[3] == "Tasks" && w[4] == "Defects";
  }

  lemma FourHeadings(sections: seq<Section>, i: nat)
    ensures var w := Wanted(AiSections);
            (exists k | 0 <= k < |w| :: FirstWith(sections, w[k], i)) <==>
            || FirstWith(sections, "AI Summary", i) || FirstWith(sections, "AI Analysis", i)
            || FirstWith(sections, "AI Risks", i) || FirstWith(sections, "AI Recommendations", i)
  {
    hide FirstWith;
    var w := Wanted(AiSections);
    assert w[0] == "AI Summary" && w[1] == "AI Analysis" && w[2] == "AI Risks" && w[3] == "AI Recommendations";
  }

  lemma AsksOneOf(sections: seq<Section>, spec: Spec, i: nat)
    requires !spec.Metrics?
    ensures Asks(sections, spec, i) <==> exists k | 0 <= k < |Wanted(spec)| :: FirstWith(sections, Wanted(spec)[k], i)
  {
    hide Wanted, FirstWith, Position;
    forall k: nat | k < |Wanted(spec)|
      ensures FirstWith(sections, Wanted(spec)[k], i) <==> i < |sections| && Hit(sections, Wanted(spec), false, i, k)
    {
      PositionIs(sections, Wanted(spec)[k], i);
    }
  }

  lemma MetricsAsks(sections: seq<Section>, i: nat)
    ensures Asks(sections, Metrics, i) <==>
            || FirstWith(sections, "Summary", i)
            || (NoneWith(sections, "Summary") && FirstWith(sections, "Overview", i))
            || (NoneWith(sections, "Summary") && NoneWith(sections, "Overview") && FirstWith(sections, "Schedule", i))
  {
    hide FirstWith, NoneWith, Position;
    var w := Wanted(Metrics);
    assert w == ["Summary", "Overview", "Schedule"];
    PositionIs(sections, "Summary", i);
    PositionIs(sections, "Overview", i);
    PositionIs(sections, "Schedule", i);
    assert Hit(sections, w, true, i, 0) <==> Position(sections, "Summary") == i;
    assert Hit(sections, w, true, i, 1) <==> Position(sections, "Overview") == i && Position(sections, "Summary") == |sections| by {
      assert w[..1] == ["Summary"];
    }
    assert Hit(sections, w, true, i, 2) <==>
           Position(sections, "Schedule") == i && Position(sections, "Summary") == |sections| && Position(sections, "Overview") == |sections| by {
      assert w[..2] == ["Summary", "Overview"];
    }
  }

  /** What a custom entry's text is: its error is the template's; otherwise, up to white space at the
      end, its heading, the end-trimmed body and the end-trimmed template text, on lines of their own. */
  lemma {:induction false} CustomTextExactly(spec: Spec, render: string -> Result<string>)
    requires spec.Custom?
    ensures CustomText(spec, render).Err? <==> spec.template.Some? && render(spec.template.value).Err?
    ensures CustomText(spec, render).Err? ==> CustomText(spec, render).error == render(spec.template.value).error
    ensures CustomText(spec, render).Ok? ==>
              var text := CustomText(spec, render).value;
              var heading := if spec.title.Some? then "## " + Trim(spec.title.value) + "\n\n" else "";
              var body := if spec.body.Some? then TrimEnd(spec.body.value) + "\n" else "";
              var filled := if spec.template.Some? then TrimEnd(render(spec.template.value).value) + "\n" else "";
              && (text == "" || EndsInk(text))
              && exists ws :: Blank(ws) && heading + body + filled == text + ws
  {
    hide TrimEnd, Trim, Blank, EndsInk;
    if CustomText(spec, render).Ok? {
      var heading := if spec.title.Some? then "## " + Trim(spec.title.value) + "\n\n" else "";
      var body := if spec.body.Some? then TrimEnd(spec.body.value) + "\n" else "";
      var filled := if spec.template.Some? then TrimEnd(render(spec.template.value).value) + "\n" else "";
      var whole := heading + body + filled;
      if spec.template.None? { assert whole == heading + body; } else { assert whole == heading + body + TrimEnd(render(spec.template.value).value) + "\n"; }
      assert CustomText(spec, render).value == TrimEnd(whole);
      TrimEndSplits(whole);
    }
  }

  lemma TrimEndSplits(s: string)
    ensures TrimEnd(s) == "" || EndsInk(TrimEnd(s))
    ensures exists ws :: Blank(ws) && s == TrimEnd(s) + ws
  {
    TrimEndIs(s);
    assert s == TrimEnd(s) + s[|TrimEnd(s)|..];
  }

  // ------------------------------------------------------------- the round trip

  predicate Plain(specs: seq<Spec>) {
    forall s | s in specs :: !s.Custom? && Valid(s)
  }

  lemma {:induction false} PlainPicks(sections: seq<Section>, specs: seq<Spec>, render: string -> Result<string>)
    requires Plain(specs)
    ensures Pick(sections, specs, render).Ok?
    ensures forall p | p in Pick(sections, specs, render).value.parts :: p.Kept?
  {
    if specs != [] {
      var n := |specs| - 1;
      assert forall s | s in specs[..n] :: s in specs;
      PlainPicks(sections, specs[..n], render);
      AddAllIs(Pick(sections, specs[..n], render).value.parts, Matches(sections, Wanted(specs[n]), specs[n].Metrics?));
    }
  }

  /** Parts that name sections with a heading, none twice. */
  predicate Good(sections: seq<Section>, parts: seq<Part>) {
    Distinct(parts) && forall p | p in parts :: p.Kept? && p.index < |sections| && sections[p.index].heading != ""
  }

  lemma AskedHasHeading(sections: seq<Section>, spec: Spec, i: nat)
    requires Valid(spec) && Asks(sections, spec, i)
    ensures sections[i].heading != ""
  {
    var w := Wanted(spec);
    var k :| 0 <= k < |w| && Hit(sections, w, spec.Metrics?, i, k);
    assert SameHeading(sections[i].heading, w[k]) && w[k] != "";
  }

  lemma ShownIsGood(sections: seq<Section>, specs: seq<Spec>, render: string -> Result<string>)
    requires Plain(specs)
    ensures Pick(sections, specs, render).Ok? && Good(sections, Selected(sections, specs, render))
  {
    PlainPicks(sections, specs, render);
    ShownExactly(sections, specs, render);
    LeftoversAre(sections, Pick(sections, specs, render).value.parts, |sections|);
    forall p | p in Selected(sections, specs, render) ensures p.Kept? && p.index < |sections| && sections[p.index].heading != "" {
      var i := p.index;
      if Asked(sections, specs, i) {
        var k :| 0 <= k < |specs| && Asks(sections, specs[k], i);
        assert specs[k] in specs;
        AskedHasHeading(sections, specs[k], i);
      }
    }
  }

  /** The chosen sections with trimmed texts. */
  function Trimmed(sections: seq<Section>, parts: seq<Part>): seq<Section>
    requires Good(sections, parts)
  {
    seq(|parts|, k requires 0 <= k < |parts| => assert parts[k] in parts; TrimmedAt(sections, parts[k].index))
  }

  function TrimmedAt(sections: seq<Section>, i: nat): Section
    requires i < |sections|
  {
    Section(sections[i].heading, TrimEnd(sections[i].text))
  }

  lemma {:induction false} NonEmptyAppends(a: seq<string>, b: seq<string>)
    ensures NonEmpty(a + b) == NonEmpty(a) + NonEmpty(b)
  {
    if b == [] {
      assert a + b == a;
    } else {
      FrontOfConcat(a, b);
      NonEmptyAppends(a, b[..|b| - 1]);
    }
  }

  lemma {:induction false} NonEmptyKeeps(texts: seq<string>)
    requires forall t | t in texts :: t != ""
    ensures NonEmpty(texts) == texts
  {
    if texts != [] {
      var n := |texts| - 1;
      assert texts[n] in texts && forall t | t in texts[..n] :: t in texts;
      NonEmptyKeeps(texts[..n]);
    }
  }

  lemma NonEmptyAll(first: string, rest: seq<string>)
    requires forall t | t in rest :: t != ""
    ensures NonEmpty([first] + rest) == (if first == "" then [] else [first]) + rest
  {
    NonEmptyAppends([first], rest);
    NonEmptyKeeps(rest);
    assert [first][..0] == [];
  }

  /** The section leaves a fence open: it is the last of a report with an odd number of fence lines. */
  predicate Opens(before: Split, p: Part) {
    before.inFence && p.Kept? && p.index + 1 == |before.sections|
  }

  lemma PieceScans(before: Split, p: Part)
    requires Standalone(before) && p.Kept? && p.index < |before.sections| && before.sections[p.index].heading != ""
    ensures ScansAlone(TrimmedAt(before.sections, p.index), Opens(before, p))
  {
    assert Alone(before.sections[p.index], p.index == |before.sections| - 1 && before.inFence);
    TrimmedSection(before.sections[p.index], Opens(before, p));
  }

  lemma PiecesScan(before: Split, parts: seq<Part>)
    requires Standalone(before) && Good(before.sections, parts)
    ensures forall k | 0 <= k < |parts| :: ScansAlone(Trimmed(before.sections, parts)[k], Opens(before, parts[k]))
  {
    forall k | 0 <= k < |parts| ensures ScansAlone(Trimmed(before.sections, parts)[k], Opens(before, parts[k])) {
      assert parts[k] in parts;
      PieceScans(before, parts[k]);
    }
  }

  lemma PreambleScans(before: Split)
    requires Standalone(before)
    ensures var pre := TrimEnd(before.preamble);
            pre != "" ==> SplitOf(pre + "\n") == Split(pre + "\n", [], before.sections == [] && before.inFence)
  {
    if TrimEnd(before.preamble) != "" { TrimmedPreamble(before.preamble, before.sections == [] && before.inFence); }
  }

  /** What is printed for entries without custom text. */
  lemma PrintsPieces(rendered: string, specs: seq<Spec>, render: string -> Result<string>)
    requires Plain(specs)
    ensures var before := SplitOf(rendered);
            && Pick(before.sections, specs, render).Ok? && Good(before.sections, Selected(before.sections, specs, render))
            && var pre, picked := TrimEnd(before.preamble), Trimmed(before.sections, Selected(before.sections, specs, render));
            && Compose(rendered, specs, render).Ok?
            && Compose(rendered, specs, render).value.markdown ==
               (if pre == "" && picked == [] then "" else Join(Pieces(pre, picked))) + "\n"
  {
    var before := SplitOf(rendered);
    ShownIsGood(before.sections, specs, render);
    var parts := Selected(before.sections, specs, render);
    var picked := Trimmed(before.sections, parts);
    SplitStandalone(rendered);
    PiecesScan(before, parts);
    LeftoversAre(before.sections, Pick(before.sections, specs, render).value.parts, |before.sections|);
    PickStaysInRange(before.sections, specs, render);
    assert InRange(before.sections, parts);
    assert PartTexts(before.sections, parts) == Texts(picked);
    forall t | t in Texts(picked) ensures t != "" {
      var k :| 0 <= k < |picked| && Texts(picked)[k] == t;
      assert ScansAlone(picked[k], Opens(before, parts[k]));
    }
    NonEmptyAll(TrimEnd(before.preamble), Texts(picked));
  }

  /** Scanning the composed report finds the preamble and the chosen sections again, in
      their order and with their headings and texts, up to trailing white space. */
  ghost predicate FoundAgain(before: Split, parts: seq<Part>, after: Split) {
    && Good(before.sections, parts)
    && TrimEnd(after.preamble) == TrimEnd(before.preamble)
    && |after.sections| == |parts|
    && forall k | 0 <= k < |parts| :: TrimmedAt(after.sections, k) == Trimmed(before.sections, parts)[k]
  }

  lemma LaidPreamble(pre: string, picked: seq<Section>, open: bool)
    requires pre == "" || EndsInk(pre)
    ensures TrimEnd(Laid(pre, picked, open).preamble) == pre
  {
    TrimEndOf(pre, "\n");
    TrimEndOf(pre, "\n\n");
  }

  lemma LaidSection(pre: string, picked: seq<Section>, open: bool, k: nat)
    requires k < |picked| && EndsInk(picked[k].text)
    ensures |Laid(pre, picked, open).sections| == |picked| && TrimmedAt(Laid(pre, picked, open).sections, k) == picked[k]
  {
    TrimEndOf(picked[k].text, "\n");
    TrimEndOf(picked[k].text, "\n\n");
  }

  lemma LaidIsFound(before: Split, parts: seq<Part>, open: bool)
    requires Standalone(before) && Good(before.sections, parts)
    ensures FoundAgain(before, parts, Laid(TrimEnd(before.preamble), Trimmed(before.sections, parts), open))
  {
    var pre, picked := TrimEnd(before.preamble), Trimmed(before.sections, parts);
    TrimEndIs(before.preamble);
    LaidPreamble(pre, picked, open);
    PiecesScan(before, parts);
    assert |Laid(pre, picked, open).sections| == |picked|;
    forall k | 0 <= k < |parts| ensures TrimmedAt(Laid(pre, picked, open).sections, k) == picked[k] {
      assert ScansAlone(picked[k], Opens(before, parts[k]));
      LaidSection(pre, picked, open, k);
    }
  }

  /** No section that leaves a fence open is followed by another. */
  predicate OpenComesLast(before: Split, parts: seq<Part>) {
    forall k | 0 <= k < |parts| - 1 :: !Opens(before, parts[k])
  }

  lemma ClosedIsFound(before: Split, parts: seq<Part>)
    requires Standalone(before) && Good(before.sections, parts) && OpenComesLast(before, parts)
    ensures var pre, picked := TrimEnd(before.preamble), Trimmed(before.sections, parts);
            FoundAgain(before, parts, SplitOf((if pre == "" && picked == [] then "" else Join(Pieces(pre, picked))) + "\n"))
  {
    var pre, picked := TrimEnd(before.preamble), Trimmed(before.sections, parts);
    var n := |parts| - 1;
    PreambleScans(before);
    PiecesScan(before, parts);
    if pre == "" && picked == [] {
      BlankIsNothing();
    } else if parts == [] {
      LaidScans(pre, picked, before.sections == [] && before.inFence);
      LaidIsFound(before, parts, before.sections == [] && before.inFence);
    } else {
      assert parts[n] in parts;
      forall k | 0 <= k < |picked| ensures ScansAlone(picked[k], k == n && Opens(before, parts[n])) {}
      LaidScans(pre, picked, Opens(before, parts[n]));
      LaidIsFound(before, parts, Opens(before, parts[n]));
    }
  }

  lemma BlankIsNothing()
    ensures SplitOf("" + "\n") == Split("\n", [], false) && TrimEnd("\n") == ""
  {
    BlankIsPlain("\n");
    ScanOneMore("", "\n");
    assert SplitOf("") == EMPTY && "" + "\n" == "\n";
    TrimEndOf("", "\n");
  }

  lemma LostBehind(pre: string, picked: seq<Section>, j: nat)
    requires j < |picked| - 1
    requires pre != "" ==> SplitOf(pre + "\n") == Split(pre + "\n", [], false)
    requires forall k | 0 <= k < |picked| :: ScansAlone(picked[k], k == j)
    ensures var all := SplitOf(Join(Pieces(pre, picked)) + "\n");
            |all.sections| > j && TrimEnd(all.sections[j].text) != picked[j].text
  {
    var head, tail := picked[..j + 1], picked[j + 1..];
    assert picked == head + tail;
    forall k | 0 <= k < |head| ensures ScansAlone(head[k], k == |head| - 1 && true) { assert ScansAlone(picked[k], k == j); }
    LaidScans(pre, head, true);
    assert ScansAlone(picked[j + 1], false);
    LaidIsLost(pre, head, tail);
  }

  lemma OpenIsLost(before: Split, parts: seq<Part>, j: nat)
    requires Standalone(before) && Good(before.sections, parts) && j < |parts| - 1 && Opens(before, parts[j])
    ensures !FoundAgain(before, parts, SplitOf(Join(Pieces(TrimEnd(before.preamble), Trimmed(before.sections, parts))) + "\n"))
  {
    var pre, picked := TrimEnd(before.preamble), Trimmed(before.sections, parts);
    PreambleScans(before);
    PiecesScan(before, parts);
    forall k | 0 <= k < |picked| ensures ScansAlone(picked[k], k == j) { assert ScansAlone(picked[k], Opens(before, parts[k])); }
    LostBehind(pre, picked, j);
    var all := SplitOf(Join(Pieces(pre, picked)) + "\n");
    assert TrimmedAt(all.sections, j).text == TrimEnd(all.sections[j].text);
  }

  /** The composed report holds exactly the chosen sections, found again by scanning it, if and
      only if no section that leaves a fence open is followed by another. */
  lemma {:induction false} RoundTripExactly(rendered: string, specs: seq<Spec>, render: string -> Result<string>)
    requires Plain(specs)
    ensures var before := SplitOf(rendered);
            && Pick(before.sections, specs, render).Ok? && Compose(rendered, specs, render).Ok?
            && var parts := Selected(before.sections, specs, render);
               (FoundAgain(before, parts, SplitOf(Compose(rendered, specs, render).value.markdown)) <==> OpenComesLast(before, parts))
  {
    var before := SplitOf(rendered);
    ShownIsGood(before.sections, specs, render);
    PrintsPieces(rendered, specs, render);
    SplitStandalone(rendered);
    var parts := Selected(before.sections, specs, render);
    if OpenComesLast(before, parts) {
      ClosedIsFound(before, parts);
    } else {
      var j :| 0 <= j < |parts| - 1 && Opens(before, parts[j]);
      OpenIsLost(before, parts, j);
    }
  }

  /** With an even number of fence lines the round trip always succeeds. */
  lemma {:induction false} EvenFencesRoundTrip(rendered: string, specs: seq<Spec>, render: string -> Result<string>)
    requires Plain(specs) && Fences(Lines(rendered)) % 2 == 0
    ensures var before := SplitOf(rendered);
            && Pick(before.sections, specs, render).Ok? && Compose(rendered, specs, render).Ok?
            && FoundAgain(before, Selected(before.sections, specs, render), SplitOf(Compose(rendered, specs, render).value.markdown))
  {
    RoundTripExactly(rendered, specs, render);
    OpenIffOdd(Lines(rendered));
  }

  // ------------------------------------------------------------- composing twice

  function Identity(n: nat): seq<Part> {
    seq(n, k requires 0 <= k < n => Kept(k))
  }

  /** `again` has the chosen sections' headings in the chosen order. */
  predicate Mirrors(sections: seq<Section>, parts: seq<Part>, again: seq<Section>) {
    && Good(sections, parts) && |again| == |parts|
    && forall k | 0 <= k < |parts| :: again[k].heading == Trimmed(sections, parts)[k].heading
  }

  /** No chosen section comes before the first section with its heading. */
  predicate FirstsFirst(sections: seq<Section>, parts: seq<Part>)
    requires Good(sections, parts)
  {
    forall k | 0 <= k < |parts| :: Kept(Position(sections, Trimmed(sections, parts)[k].heading)) in parts[..k + 1]
  }

  lemma MirrorHeading(sections: seq<Section>, parts: seq<Part>, again: seq<Section>, k: nat)
    requires Mirrors(sections, parts, again) && k < |parts|
    ensures parts[k].Kept? && parts[k].index < |sections|
    ensures again[k].heading == Trimmed(sections, parts)[k].heading == sections[parts[k].index].heading
  {
    assert parts[k] in parts;
  }

  lemma {:induction false} SamePosition(sections: seq<Section>, a: string, b: string)
    requires SameHeading(a, b)
    ensures Position(sections, a) == Position(sections, b)
  {
    if sections != [] { SamePosition(sections[1..], a, b); }
  }

  lemma FirstOf(sections: seq<Section>, parts: seq<Part>, q: nat) returns (j: nat)
    requires Good(sections, parts) && FirstsFirst(sections, parts) && q < |parts|
    ensures j <= q && parts[j] == Kept(Position(sections, Trimmed(sections, parts)[q].heading))
  {
    var i := Position(sections, Trimmed(sections, parts)[q].heading);
    assert Kept(i) in parts[..q + 1];
    j :| 0 <= j <= q && parts[..q + 1][j] == Kept(i);
  }

  /** A chosen first match is the first match again. */
  lemma MirrorPosition(sections: seq<Section>, parts: seq<Part>, again: seq<Section>, h: string)
    requires Mirrors(sections, parts, again) && FirstsFirst(sections, parts)
    requires Kept(Position(sections, h)) in parts
    ensures var q := Position(again, h); q < |parts| && parts[q] == Kept(Position(sections, h))
  {
    hide SameHeading, Position;
    var i, q := Position(sections, h), Position(again, h);
    var k :| 0 <= k < |parts| && parts[k] == Kept(i);
    MirrorReaches(sections, parts, again, h, k);
    MirrorHeading(sections, parts, again, q);
    SamePosition(sections, again[q].heading, h);
    var j := FirstOf(sections, parts, q);
    MirrorReaches(sections, parts, again, h, j);
  }

  lemma MirrorReaches(sections: seq<Section>, parts: seq<Part>, again: seq<Section>, h: string, j: nat)
    requires Mirrors(sections, parts, again) && j < |parts| && parts[j] == Kept(Position(sections, h))
    ensures Position(again, h) <= j
  {
    MirrorHeading(sections, parts, again, j);
  }

  lemma MirrorAbsent(sections: seq<Section>, parts: seq<Part>, again: seq<Section>, h: string)
    requires Mirrors(sections, parts, again) && Position(sections, h) == |sections|
    ensures Position(again, h) == |again|
  {
    forall q | 0 <= q < |again| ensures !SameHeading(again[q].heading, h) {
      assert parts[q] in parts;
      assert again[q].heading == sections[parts[q].index].heading;
    }
  }

  /** `new_` are the places of `old_` in the chosen order. */
  predicate Renumbers(parts: seq<Part>, old_: seq<nat>, new_: seq<nat>) {
    |old_| == |new_| && forall x | 0 <= x < |old_| :: new_[x] < |parts| && parts[new_[x]] == Kept(old_[x])
  }

  predicate AllKept(parts: seq<Part>, matches: seq<nat>) {
    forall x | 0 <= x < |matches| :: Kept(matches[x]) in parts
  }

  lemma RenumbersMore(parts: seq<Part>, i: nat, j: nat, old_: seq<nat>, new_: seq<nat>)
    requires j < |parts| && parts[j] == Kept(i) && Renumbers(parts, old_, new_)
    ensures Renumbers(parts, [i] + old_, [j] + new_)
  {
  }

  lemma {:induction false} MirrorMatches(sections: seq<Section>, parts: seq<Part>, again: seq<Section>, wanted: seq<string>, first: bool)
    requires Mirrors(sections, parts, again) && FirstsFirst(sections, parts)
    requires AllKept(parts, Matches(sections, wanted, first))
    ensures Renumbers(parts, Matches(sections, wanted, first), Matches(again, wanted, first))
  {
    if wanted != [] {
      var i, rest := Position(sections, wanted[0]), Matches(sections, wanted[1..], first);
      if i == |sections| {
        MirrorAbsent(sections, parts, again, wanted[0]);
        MirrorMatches(sections, parts, again, wanted[1..], first);
      } else {
        assert Matches(sections, wanted, first)[0] == i;
        MirrorPosition(sections, parts, again, wanted[0]);
        if !first {
          assert forall x | 0 <= x < |rest| :: rest[x] == Matches(sections, wanted, first)[x + 1];
          MirrorMatches(sections, parts, again, wanted[1..], first);
          RenumbersMore(parts, i, Position(again, wanted[0]), rest, Matches(again, wanted[1..], first));
        }
      }
    }
  }

  lemma SameKeptSamePlace(parts: seq<Part>, a: nat, b: nat)
    requires Distinct(parts) && a < |parts| && b < |parts| && parts[a].Kept?
    ensures parts[a] == parts[b] ==> a == b
  {
    if a < b { assert parts[a] != parts[b]; } else if b < a && parts[b].Kept? { assert parts[b] != parts[a]; }
  }

  lemma MirrorAddOne(parts: seq<Part>, p: nat, i: nat, j: nat) returns (q: nat)
    requires p <= |parts| && j < |parts| && Distinct(parts) && parts[j] == Kept(i) && AddOne(parts[..p], i) <= parts
    ensures q <= |parts| && AddOne(parts[..p], i) == parts[..q] && AddOne(Identity(p), j) == Identity(q)
  {
    if Kept(i) in parts[..p] {
      var x :| 0 <= x < p && parts[..p][x] == Kept(i);
      SameKeptSamePlace(parts, x, j);
      assert Identity(p)[j] == Kept(j);
      q := p;
    } else {
      assert parts[p] == AddOne(parts[..p], i)[p] == Kept(i);
      SameKeptSamePlace(parts, p, j);
      assert Identity(p) + [Kept(p)] == Identity(p + 1);
      q := p + 1;
    }
  }

  lemma {:induction false} MirrorAdd(parts: seq<Part>, p: nat, old_: seq<nat>, new_: seq<nat>)
    requires p <= |parts| && Distinct(parts) && Renumbers(parts, old_, new_) && AddAll(parts[..p], old_) <= parts
    ensures AddAll(Identity(p), new_) == Identity(|AddAll(parts[..p], old_)|)
    decreases |old_|
  {
    if old_ != [] {
      AddAllIs(AddOne(parts[..p], old_[0]), old_[1..]);
      var q := MirrorAddOne(parts, p, old_[0], new_[0]);
      MirrorAdd(parts, q, old_[1..], new_[1..]);
    }
  }

  lemma AddedAreKept(parts: seq<Part>, before: seq<Part>, matches: seq<nat>)
    requires AddAll(before, matches) <= parts
    ensures AllKept(parts, matches) && before <= parts
  {
    var all := AddAll(before, matches);
    AddAllIs(before, matches);
    forall x | 0 <= x < |matches| ensures Kept(matches[x]) in parts {
      assert Kept(matches[x]) in all;
      var k :| 0 <= k < |all| && all[k] == Kept(matches[x]);
      assert parts[k] == all[k];
    }
  }

  lemma MirrorOne(sections: seq<Section>, parts: seq<Part>, again: seq<Section>, o: Outcome, spec: Spec, render: string -> Result<string>)
    requires !spec.Custom? && Mirrors(sections, parts, again) && FirstsFirst(sections, parts)
    requires PickOne(sections, o, spec, render).value.parts <= parts
    ensures var r := PickOne(sections, o, spec, render).value;
            PickOne(again, Outcome(Identity(|o.parts|), o.missed), spec, render) == Ok(Outcome(Identity(|r.parts|), r.missed))
  {
    var old_ := Matches(sections, Wanted(spec), spec.Metrics?);
    AddedAreKept(parts, o.parts, old_);
    MirrorMatches(sections, parts, again, Wanted(spec), spec.Metrics?);
    assert parts[..|o.parts|] == o.parts;
    MirrorAdd(parts, |o.parts|, old_, Matches(again, Wanted(spec), spec.Metrics?));
  }

  lemma {:induction false} MirrorPick(sections: seq<Section>, parts: seq<Part>, again: seq<Section>, specs: seq<Spec>, render: string -> Result<string>)
    requires Plain(specs) && Mirrors(sections, parts, again) && FirstsFirst(sections, parts)
    requires Pick(sections, specs, render).Ok? && Pick(sections, specs, render).value.parts <= parts
    ensures var o := Pick(sections, specs, render).value;
            Pick(again, specs, render) == Ok(Outcome(Identity(|o.parts|), o.missed))
  {
    if specs == [] {
      assert Identity(0) == [];
    } else {
      var n := |specs| - 1;
      assert specs[n] in specs && forall s | s in specs[..n] :: s in specs;
      var before := Pick(sections, specs[..n], render).value;
      AddAllIs(before.parts, Matches(sections, Wanted(specs[n]), specs[n].Metrics?));
      MirrorPick(sections, parts, again, specs[..n], render);
      MirrorOne(sections, parts, again, before, specs[n], render);
    }
  }

  lemma InIdentity(n: nat, i: nat)
    ensures Kept(i) in Identity(n) <==> i < n
    ensures Identity(n + 1) == Identity(n) + [Kept(n)]
  {
    if i < n { assert Identity(n)[i] == Kept(i); }
  }

  lemma {:induction false} MirrorLeftovers(again: seq<Section>, p: nat, n: nat)
    requires p <= |again| && n <= |again| && forall k | p <= k < |again| :: IsWarnings(again[k])
    ensures Identity(p) + Leftovers(again, Identity(p), n) == Identity(if n <= p then p else n)
  {
    if n > 0 {
      MirrorLeftovers(again, p, n - 1);
      InIdentity(p, n - 1);
      InIdentity(n - 1, 0);
      var rest := Leftovers(again, Identity(p), n - 1);
      assert Identity(p) + (rest + [Kept(n - 1)]) == (Identity(p) + rest) + [Kept(n - 1)];
      assert rest + [] == rest;
    }
  }

  lemma PickedIsFirst(sections: seq<Section>, spec: Spec, i: nat)
    requires Asks(sections, spec, i)
    ensures Position(sections, sections[i].heading) == i
  {
    var w := Wanted(spec);
    var k :| 0 <= k < |w| && Hit(sections, w, spec.Metrics?, i, k);
  }

  lemma NotAfter(rest: seq<Part>, j: nat, k: nat)
    requires j < |rest| && k < |rest| && (forall p | p in rest :: p.Kept?)
    requires forall a, b | 0 <= a < b < |rest| :: rest[a].index < rest[b].index
    ensures rest[j].index <= rest[k].index ==> j <= k
  {
    if k < j { assert rest[k].index < rest[j].index; }
  }

  lemma LeftoverAfterFirst(sections: seq<Section>, picked: seq<Part>, k: nat)
    requires k < |Leftovers(sections, picked, |sections|)|
    ensures var rest := Leftovers(sections, picked, |sections|);
            && rest[k].Kept? && rest[k].index < |sections|
            && Kept(Position(sections, sections[rest[k].index].heading)) in picked + rest[..k + 1]
  {
    LeftoversAre(sections, picked, |sections|);
    var rest := Leftovers(sections, picked, |sections|);
    assert rest[k] in rest;
    var h := sections[rest[k].index].heading;
    var i := Position(sections, h);
    assert IsWarnings(sections[i]);
    if Kept(i) !in picked {
      assert Kept(i) in rest;
      var j :| 0 <= j < |rest| && rest[j] == Kept(i);
      NotAfter(rest, j, k);
      assert rest[..k + 1][j] == Kept(i);
    }
  }

  lemma AskedIsFirst(sections: seq<Section>, specs: seq<Spec>, i: nat)
    requires Asked(sections, specs, i)
    ensures i < |sections| && Position(sections, sections[i].heading) == i
  {
    var m :| 0 <= m < |specs| && Asks(sections, specs[m], i);
    PickedIsFirst(sections, specs[m], i);
  }

  lemma PickedFirstsFirst(sections: seq<Section>, specs: seq<Spec>, render: string -> Result<string>, k: nat)
    requires Pick(sections, specs, render).Ok?
    requires var picked := Pick(sections, specs, render).value.parts; k < |picked| && picked[k].Kept? && picked[k].index < |sections|
    ensures var picked := Pick(sections, specs, render).value.parts;
            Position(sections, sections[picked[k].index].heading) == picked[k].index
  {
    var picked := Pick(sections, specs, render).value.parts;
    PickedExactly(sections, specs, render);
    assert picked[k] in picked && picked[k] == Kept(picked[k].index);
    AskedIsFirst(sections, specs, picked[k].index);
  }

  lemma ShownFirstsFirst(sections: seq<Section>, specs: seq<Spec>, render: string -> Result<string>)
    requires Plain(specs) && Pick(sections, specs, render).Ok? && Good(sections, Selected(sections, specs, render))
    ensures FirstsFirst(sections, Selected(sections, specs, render))
  {
    var parts := Selected(sections, specs, render);
    forall k | 0 <= k < |parts|
      ensures Kept(Position(sections, Trimmed(sections, parts)[k].heading)) in parts[..k + 1]
    {
      assert parts[k] in parts;
      ShownFirst(sections, specs, render, k);
    }
  }

  lemma ShownFirst(sections: seq<Section>, specs: seq<Spec>, render: string -> Result<string>, k: nat)
    requires Pick(sections, specs, render).Ok?
    requires var parts := Selected(sections, specs, render); k < |parts| && parts[k].Kept? && parts[k].index < |sections|
    ensures var parts := Selected(sections, specs, render);
            Kept(Position(sections, sections[parts[k].index].heading)) in parts[..k + 1]
  {
    var picked := Pick(sections, specs, render).value.parts;
    var parts, rest := Selected(sections, specs, render), Leftovers(sections, picked, |sections|);
    if k < |picked| {
      PickedFirstsFirst(sections, specs, render, k);
      assert parts[..k + 1][k] == picked[k];
    } else {
      LeftoverAfterFirst(sections, picked, k - |picked|);
      assert parts[..k + 1] == picked + rest[..k - |picked| + 1];
    }
  }

  lemma MirrorSelected(sections: seq<Section>, specs: seq<Spec>, again: seq<Section>, render: string -> Result<string>)
    requires Plain(specs) && Pick(sections, specs, render).Ok? && Mirrors(sections, Selected(sections, specs, render), again)
    ensures var o := Pick(sections, specs, render).value;
            && Pick(again, specs, render).Ok? && Pick(again, specs, render).value.missed == o.missed
            && Selected(again, specs, render) == Identity(|again|)
  {
    var parts, o := Selected(sections, specs, render), Pick(sections, specs, render).value;
    ShownFirstsFirst(sections, specs, render);
    MirrorPick(sections, parts, again, specs, render);
    LeftoversAre(sections, o.parts, |sections|);
    forall k | |o.parts| <= k < |again| ensures IsWarnings(again[k]) {
      assert parts[k] in Leftovers(sections, o.parts, |sections|);
      assert again[k].heading == sections[parts[k].index].heading;
    }
    MirrorLeftovers(again, |o.parts|, |again|);
  }

  /** Composing the composed report again with the same entries changes nothing, unless a
      section that leaves a fence open is followed by another. */
  lemma {:induction false} ComposeIsIdempotent(rendered: string, specs: seq<Spec>, render: string -> Result<string>)
    requires Plain(specs)
    requires var before := SplitOf(rendered);
             Pick(before.sections, specs, render).Ok? && OpenComesLast(before, Selected(before.sections, specs, render))
    ensures var once := Compose(rendered, specs, render);
            once.Ok? && Compose(once.value.markdown, specs, render) == once
  {
    var before := SplitOf(rendered);
    RoundTripExactly(rendered, specs, render);
    var parts := Selected(before.sections, specs, render);
    var markdown := Compose(rendered, specs, render).value.markdown;
    var after := SplitOf(markdown);
    var picked := Trimmed(before.sections, parts);
    forall k | 0 <= k < |parts| ensures after.sections[k].heading == picked[k].heading {
      assert TrimmedAt(after.sections, k) == picked[k];
    }
    MirrorSelected(before.sections, specs, after.sections, render);
    PrintsPieces(rendered, specs, render);
    PrintsPieces(markdown, specs, render);
    assert Trimmed(after.sections, Identity(|parts|)) == picked;
  }

  // --------------------------------------------------------------- the composer

  /** `used` and `texts` as the composer keeps them while it works through the entries. */
  ghost predicate Tracks(split: Split, parts: seq<Part>, used: seq<bool>, texts: seq<string>) {
    && InRange(split.sections, parts)
    && |used| == |split.sections| && (forall i | 0 <= i < |used| :: used[i] <==> Kept(i) in parts)
    && texts == [TrimEnd(split.preamble)] + PartTexts(split.sections, parts)
  }

  lemma TracksOne(split: Split, parts: seq<Part>, used: seq<bool>, texts: seq<string>, i: nat)
    requires Tracks(split, parts, used, texts) && i < |split.sections|
    ensures if used[i] then AddOne(parts, i) == parts
            else Tracks(split, AddOne(parts, i), used[i := true], texts + [TrimEnd(split.sections[i].text)])
  {
    if !used[i] {
      assert PartTexts(split.sections, parts + [Kept(i)]) == PartTexts(split.sections, parts) + [TrimEnd(split.sections[i].text)];
    }
  }

  /** The inner loop: shows the sections of one entry that are not shown yet. */
  method ShowHeadings(split: Split, wanted: seq<string>, isMetrics: bool, used0: seq<bool>, texts0: seq<string>, ghost parts: seq<Part>)
      returns (used: seq<bool>, texts: seq<string>, shown: bool)
    requires Tracks(split, parts, used0, texts0)
    ensures Tracks(split, AddAll(parts, Matches(split.sections, wanted, isMetrics)), used, texts)
    ensures shown <==> Matches(split.sections, wanted, isMetrics) != []
  {
    used, texts, shown := used0, texts0, false;
    ghost var now := parts;
    var k := 0;
    while k < |wanted|
      invariant 0 <= k <= |wanted| && Tracks(split, now, used, texts)
      invariant AddAll(parts, Matches(split.sections, wanted, isMetrics)) == AddAll(now, Matches(split.sections, wanted[k..], isMetrics))
      invariant Matches(split.sections, wanted, isMetrics) != [] <==> shown || Matches(split.sections, wanted[k..], isMetrics) != []
    {
      var i := Position(split.sections, wanted[k]);
      assert wanted[k..][0] == wanted[k] && wanted[k..][1..] == wanted[k + 1..];
      k := k + 1;
      if i == |split.sections| { continue; }
      shown := true;
      TracksOne(split, now, used, texts, i);
      now := AddOne(now, i);
      if !used[i] {
        used := used[i := true];
        texts := texts + [TrimEnd(split.sections[i].text)];
      }
      if isMetrics { return; }
    }
  }

  lemma {:induction false} PickFails(sections: seq<Section>, specs: seq<Spec>, render: string -> Result<string>, n: nat)
    requires n <= |specs| && Pick(sections, specs[..n], render).Err?
    ensures Pick(sections, specs, render) == Pick(sections, specs[..n], render)
  {
    if n == |specs| {
      assert specs[..n] == specs;
    } else {
      assert specs[..|specs| - 1][..n] == specs[..n];
      PickFails(sections, specs[..|specs| - 1], render, n);
    }
  }

  lemma TracksFree(split: Split, parts: seq<Part>, used: seq<bool>, texts: seq<string>, text: string)
    requires Tracks(split, parts, used, texts)
    ensures Tracks(split, parts + [Free(text)], used, texts + [text])
  {
    assert PartTexts(split.sections, parts + [Free(text)]) == PartTexts(split.sections, parts) + [text];
  }

  /** The outer loop over the entries; a template that fails to render ends it. */
  method PickSections(split: Split, specs: seq<Spec>, render: string -> Result<string>)
      returns (failure: Option<string>, used: seq<bool>, texts: seq<string>, missed: seq<Spec>, ghost parts: seq<Part>)
    ensures Pick(split.sections, specs, render) == if failure.Some? then Err(failure.value) else Ok(Outcome(parts, missed))
    ensures failure.None? ==> Tracks(split, parts, used, texts)
  {
    failure, missed, parts := None, [], [];
    used := seq(|split.sections|, _ => false);
    texts := [TrimEnd(split.preamble)];
    assert PartTexts(split.sections, []) == [];
    for k := 0 to |specs|
      invariant failure.None? && Pick(split.sections, specs[..k], render) == Ok(Outcome(parts, missed))
      invariant Tracks(split, parts, used, texts)
    {
      assert specs[..k + 1][..k] == specs[..k];
      var spec := specs[k];
      if spec.Custom? {
        var text := CustomText(spec, render);
        if text.Err? {
          PickFails(split.sections, specs, render, k + 1);
          return Some(text.error), used, texts, missed, parts;
        }
        TracksFree(split, parts, used, texts, text.value);
        parts, texts := parts + [Free(text.value)], texts + [text.value];
        continue;
      }
      var shown;
      used, texts, shown := ShowHeadings(split, Wanted(spec), spec.Metrics?, used, texts, parts);
      parts := AddAll(parts, Matches(split.sections, Wanted(spec), spec.Metrics?));
      if !shown { missed := missed + [spec]; }
    }
    assert specs[..|specs|] == specs;
  }

  lemma TextsAppend(sections: seq<Section>, a: seq<Part>, b: seq<Part>)
    requires InRange(sections, a) && InRange(sections, b)
    ensures InRange(sections, a + b) && PartTexts(sections, a + b) == PartTexts(sections, a) + PartTexts(sections, b)
  {
  }

  /** The last loop: the Warnings sections that were not picked. */
  method AddWarnings(split: Split, used: seq<bool>, texts0: seq<string>, ghost parts: seq<Part>) returns (texts: seq<string>)
    requires Tracks(split, parts, used, texts0)
    ensures InRange(split.sections, parts + Leftovers(split.sections, parts, |split.sections|))
    ensures texts == [TrimEnd(split.preamble)] + PartTexts(split.sections, parts + Leftovers(split.sections, parts, |split.sections|))
  {
    hide IsWarnings, Leftovers, PartText;
    texts := texts0;
    LeftoversStart(split.sections, parts);
    for i := 0 to |split.sections|
      invariant InRange(split.sections, parts + Leftovers(split.sections, parts, i))
      invariant texts == [TrimEnd(split.preamble)] + PartTexts(split.sections, parts + Leftovers(split.sections, parts, i))
    {
      LeftoversStep(split.sections, parts, i);
      if !used[i] && IsWarnings(split.sections[i]) {
        texts := texts + [TrimEnd(split.sections[i].text)];
      }
    }
  }

  lemma LeftoversStart(sections: seq<Section>, parts: seq<Part>)
    ensures parts + Leftovers(sections, parts, 0) == parts
  {
  }

  lemma LeftoversStep(sections: seq<Section>, parts: seq<Part>, i: nat)
    requires i < |sections| && InRange(sections, parts + Leftovers(sections, parts, i))
    ensures var before, after := parts + Leftovers(sections, parts, i), parts + Leftovers(sections, parts, i + 1);
            && InRange(sections, after)
            && PartTexts(sections, after) ==
               PartTexts(sections, before) + if Kept(i) !in parts && IsWarnings(sections[i]) then [TrimEnd(sections[i].text)] else []
  {
    var before := parts + Leftovers(sections, parts, i);
    var more: seq<Part> := if Kept(i) !in parts && IsWarnings(sections[i]) then [Kept(i)] else [];
    assert parts + Leftovers(sections, parts, i + 1) == before + more;
    TextsAppend(sections, before, more);
    assert more != [] ==> PartTexts(sections, more) == [TrimEnd(sections[i].text)];
  }

  /** `compose`. */
  method ComposeReport(rendered: string, specs: seq<Spec>, render: string -> Result<string>) returns (r: Result<Composed>)
    ensures r == Compose(rendered, specs, render)
  {
    var preamble, sections := SplitMarkdown(rendered);
    var split := Split(preamble, sections, false);
    var failure, used, texts, missed;
    ghost var parts;
    failure, used, texts, missed, parts := PickSections(split, specs, render);
    if failure.Some? { return Err(failure.value); }
    texts := AddWarnings(split, used, texts, parts);
    r := Ok(Composed(Print(texts), missed));
  }

  /** Also with custom entries: when no printed part but the last leaves a fence open, the
      composed report scans as its parts do, one after the other. */
  lemma {:induction false} CustomScansByPart(rendered: string, specs: seq<Spec>, render: string -> Result<string>)
    requires var before := SplitOf(rendered);
             && Pick(before.sections, specs, render).Ok? && InRange(before.sections, Selected(before.sections, specs, render))
             && var texts := NonEmpty([TrimEnd(before.preamble)] + PartTexts(before.sections, Selected(before.sections, specs, render)));
                texts != [] && forall k | 0 <= k < |texts| - 1 :: Closed(texts[k])
    ensures var before := SplitOf(rendered);
            var texts := NonEmpty([TrimEnd(before.preamble)] + PartTexts(before.sections, Selected(before.sections, specs, render)));
            && Compose(rendered, specs, render).Ok?
            && SplitOf(Compose(rendered, specs, render).value.markdown) == Chain(texts)
  {
    var before := SplitOf(rendered);
    JoinScansByPart(NonEmpty([TrimEnd(before.preamble)] + PartTexts(before.sections, Selected(before.sections, specs, render))));
  }

  const ODD_TEXT := "## B\n" + "## A\n" + "```\n"

  const ODD := [Section("B", "## B\n"), Section("A", "## A\n" + "```\n")]

  lemma LetterHeading(line: string, c: char)
    requires !IsSpace(c) && line == "## " + [c] + "\n"
    ensures IsHeading(line) && IsLine(line) && EndsLine(line) && HeadingText(line) == [c] && Trim([c]) == [c]
  {
    assert line[..3] == "## " && line[3..] == [c] + "\n";
    TrimEndOf([c], "\n");
    TrimEndOf([c], "");
    assert [c] + "" == [c];
    HeadingIsNoFence(line);
  }

  lemma TwoHeadingsAndFence(b: string, a: string, fence: string)
    requires IsLine(b) && EndsLine(b) && IsHeading(b)
    requires IsLine(a) && EndsLine(a) && IsHeading(a)
    requires IsLine(fence) && IsFence(fence)
    ensures SplitOf(b + a + fence) == Split("", [Section(HeadingText(b), b), Section(HeadingText(a), a + fence)], true)
  {
    HeadingStandsAlone(b);
    HeadingIsNoFence(a);
    ScanOneMore(b, a);
    ScanOneMore(b + a, fence);
  }

  lemma OddSplit()
    ensures SplitOf(ODD_TEXT) == Split("", ODD, true)
  {
    LetterHeading("## B\n", 'B');
    LetterHeading("## A\n", 'A');
    TicksAreFence();
    TwoHeadingsAndFence("## B\n", "## A\n", "```\n");
  }

  lemma TicksAreFence()
    ensures IsLine("```\n") && IsFence("```\n")
  {
    assert TrimStart("```\n") == "```\n";
    assert "```\n"[..3] == "```";
  }

  lemma LettersDiffer(a: char, b: char)
    requires Lower(a) != Lower(b)
    ensures !SameHeading([a], [b]) && SameHeading([a], [a])
  {
    assert [a][0] == a && [b][0] == b;
  }

  lemma SecondOfTwo(b: Section, a: Section)
    requires !SameHeading(b.heading, a.heading) && SameHeading(a.heading, a.heading)
    ensures Position([b, a], a.heading) == 1
  {
    assert [b, a][1] == a && [b, a][0] == b;
  }

  lemma OneMatch(sections: seq<Section>, h: string)
    requires Position(sections, h) < |sections|
    ensures Matches(sections, [h], false) == [Position(sections, h)]
  {
    assert [h][1..] == [];
    assert Matches(sections, [], false) == [];
  }

  lemma OddMatches()
    ensures Matches(ODD, ["A"], false) == [1] && Matches(ODD, ["B"], false) == [0]
  {
    assert "A" == ['A'] && "B" == ['B'] && Lower('B') != Lower('A');
    LettersDiffer('B', 'A');
    LettersDiffer('A', 'B');
    SecondOfTwo(ODD[0], ODD[1]);
    assert Position(ODD, "B") == 0;
    OneMatch(ODD, "A");
    OneMatch(ODD, "B");
  }

  lemma PickTwo(sections: seq<Section>, x: Spec, y: Spec, i: nat, j: nat, render: string -> Result<string>)
    requires x.Named? && y.Named? && i != j
    requires Matches(sections, Wanted(x), false) == [i] && Matches(sections, Wanted(y), false) == [j]
    ensures Pick(sections, [x, y], render) == Ok(Outcome([Kept(i), Kept(j)], []))
  {
    assert [i][1..] == [] && [j][1..] == [];
    assert AddAll([], [i]) == [Kept(i)];
    assert AddAll([Kept(i)], [j]) == [Kept(i), Kept(j)];
    assert [x, y][..1] == [x] && [x][..0] == [];
    assert Pick(sections, [], render) == Ok(Outcome([], []));
    assert Pick(sections, [x], render) == PickOne(sections, Outcome([], []), x, render);
    assert Pick(sections, [x, y], render) == PickOne(sections, Outcome([Kept(i)], []), y, render);
  }

  lemma OddPick(render: string -> Result<string>)
    ensures Plain([Named("A"), Named("B")])
    ensures Pick(ODD, [Named("A"), Named("B")], render) == Ok(Outcome([Kept(1), Kept(0)], []))
  {
    LetterHeading("## B\n", 'B');
    LetterHeading("## A\n", 'A');
    assert Wanted(Named("A")) == ["A"] && Wanted(Named("B")) == ["B"];
    OddMatches();
    PickTwo(ODD, Named("A"), Named("B"), 1, 0, render);
  }

  /** With an odd number of fence lines the round trip can fail. */
  lemma OddFencesCanLose(render: string -> Result<string>)
    ensures var rendered, specs := ODD_TEXT, [Named("A"), Named("B")];
            var before := SplitOf(rendered);
            && Plain(specs) && Pick(before.sections, specs, render).Ok?
            && !FoundAgain(before, Selected(before.sections, specs, render), SplitOf(Compose(rendered, specs, render).value.markdown))
  {
    OddSplit();
    OddPick(render);
    RoundTripExactly(ODD_TEXT, [Named("A"), Named("B")], render);
    var parts := Selected(ODD, [Named("A"), Named("B")], render);
    OddLeftovers();
    assert parts[0] == Kept(1) && |parts| == 2;
  }

  lemma OddLeftovers()
    ensures Leftovers(ODD, [Kept(1), Kept(0)], 2) == []
  {
    var parts := [Kept(1), Kept(0)];
    assert parts[0] in parts && parts[1] in parts;
    assert Leftovers(ODD, parts, 1) == [];
  }
}
