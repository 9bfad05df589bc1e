/** Installing and removing hooks in the settings file (`setup.rs`), without the MCP entries. */
module Setup {
  import opened Options

  /** One entry of an event: the server of each of its hooks, if it has a list of hooks, and
      whatever else it holds. */
  datatype Entry = Entry(servers: Option<seq<Option<string>>>, rest: string)

  datatype EventValue = Entries(entries: seq<Entry>) | NotArray(text: string)

  datatype Hooks = Events(events: map<string, EventValue>) | NotObject(text: string)

  /** The file: its `hooks` member and everything else, or a root that is no object. */
  datatype Settings = Root(hooks: Option<Hooks>, rest: string) | NoRoot(text: string)

  const HOOK_SERVER := "handoff"
  const PRE_TOOL_USE := "PreToolUse"
  const USER_PROMPT_SUBMIT := "UserPromptSubmit"
  const SESSION_START := "SessionStart"

  predicate Ours(e: Entry) { e.servers.Some? && Some(HOOK_SERVER) in e.servers.value }

  /** `has_handoff_hook`. */
  predicate HasOurs(v: EventValue) { v.Entries? && exists e | e in v.entries :: Ours(e) }

  /** The entry `build_hooks_config` has for an event; `text` is the rest of it. */
  function OurEntry(text: string): Entry { Entry(Some([Some(HOOK_SERVER)]), text) }

  predicate Desired(event: string) { event == PRE_TOOL_USE || event == USER_PROMPT_SUBMIT }

  /** The arrays without the entries that are ours. */
  function Others(entries: seq<Entry>): seq<Entry> {
    if entries == [] then []
    else Others(entries[..|entries| - 1]) + if Ours(entries[|entries| - 1]) then [] else [entries[|entries| - 1]]
  }

  // ------------------------------------------------------------------------ install

  /** The install loop's step for one event. */
  function AddTo(events: map<string, EventValue>, event: string, text: string): map<string, EventValue> {
    if event in events && HasOurs(events[event]) then events
    else if event in events && events[event].Entries? then events[event := Entries(events[event].entries + [OurEntry(text)])]
    else events[event := Entries([OurEntry(text)])]
  }

  predicate Lacks(events: map<string, EventValue>, event: string) { event !in events || !HasOurs(events[event]) }

  /** `strip_legacy_session_start_hook`: also drops an array that was already empty. */
  function StripLegacy(events: map<string, EventValue>): map<string, EventValue> {
    if SESSION_START !in events || !events[SESSION_START].Entries? then events
    else
      var kept := Others(events[SESSION_START].entries);
      if kept == [] then events - {SESSION_START} else events[SESSION_START := Entries(kept)]
  }

  function AddBoth(events: map<string, EventValue>, pre: string, prompt: string): map<string, EventValue> {
    AddTo(AddTo(events, PRE_TOOL_USE, pre), USER_PROMPT_SUBMIT, prompt)
  }

  /** Something has to be written: an event lacks our hook, or the legacy hook is there. */
  predicate Dirty(events: map<string, EventValue>) {
    Lacks(events, PRE_TOOL_USE) || Lacks(events, USER_PROMPT_SUBMIT) || !Lacks(events, SESSION_START)
  }

  function EventsOf(s: Settings): Option<map<string, EventValue>> {
    match s
    case Root(None, _) => Some(map[])
    case Root(Some(Events(events)), _) => Some(events)
    case _ => None
  }

  /** The file after `run_install`; it is left alone when that fails or has nothing to do. */
  function Installed(s: Settings, pre: string, prompt: string): Settings {
    match EventsOf(s)
    case None => s
    case Some(events) => if Dirty(events) then s.(hooks := Some(Events(StripLegacy(AddBoth(events, pre, prompt))))) else s
  }

  // ---------------------------------------------------------------------- uninstall

  /** An event's value after the uninstall loop; `None` when its array ends up empty. */
  function Cleaned(v: EventValue): Option<EventValue> {
    match v
    case NotArray(_) => Some(v)
    case Entries(entries) => if Others(entries) == [] then None else Some(Entries(Others(entries)))
  }

  function CleanedAll(events: map<string, EventValue>): map<string, EventValue> {
    map k | k in events && Cleaned(events[k]).Some? :: Cleaned(events[k]).value
  }

  /** The file after `run_uninstall`; it is written only if a hook of ours was removed. */
  function Uninstalled(s: Settings): Settings {
    match s
    case Root(Some(Events(events)), _) =>
      if !AnyOurs(events, events.Keys) then s
      else s.(hooks := if CleanedAll(events) == map[] then None else Some(Events(CleanedAll(events))))
    case _ => s
  }

  class SettingsFile {
    var settings: Settings

    constructor (settings: Settings)
      ensures this.settings == settings
    {
      this.settings := settings;
    }

    /** `run_install`: fails when the root or its hooks are no object. */
    method RunInstall(pre: string, prompt: string) returns (ok: bool)
      modifies this
      ensures ok == EventsOf(old(settings)).Some?
      ensures settings == Installed(old(settings), pre, prompt)
    {
      if settings.NoRoot? { return false; }
      var hooks := settings.hooks;
      if hooks.Some? && hooks.value.NotObject? { return false; }
      var events: map<string, EventValue> := if hooks.Some? then hooks.value.events else map[];
      ghost var before := events;
      EventNames();
      var installed := 0;
      var desired := [(PRE_TOOL_USE, pre), (USER_PROMPT_SUBMIT, prompt)];
      var k := 0;
      while k < 2
        invariant 0 <= k <= 2
        invariant events == if k == 0 then before else if k == 1 then AddTo(before, PRE_TOOL_USE, pre) else AddBoth(before, pre, prompt)
        invariant installed > 0 <==> (k > 0 && Lacks(before, PRE_TOOL_USE)) || (k > 1 && Lacks(before, USER_PROMPT_SUBMIT))
      {
        var (event, text) := desired[k];
        k := k + 1;
        if event in events && HasOurs(events[event]) { continue; }
        if event in events && events[event].Entries? {
          events := events[event := Entries(events[event].entries + [OurEntry(text)])];
        } else {
          events := events[event := Entries([OurEntry(text)])];
        }
        installed := installed + 1;
      }
      var migrated := SESSION_START in events && HasOurs(events[SESSION_START]);
      events := StripLegacy(events);
      if installed > 0 || migrated {
        settings := settings.(hooks := Some(Events(events)));
      }
      ok := true;
    }

    /** `run_uninstall`. */
    method RunUninstall()
      modifies this
      ensures settings == Uninstalled(old(settings))
    {
      if settings.NoRoot? || settings.hooks.None? || settings.hooks.value.NotObject? { return; }
      var events, removed := CleanEvents(settings.hooks.value.events);
      if removed > 0 {
        settings := settings.(hooks := if events == map[] then None else Some(Events(events)));
      }
    }
  }

  predicate AnyOurs(events: map<string, EventValue>, keys: set<string>)
    requires keys <= events.Keys
  {
    exists k | k in keys :: HasOurs(events[k])
  }

  /** The pass over the events, in whatever order. */
  method CleanEvents(before: map<string, EventValue>) returns (events: map<string, EventValue>, removed: nat)
    ensures events == CleanedAll(before)
    ensures removed > 0 <==> AnyOurs(before, before.Keys)
  {
    hide HasOurs, Others;
    events, removed := before, 0;
    var pending := before.Keys;
    while pending != {}
      invariant pending <= before.Keys
      invariant forall k :: k in events <==> k in before && (k in pending || Cleaned(before[k]).Some?)
      invariant forall k | k in events :: events[k] == if k in pending then before[k] else Cleaned(before[k]).value
      invariant removed > 0 <==> AnyOurs(before, before.Keys - pending)
      decreases |pending|
    {
      var event :| event in pending;
      assert before.Keys - (pending - {event}) == (before.Keys - pending) + {event};
      pending := pending - {event};
      OursShortens(events[event]);
      if events[event].NotArray? { continue; }
      var kept := Others(events[event].entries);
      if |kept| != |events[event].entries| { removed := removed + 1; }
      if kept == [] {
        events := events - {event};
      } else {
        events := events[event := Entries(kept)];
      }
    }
    assert before.Keys - {} == before.Keys;
  }

  lemma OursShortens(v: EventValue)
    ensures HasOurs(v) <==> v.Entries? && |Others(v.entries)| != |v.entries|
  {
    if v.Entries? { OthersShorter(v.entries); }
  }

  // -------------------------------------------------------------------- properties

  lemma {:induction false} OthersShorter(entries: seq<Entry>)
    ensures |Others(entries)| <= |entries|
    ensures |Others(entries)| < |entries| <==> exists e | e in entries :: Ours(e)
    ensures (forall e | e in entries :: !Ours(e)) ==> Others(entries) == entries
    ensures forall e | e in Others(entries) :: e in entries && !Ours(e)
  {
    if entries != [] {
      var n := |entries| - 1;
      OthersShorter(entries[..n]);
      assert entries == entries[..n] + [entries[n]];
    }
  }

  lemma {:induction false} OthersAppend(a: seq<Entry>, b: seq<Entry>)
    ensures Others(a + b) == Others(a) + Others(b)
  {
    if b == [] {
      assert a + b == a;
    } else {
      assert (a + b)[..|a + b| - 1] == a + b[..|b| - 1];
      OthersAppend(a, b[..|b| - 1]);
    }
  }

  lemma AddToHas(events: map<string, EventValue>, event: string, text: string)
    ensures !Lacks(AddTo(events, event, text), event)
  {
    if Lacks(events, event) {
      var entries := AddTo(events, event, text)[event].entries;
      assert entries[|entries| - 1] == OurEntry(text);
      assert OurEntry(text) in entries;
    }
  }

  lemma LegacyGone(events: map<string, EventValue>)
    ensures Lacks(StripLegacy(events), SESSION_START)
  {
    if SESSION_START in events && events[SESSION_START].Entries? { OthersShorter(events[SESSION_START].entries); }
  }

  lemma InstallCleans(events: map<string, EventValue>, pre: string, prompt: string)
    ensures !Dirty(StripLegacy(AddBoth(events, pre, prompt)))
  {
    var one := AddTo(events, PRE_TOOL_USE, pre);
    AddToHas(events, PRE_TOOL_USE, pre);
    AddToHas(one, USER_PROMPT_SUBMIT, prompt);
    LegacyGone(AddBoth(events, pre, prompt));
    assert PRE_TOOL_USE != USER_PROMPT_SUBMIT && PRE_TOOL_USE != SESSION_START && USER_PROMPT_SUBMIT != SESSION_START by { EventNames(); }
  }

  lemma EventNames()
    ensures PRE_TOOL_USE != USER_PROMPT_SUBMIT && PRE_TOOL_USE != SESSION_START && USER_PROMPT_SUBMIT != SESSION_START
  {
    assert PRE_TOOL_USE[0] != USER_PROMPT_SUBMIT[0] && PRE_TOOL_USE[0] != SESSION_START[0] && USER_PROMPT_SUBMIT[0] != SESSION_START[0];
  }

  /** Installing twice is installing once. */
  lemma InstallTwice(s: Settings, pre: string, prompt: string)
    ensures Installed(Installed(s, pre, prompt), pre, prompt) == Installed(s, pre, prompt)
  {
    if EventsOf(s).Some? { InstallCleans(EventsOf(s).value, pre, prompt); }
  }

  /** After an uninstall none of our hooks is left under any event. */
  lemma UninstallIsComplete(s: Settings, event: string)
    ensures EventsOf(Uninstalled(s)).Some? ==> Lacks(EventsOf(Uninstalled(s)).value, event)
    ensures Uninstalled(Uninstalled(s)) == Uninstalled(s)
  {
    if EventsOf(s).Some? {
      var events := EventsOf(s).value;
      forall k | k in events ensures Cleaned(events[k]).Some? ==> !HasOurs(Cleaned(events[k]).value) {
        if events[k].Entries? { OthersShorter(events[k].entries); }
      }
    }
  }

  /** What an install followed by an uninstall gives back unchanged: a file without hooks, or
      one with events, each a non-empty array without hooks of ours, or no array at all under
      an event that the install does not touch. */
  predicate Restorable(s: Settings) {
    match s
    case Root(Some(Events(events)), _) => events != map[] && forall k | k in events :: Kept(k, events[k])
    case _ => true
  }

  predicate Kept(event: string, v: EventValue) {
    if v.Entries? then v.entries != [] && !HasOurs(v) else !Desired(event)
  }

  /** The value of an event after both. */
  function Restored(events: map<string, EventValue>, k: string): Option<EventValue> {
    if k !in events then None
    else if Desired(k) && events[k].NotArray? then None
    else Cleaned(events[k])
  }

  lemma AddToCleans(events: map<string, EventValue>, event: string, text: string)
    ensures var after := AddTo(events, event, text);
            && event in after && after[event].Entries?
            && Cleaned(after[event]) == (if event in events && events[event].Entries? then Cleaned(events[event]) else None)
            && forall k | k != event :: (k in after <==> k in events) && (k in events ==> after[k] == events[k])
  {
    if event in events && events[event].Entries? { OthersAppend(events[event].entries, [OurEntry(text)]); }
    assert Others(if event in events && events[event].Entries? then events[event].entries else []) + [] ==
           Others(if event in events && events[event].Entries? then events[event].entries else []);
  }

  lemma {:induction false} OthersTwice(entries: seq<Entry>)
    ensures Others(Others(entries)) == Others(entries)
  {
    OthersShorter(entries);
    OthersShorter(Others(entries));
  }

  lemma StripCleans(events: map<string, EventValue>, k: string)
    ensures var after := StripLegacy(events);
            (if k in after then Cleaned(after[k]) else None) == (if k in events then Cleaned(events[k]) else None)
  {
    if k == SESSION_START && k in events && events[k].Entries? { OthersTwice(events[k].entries); }
  }

  lemma BothOnEvent(events: map<string, EventValue>, pre: string, prompt: string, k: string)
    ensures var after := StripLegacy(AddBoth(events, pre, prompt));
            (if k in after then Cleaned(after[k]) else None) == Restored(events, k)
  {
    EventNames();
    var one := AddTo(events, PRE_TOOL_USE, pre);
    AddToCleans(events, PRE_TOOL_USE, pre);
    AddToCleans(one, USER_PROMPT_SUBMIT, prompt);
    StripCleans(AddBoth(events, pre, prompt), k);
  }

  lemma NotDirtyOnEvent(events: map<string, EventValue>, k: string)
    requires !Dirty(events)
    ensures (if k in events then Cleaned(events[k]) else None) == Restored(events, k)
  {
  }

  /** The hooks after an install and an uninstall, event by event. */
  lemma BothAre(s: Settings, pre: string, prompt: string)
    requires EventsOf(s).Some?
    ensures var events := EventsOf(s).value;
            var after := Uninstalled(Installed(s, pre, prompt));
            && after.Root? && after.rest == s.rest && EventsOf(after).Some?
            && (after.hooks.Some? ==> after.hooks.value.Events? && after.hooks.value.events != map[])
            && forall k :: (k in EventsOf(after).value <==> Restored(events, k).Some?)
                           && (k in EventsOf(after).value ==> EventsOf(after).value[k] == Restored(events, k).value)
  {
    hide StripLegacy, AddBoth, Restored, Cleaned, HasOurs;
    var events := EventsOf(s).value;
    var mid := if Dirty(events) then StripLegacy(AddBoth(events, pre, prompt)) else events;
    InstallCleans(events, pre, prompt);
    assert EventsOf(Installed(s, pre, prompt)).Some? && EventsOf(Installed(s, pre, prompt)).value == mid;
    assert !Lacks(mid, PRE_TOOL_USE);
    forall k ensures (if k in mid then Cleaned(mid[k]) else None) == Restored(events, k) {
      if Dirty(events) { BothOnEvent(events, pre, prompt, k); } else { NotDirtyOnEvent(events, k); }
    }
    assert EventsOf(Uninstalled(Installed(s, pre, prompt))).value == CleanedAll(mid);
  }

  lemma KeptIsRestored(events: map<string, EventValue>, k: string)
    requires k in events
    ensures Restored(events, k) == Some(events[k]) <==> Kept(k, events[k])
  {
    if events[k].Entries? { OthersShorter(events[k].entries); }
  }

  /** Uninstalling after installing restores the file exactly when it was restorable. */
  lemma UninstallRestoresExactly(s: Settings, pre: string, prompt: string)
    ensures Uninstalled(Installed(s, pre, prompt)) == s <==> Restorable(s)
  {
    hide Restored, Kept, Cleaned, CleanedAll, Dirty, StripLegacy, AddBoth;
    if EventsOf(s).Some? {
      hide Installed, Uninstalled;
      var events := EventsOf(s).value;
      BothAre(s, pre, prompt);
      forall k | k in events ensures Restored(events, k) == Some(events[k]) <==> Kept(k, events[k]) {
        KeptIsRestored(events, k);
      }
      var after := Uninstalled(Installed(s, pre, prompt));
      forall k | k !in events ensures Restored(events, k).None? { NothingRestored(events, k); }
      if Restorable(s) {
        assert EventsOf(after).value == events;
      } else if events != map[] {
        var k :| k in events && !Kept(k, events[k]);
        assert k in EventsOf(after).value ==> EventsOf(after).value[k] != events[k];
      }
    }
  }

  lemma NothingRestored(events: map<string, EventValue>, k: string)
    requires k !in events
    ensures Restored(events, k).None?
  {
  }

  /** Entries that hold no hook of ours are kept, in order, by both operations. */
  lemma OthersAreKept(s: Settings, pre: string, prompt: string, event: string)
    requires EventsOf(s).Some? && event in EventsOf(s).value && EventsOf(s).value[event].Entries?
    ensures var was := Others(EventsOf(s).value[event].entries);
            && OthersUnder(Installed(s, pre, prompt), event) == was
            && OthersUnder(Uninstalled(s), event) == was
  {
    hide AddTo, Others, Ours;
    var events := EventsOf(s).value;
    EventNames();
    OthersTwice(events[event].entries);
    var one := AddTo(events, PRE_TOOL_USE, pre);
    AddToOthers(events, PRE_TOOL_USE, pre, event);
    AddToOthers(one, USER_PROMPT_SUBMIT, prompt, event);
    StripOthers(AddBoth(events, pre, prompt), event);
    NoOthers();
  }

  lemma NoOthers()
    ensures Others([]) == []
  {
  }

  lemma StripOthers(events: map<string, EventValue>, event: string)
    requires event in events && events[event].Entries?
    ensures var after := StripLegacy(events);
            (if event in after && after[event].Entries? then Others(after[event].entries) else []) == Others(events[event].entries)
  {
    hide Ours;
    OthersTwice(events[event].entries);
  }

  /** The entries of others under an event. */
  function OthersUnder(s: Settings, event: string): seq<Entry> {
    if EventsOf(s).Some? && event in EventsOf(s).value && EventsOf(s).value[event].Entries?
    then Others(EventsOf(s).value[event].entries) else []
  }

  lemma AddToOthers(events: map<string, EventValue>, added: string, text: string, event: string)
    requires event in events && events[event].Entries?
    ensures var after := AddTo(events, added, text);
            event in after && after[event].Entries? && Others(after[event].entries) == Others(events[event].entries)
  {
    hide HasOurs, Others;
    assert Others([OurEntry(text)]) == [] by { OthersShorter([OurEntry(text)]); assert OurEntry(text) in [OurEntry(text)]; }
    OthersAppend(events[event].entries, [OurEntry(text)]);
    assert Others(events[event].entries) + [] == Others(events[event].entries);
  }

  // ------------------------------------------------------------- hooks of others

  /** The hooks of an entry that somebody else serves. */
  function ForeignOf(servers: seq<Option<string>>): seq<Option<string>> {
    if servers == [] then []
    else ForeignOf(servers[..|servers| - 1]) + if servers[|servers| - 1] == Some(HOOK_SERVER) then [] else [servers[|servers| - 1]]
  }

  function Foreign(entries: seq<Entry>): seq<Option<string>> {
    if entries == [] then []
    else
      var last := entries[|entries| - 1].servers;
      Foreign(entries[..|entries| - 1]) + if last.Some? then ForeignOf(last.value) else []
  }

  function EntriesUnder(s: Settings, event: string): seq<Entry> {
    if EventsOf(s).Some? && event in EventsOf(s).value && EventsOf(s).value[event].Entries?
    then EventsOf(s).value[event].entries else []
  }

  /** An entry with a hook of ours and one of somebody else. */
  predicate Mixed(e: Entry) {
    Ours(e) && HasForeign(e.servers.value)
  }

  predicate HasForeign(servers: seq<Option<string>>) { exists h | h in servers :: h != Some(HOOK_SERVER) }

  predicate AnyMixed(entries: seq<Entry>) { exists e | e in entries :: Mixed(e) }

  lemma {:induction false} ForeignOfIs(servers: seq<Option<string>>)
    ensures ForeignOf(servers) != [] <==> HasForeign(servers)
  {
    if servers != [] {
      var n := |servers| - 1;
      ForeignOfIs(servers[..n]);
      assert servers == servers[..n] + [servers[n]];
      if HasForeign(servers[..n]) {
        var h :| h in servers[..n] && h != Some(HOOK_SERVER);
        assert h in servers;
      } else if servers[n] != Some(HOOK_SERVER) {
        assert servers[n] in servers;
      }
    }
  }

  lemma ForeignAppend(entries: seq<Entry>, e: Entry)
    ensures Foreign(entries + [e]) == Foreign(entries) + if e.servers.Some? then ForeignOf(e.servers.value) else []
  {
    assert (entries + [e])[..|entries|] == entries;
  }

  lemma Cancel<T>(a: seq<T>, b: seq<T>, x: seq<T>)
    ensures a + x == b + x <==> a == b
  {
    if a + x == b + x {
      assert |a + x| == |b + x|;
      assert a == (a + x)[..|a|] && b == (b + x)[..|b|];
    }
  }

  lemma AnyMixedAppend(entries: seq<Entry>, e: Entry)
    ensures AnyMixed(entries + [e]) <==> AnyMixed(entries) || Mixed(e)
  {
    hide Mixed;
    assert e in entries + [e];
    assert forall x :: x in entries + [e] <==> x in entries || x == e;
  }

  /** Dropping our entries loses a foreign hook exactly when it drops a mixed entry. */
  lemma {:induction false} ForeignOthers(entries: seq<Entry>)
    ensures |Foreign(Others(entries))| <= |Foreign(entries)|
    ensures Foreign(Others(entries)) == Foreign(entries) <==> !AnyMixed(entries)
  {
    if entries != [] {
      hide Foreign, ForeignOf, AnyMixed, Ours, HasForeign;
      var n := |entries| - 1;
      var p, e := entries[..n], entries[n];
      var x := if e.servers.Some? then ForeignOf(e.servers.value) else [];
      ForeignOthers(p);
      assert entries == p + [e];
      AnyMixedAppend(p, e);
      ForeignAppend(p, e);
      if Ours(e) {
        assert Others(entries) == Others(p) + [] == Others(p);
        MixedIs(e);
        Longer(Foreign(Others(p)), Foreign(p), x);
      } else {
        assert Others(entries) == Others(p) + [e] && !Mixed(e);
        ForeignAppend(Others(p), e);
        Cancel(Foreign(Others(p)), Foreign(p), x);
      }
    }
  }

  lemma MixedIs(e: Entry)
    requires Ours(e)
    ensures e.servers.Some? && (Mixed(e) <==> ForeignOf(e.servers.value) != [])
  {
    ForeignOfIs(e.servers.value);
  }

  lemma Longer<T>(a: seq<T>, b: seq<T>, x: seq<T>)
    requires |a| <= |b|
    ensures a == b + x <==> a == b && x == []
  {
    if x == [] { assert b + x == b; } else { assert |b + x| > |a|; }
  }

  lemma {:induction false} ForeignAfterAdd(entries: seq<Entry>, text: string)
    ensures Foreign(entries + [OurEntry(text)]) == Foreign(entries)
  {
    ForeignAppend(entries, OurEntry(text));
    ForeignOfIs([Some(HOOK_SERVER)]);
  }

  lemma {:induction false} UninstalledUnder(s: Settings, event: string)
    ensures EntriesUnder(Uninstalled(s), event) == Others(EntriesUnder(s, event))
  {
    hide Ours, Others;
    NoOthers();
    OthersShorter(EntriesUnder(s, event));
  }

  lemma {:induction false} AddToForeign(events: map<string, EventValue>, added: string, text: string, event: string)
    ensures var before := EntriesUnder(Root(Some(Events(events)), ""), event);
            var after := EntriesUnder(Root(Some(Events(AddTo(events, added, text))), ""), event);
            && Foreign(after) == Foreign(before)
            && (event != added ==> after == before)
  {
    hide HasOurs, Foreign;
    ForeignAfterAdd(EntriesUnder(Root(Some(Events(events)), ""), event), text);
    assert [] + [OurEntry(text)] == [OurEntry(text)];
  }

  /** After an install the entries of the legacy event are those of others, and no other event
      gains or loses a foreign hook. */
  lemma {:induction false} InstalledUnder(s: Settings, pre: string, prompt: string, event: string)
    ensures event == SESSION_START ==> EntriesUnder(Installed(s, pre, prompt), event) == Others(EntriesUnder(s, event))
    ensures event != SESSION_START ==> Foreign(EntriesUnder(Installed(s, pre, prompt), event)) == Foreign(EntriesUnder(s, event))
  {
    hide Ours, Others, AddTo, Foreign;
    NoOthers();
    OthersShorter(EntriesUnder(s, event));
    if EventsOf(s).Some? {
      var events := EventsOf(s).value;
      EventNames();
      AddToForeign(events, PRE_TOOL_USE, pre, event);
      AddToForeign(AddTo(events, PRE_TOOL_USE, pre), USER_PROMPT_SUBMIT, prompt, event);
    }
  }

  /** The hooks of others under an event survive an uninstall exactly when none of them shares
      an entry with ours; an install asks for that under the legacy event alone. */
  lemma {:induction false} HooksOfOthersKeptExactly(s: Settings, pre: string, prompt: string, event: string)
    ensures Foreign(EntriesUnder(Uninstalled(s), event)) == Foreign(EntriesUnder(s, event)) <==> !AnyMixed(EntriesUnder(s, event))
    ensures Foreign(EntriesUnder(Installed(s, pre, prompt), event)) == Foreign(EntriesUnder(s, event)) <==>
            event != SESSION_START || !AnyMixed(EntriesUnder(s, event))
  {
    UninstalledUnder(s, event);
    InstalledUnder(s, pre, prompt, event);
    ForeignOthers(EntriesUnder(s, event));
  }

  /** The value under an event, if there is one. */
  function At(events: map<string, EventValue>, event: string): Option<EventValue> {
    if event in events then Some(events[event]) else None
  }

  predicate AnyOurEntry(v: Option<EventValue>) {
    v.Some? && v.value.Entries? && exists e | e in v.value.entries :: e.servers.Some? && Some("handoff") in e.servers.value
  }

  /** `after` is `before` with our entry, behind what was there if that was an array. */
  predicate Supplied(before: Option<EventValue>, after: Option<EventValue>, text: string) {
    after == if AnyOurEntry(before) then before
             else Some(Entries((if before.Some? && before.value.Entries? then before.value.entries else [])
                               + [Entry(Some([Some("handoff")]), text)]))
  }

  /** `after` is `before` without our entries, or nothing if no others were there. */
  predicate Stripped(before: Option<EventValue>, after: Option<EventValue>) {
    if before.None? || before.value.NotArray? then after == before
    else if Others(before.value.entries) == [] then after == None
    else after == Some(Entries(Others(before.value.entries)))
  }

  /** What an install leaves under each event of a file that it can read: our entry with the text
      meant for that event, the legacy event without ours, everything else as it was. It leaves the
      file alone when both entries are there and no legacy one is. */
  lemma {:induction false} InstalledExactly(s: Settings, pre: string, prompt: string, event: string)
    requires EventsOf(s).Some?
    ensures EventsOf(Installed(s, pre, prompt)).Some? && Installed(s, pre, prompt).rest == s.rest
    ensures var was, now := EventsOf(s).value, EventsOf(Installed(s, pre, prompt)).value;
            && (event == "PreToolUse" ==> Supplied(At(was, event), At(now, event), pre))
            && (event == "UserPromptSubmit" ==> Supplied(At(was, event), At(now, event), prompt))
            && (event !in {"PreToolUse", "UserPromptSubmit", "SessionStart"} ==> At(now, event) == At(was, event))
            && if AnyOurEntry(At(was, "PreToolUse")) && AnyOurEntry(At(was, "UserPromptSubmit")) && !AnyOurEntry(At(was, "SessionStart"))
               then Installed(s, pre, prompt) == s
               else Stripped(At(was, "SessionStart"), At(now, "SessionStart"))
  {
    hide Others, StripLegacy, AddTo, HasOurs, AnyOurEntry, Supplied, Stripped;
    var events := EventsOf(s).value;
    var one := AddTo(events, PRE_TOOL_USE, pre);
    var both := AddBoth(events, pre, prompt);
    EventNames();
    AddToExactly(events, PRE_TOOL_USE, pre);
    AddToExactly(one, USER_PROMPT_SUBMIT, prompt);
    StripExactly(both);
    LacksExactly(events, PRE_TOOL_USE);
    LacksExactly(events, USER_PROMPT_SUBMIT);
    LacksExactly(events, SESSION_START);
    Unsupplied(At(events, PRE_TOOL_USE), pre);
    Unsupplied(At(events, USER_PROMPT_SUBMIT), prompt);
  }

  lemma AddToExactly(events: map<string, EventValue>, added: string, text: string)
    ensures Supplied(At(events, added), At(AddTo(events, added, text), added), text)
    ensures forall event | event != added :: At(AddTo(events, added, text), event) == At(events, event)
  {
    assert [] + [OurEntry(text)] == [OurEntry(text)];
  }

  lemma StripExactly(events: map<string, EventValue>)
    ensures Stripped(At(events, SESSION_START), At(StripLegacy(events), SESSION_START))
    ensures forall event | event != SESSION_START :: At(StripLegacy(events), event) == At(events, event)
  {
  }

  lemma LacksExactly(events: map<string, EventValue>, event: string)
    ensures Lacks(events, event) <==> !AnyOurEntry(At(events, event))
  {
  }

  lemma Unsupplied(v: Option<EventValue>, text: string)
    ensures AnyOurEntry(v) ==> Supplied(v, v, text)
  {
  }

  /** A file whose only entry holds a hook of ours and one of somebody else loses both. */
  lemma {:induction false} MixedEntryIsLost(pre: string, prompt: string)
    ensures var e := Entry(Some([Some(HOOK_SERVER), Some("other")]), "");
            && Uninstalled(Root(Some(Events(map["PostToolUse" := Entries([e])])), "")) == Root(None, "")
            && EntriesUnder(Installed(Root(Some(Events(map[SESSION_START := Entries([e])])), ""), pre, prompt), SESSION_START) == []
  {
    var e := Entry(Some([Some(HOOK_SERVER), Some("other")]), "");
    var events := map["PostToolUse" := Entries([e])];
    assert Ours(e) && e in [e];
    assert Others([e]) == [] by { assert [e][..0] == []; }
    assert HasOurs(events["PostToolUse"]) && "PostToolUse" in events;
    assert CleanedAll(events) == map[];
    InstalledUnder(Root(Some(Events(map[SESSION_START := Entries([e])])), ""), pre, prompt, SESSION_START);
  }

  /** An empty hooks object is not given back, and a non-array value under an event that the
      install touches is lost. */
  lemma NotAlwaysRestored(pre: string, prompt: string)
    ensures var s := Root(Some(Events(map[])), ""); Uninstalled(Installed(s, pre, prompt)) != s
    ensures var s := Root(Some(Events(map[PRE_TOOL_USE := NotArray("x")])), ""); Uninstalled(Installed(s, pre, prompt)) != s
  {
    UninstallRestoresExactly(Root(Some(Events(map[])), ""), pre, prompt);
    var events := map[PRE_TOOL_USE := NotArray("x")];
    assert PRE_TOOL_USE in events && !Kept(PRE_TOOL_USE, events[PRE_TOOL_USE]);
    UninstallRestoresExactly(Root(Some(Events(events)), ""), pre, prompt);
  }
}
