/** One request line and the JSON-RPC response it gets (`protocol.rs`, and the
    timeout answer `main.rs` builds itself).

The two paths read the line's id separately: the worker reads the trimmed text as a
`JsonRpcRequest`, the timeout reads the whole text as a `Value`. Lines are modelled by their
white space and the JSON members or elements between.
*/
module Protocol {
  import opened Options
  import opened RustText

  predicate AllWhiteSpace(s: string) { forall c | c in s :: IsSpace(c) }

  type Space = s: string | AllWhiteSpace(s)

  /** White space of the JSON grammar, the only kind `serde_json` skips. */
  predicate IsJsonSpace(s: string) { forall c | c in s :: c in "\t\n\r " }

  /** `name` is the text under a member `name`, if there is one. `Unreadable` is JSON that can be
      skipped but that `Value` does not hold, the number 1e999 for example. */
  datatype Json = Null | Text(text: string) | Other(text: string, name: Option<string>) | Unreadable

  type Members = seq<(string, Json)>

  datatype Body = Object(members: Members) | Array(elements: seq<Json>) | Scalar | NotJson

  datatype Line = Blank | Line(before: Space, body: Body, after: Space)

  datatype Request = Request(version: string, id: Option<Json>, method_: string, params: Option<Json>)

  /** `handle_request`'s answer; `Silent` has neither result nor error. It never sets an id. */
  datatype Reply = Success(result: string) | Failure(error: string) | Silent

  datatype Outcome = Replied(reply: Reply) | ParseError | InvalidVersion | TimedOut

  /** `id` is None when the response has no id member. */
  datatype Response = Response(id: Option<Json>, outcome: Outcome)

  // ------------------------------------------------------ the worker's reading

  /** The fields of a request read so far. */
  datatype Fields = Fields(version: Option<string>, id: Option<Option<Json>>, method_: Option<string>, params: Option<Option<Json>>)

  /** A field of type `Option<Value>`: null is None, and what `Value` does not hold is an error. */
  function Optional(v: Json): Option<Option<Json>> {
    if v.Unreadable? then None else if v.Null? then Some(None) else Some(Some(v))
  }

  /** A repeated field and a value of the wrong type are errors, other members are skipped. */
  function ReadMember(f: Fields, name: string, v: Json): Option<Fields> {
    if name == "jsonrpc" then
      if f.version.Some? || !v.Text? then None else Some(f.(version := Some(v.text)))
    else if name == "id" then
      if f.id.Some? || Optional(v).None? then None else Some(f.(id := Optional(v)))
    else if name == "method" then
      if f.method_.Some? || !v.Text? then None else Some(f.(method_ := Some(v.text)))
    else if name == "params" then
      if f.params.Some? || Optional(v).None? then None else Some(f.(params := Optional(v)))
    else Some(f)
  }

  function ReadMembers(members: Members): Option<Fields> {
    if members == [] then Some(Fields(None, None, None, None))
    else
      match ReadMembers(members[..|members| - 1])
      case None => None
      case Some(f) => ReadMember(f, members[|members| - 1].0, members[|members| - 1].1)
  }

  function OrNone(field: Option<Option<Json>>): Option<Json> {
    if field.Some? then field.value else None
  }

  /** `from_str::<JsonRpcRequest>`: an object, or an array of the fields in order, of which the
      last may be missing. */
  function RequestOf(body: Body): Option<Request> {
    match body
    case Object(members) =>
      (match ReadMembers(members)
       case Some(Fields(Some(version), id, Some(method_), params)) => Some(Request(version, OrNone(id), method_, OrNone(params)))
       case _ => None)
    case Array(e) =>
      if 3 <= |e| <= 4 && e[0].Text? && Optional(e[1]).Some? && e[2].Text? && (|e| == 4 ==> Optional(e[3]).Some?)
      then Some(Request(e[0].text, Optional(e[1]).value, e[2].text, if |e| == 4 then Optional(e[3]).value else None))
      else None
    case _ => None
  }

  function RequestIn(line: Line): Option<Request> {
    if line.Blank? then None else RequestOf(line.body)
  }

  /** The id of a readable request, unless it is absent or null. */
  function RequestId(line: Line): Option<Json> {
    if RequestIn(line).Some? then RequestIn(line).value.id else None
  }

  const NOTIFICATION_PREFIX := "notifications/"

  predicate IsNotification(method_: string) {
    NOTIFICATION_PREFIX <= method_
  }

  /** `reply` is what the handler answers if the line gets as far as a handler. */
  function ProcessLine(line: Line, reply: Reply): Option<Response> {
    if line.Blank? then None
    else
      match RequestOf(line.body)
      case None => Some(Response(None, ParseError))
      case Some(request) =>
        if request.version != "2.0" then Some(Response(request.id, InvalidVersion))
        else if IsNotification(request.method_) && reply.Silent? then None
        else Some(Response(request.id, Replied(reply)))
  }

  // ----------------------------------------------------- the timeout's reading

  /** The values of the members with a name, in order. */
  function Named(members: Members, name: string): seq<Json> {
    if members == [] then []
    else Named(members[..|members| - 1], name) + if members[|members| - 1].0 == name then [members[|members| - 1].1] else []
  }

  /** The whole text, untrimmed, is an object that `Value` can hold. */
  predicate ReadsAsObject(line: Line) {
    && line.Line? && IsJsonSpace(line.before) && IsJsonSpace(line.after)
    && line.body.Object? && forall m | m in line.body.members :: !m.1.Unreadable?
  }

  /** `from_str::<Value>` and `get("id")`: of members with one name the last counts. */
  function ValueId(line: Line): Option<Json> {
    if ReadsAsObject(line) && Named(line.body.members, "id") != []
    then var ids := Named(line.body.members, "id"); Some(ids[|ids| - 1])
    else None
  }

  /** The main loop's own answer after `recv_timeout` expires. */
  function TimeoutResponse(line: Line): Response {
    Response(Some(if ValueId(line).Some? then ValueId(line).value else Null), TimedOut)
  }

  // ------------------------------------------------------- both readings agree

  predicate OneText(values: seq<Json>) { |values| == 1 && values[0].Text? }

  predicate AtMostOneValue(values: seq<Json>) { |values| <= 1 && forall v | v in values :: !v.Unreadable? }

  predicate AtMostOneText(values: seq<Json>) { |values| <= 1 && forall v | v in values :: v.Text? }

  function FieldOf(values: seq<Json>): Option<Option<Json>> {
    if values == [] then None else Optional(values[0])
  }

  function TextOf(values: seq<Json>): Option<string> {
    if values != [] && values[0].Text? then Some(values[0].text) else None
  }

  /** Reading member by member fails exactly when a field is repeated or has the wrong type. */
  lemma {:induction false} MembersRead(members: Members)
    ensures ReadMembers(members) ==
            if AtMostOneText(Named(members, "jsonrpc")) && AtMostOneText(Named(members, "method"))
               && AtMostOneValue(Named(members, "id")) && AtMostOneValue(Named(members, "params"))
            then Some(Fields(TextOf(Named(members, "jsonrpc")), FieldOf(Named(members, "id")),
                             TextOf(Named(members, "method")), FieldOf(Named(members, "params"))))
            else None
  {
    if members != [] {
      var n := |members| - 1;
      MembersRead(members[..n]);
      NamedGrows(members, "jsonrpc");
      NamedGrows(members, "id");
      NamedGrows(members, "method");
      NamedGrows(members, "params");
    }
  }

  lemma NamedGrows(members: Members, name: string)
    requires members != []
    ensures var before := Named(members[..|members| - 1], name);
            Named(members, name) == if members[|members| - 1].0 == name then before + [members[|members| - 1].1] else before
  {
  }

  /** Which objects are requests, and what they say. */
  lemma {:induction false} ObjectRequestExactly(members: Members)
    ensures var request := RequestOf(Object(members));
            && (request.Some? <==>
                  OneText(Named(members, "jsonrpc")) && OneText(Named(members, "method"))
                  && AtMostOneValue(Named(members, "id")) && AtMostOneValue(Named(members, "params")))
            && (request.Some? ==>
                  && Named(members, "jsonrpc") == [Text(request.value.version)]
                  && Named(members, "method") == [Text(request.value.method_)]
                  && (forall id: Json :: request.value.id == Some(id) <==> Named(members, "id") == [id] && !id.Null?)
                  && (forall params: Json :: request.value.params == Some(params) <==> Named(members, "params") == [params] && !params.Null?))
  {
    MembersRead(members);
  }

  /** Which arrays are requests: three or four elements, the fields in order. */
  lemma ArrayRequestExactly(e: seq<Json>, request: Request)
    ensures RequestOf(Array(e)) == Some(request) <==>
            && |e| in {3, 4} && e[0] == Text(request.version) && e[2] == Text(request.method_)
            && OneValue(e[1], request.id)
            && if |e| == 4 then OneValue(e[3], request.params) else request.params == None
  {
  }

  /** `v` is the value of an optional field, with null for none. */
  predicate OneValue(v: Json, field: Option<Json>) {
    if field.Some? then v == field.value && !v.Null? && !v.Unreadable? else v == Null
  }

  lemma JsonSpaceAround(before: string, after: string)
    ensures IsJsonSpace(before) && IsJsonSpace(after) <==> forall c | c in before + after :: c in {' ', '\t', '\n', '\r'}
  {
    assert forall c :: c in "\t\n\r " <==> c in {' ', '\t', '\n', '\r'};
    assert forall c :: c in before + after <==> c in before || c in after;
  }

  /** Whether the timeout answer carries the id of a readable request: exactly when the line is an
      object with only JSON's own white space around it and no member that `Value` cannot hold;
      otherwise its id is null. */
  lemma {:induction false} TimeoutCarriesIdExactly(line: Line, id: Json)
    requires RequestId(line) == Some(id)
    ensures id != Null
    ensures TimeoutResponse(line).id == Some(if ReadsAsObject(line) then id else Null)
    ensures TimeoutResponse(line).id == Some(id) <==>
            && line.body.Object? && (forall m | m in line.body.members :: m.1 != Unreadable)
            && forall c | c in line.before + line.after :: c in {' ', '\t', '\n', '\r'}
  {
    hide IsJsonSpace, ReadMembers, Named;
    if line.body.Object? {
      JsonSpaceAround(line.before, line.after);
      ObjectRequestExactly(line.body.members);
    }
  }

  /** Three readable requests with id 7 whose timeout answer has a null id: one behind a no-break
      space, one given by position, one with a number too large for `Value`. */
  lemma {:induction false} TimeoutCanLoseTheId(id: Json)
    requires id == Other("7", None)
    ensures var version, method_ := ("jsonrpc", Text("2.0")), ("method", Text("tools/list"));
            forall line | line in [
                Line("\U{A0}", Object([version, ("id", id), method_]), ""),
                Line("", Array([Text("2.0"), id, Text("tools/list")]), ""),
                Line("", Object([version, ("id", id), method_, ("x", Unreadable)]), "")] ::
              RequestId(line) == Some(id) && TimeoutResponse(line).id == Some(Null)
  {
    var version, method_ := ("jsonrpc", Text("2.0")), ("method", Text("tools/list"));
    var plain := [version, ("id", id), method_];
    var extended := plain + [("x", Unreadable)];
    assert '\U{A0}' in "\U{A0}";
    PlainRequest(id, plain);
    assert extended[..3] == plain && ReadMembers(extended) == ReadMembers(plain);
    assert ("x", Unreadable) in extended;
    assert extended == [version, ("id", id), method_, ("x", Unreadable)];
  }

  lemma PlainRequest(id: Json, members: Members)
    requires id == Other("7", None) && members == [("jsonrpc", Text("2.0")), ("id", id), ("method", Text("tools/list"))]
    ensures ReadMembers(members) == Some(Fields(Some("2.0"), Some(Some(id)), Some("tools/list"), None))
  {
    assert members[..2] == [members[0], members[1]] && members[..2][..1] == [members[0]] && members[..1][..0] == [];
    assert members[..1] == [members[0]];
    assert ReadMembers(members[..1]) == Some(Fields(Some("2.0"), None, None, None));
    assert ReadMembers(members[..2]) == Some(Fields(Some("2.0"), Some(Some(id)), None, None));
  }

  /** The two paths agree on the id exactly for readable requests with an id that the timeout
      reads as well; a reply lacks the id member exactly when there is no such request, as for a
      line that is not JSON, and the timeout answer never lacks it. */
  lemma {:induction false} SameIdOnBothPaths(line: Line, reply: Reply)
    requires ProcessLine(line, reply).Some?
    ensures ProcessLine(line, reply).value.id == TimeoutResponse(line).id <==> RequestId(line).Some? && ReadsAsObject(line)
    ensures ProcessLine(line, reply).value.id == RequestId(line)
    ensures ProcessLine(Line("", NotJson, ""), reply).value.id.None? && TimeoutResponse(Line("", NotJson, "")).id == Some(Null)
  {
    if RequestId(line).Some? { TimeoutCarriesIdExactly(line, RequestId(line).value); }
  }

  /** A readable request with a non-null id is answered in time with that id, or is a notification
      whose handler is silent; past the timeout it keeps the id exactly if the line reads as an object. */
  lemma {:induction false} RequestIdCarried(line: Line, reply: Reply, id: Json)
    requires RequestId(line) == Some(id)
    ensures ProcessLine(line, reply).Some? ==> ProcessLine(line, reply).value.id == Some(id)
    ensures ProcessLine(line, reply).None? <==>
            var request := RequestIn(line).value;
            request.version == "2.0" && |request.method_| >= 14 && request.method_[..14] == "notifications/" && reply.Silent?
    ensures TimeoutResponse(line).id == Some(id) <==> ReadsAsObject(line)
  {
    TimeoutCarriesIdExactly(line, id);
    assert |NOTIFICATION_PREFIX| == 14;
  }

  /** The lines that get no answer while the worker is in time: blank ones, and notifications
      whose handler has nothing to say. */
  predicate IsSilent(line: Line, reply: Reply) {
    || line.Blank?
    || (RequestIn(line).Some? && RequestIn(line).value.version == "2.0" && IsNotification(RequestIn(line).value.method_) && reply.Silent?)
  }

  // ------------------------------------------------------- tool classification

  /** `READ_ONLY_TOOLS`. */
  const READ_ONLY_TOOLS: set<string> := {
    "handoff_get_task", "handoff_list_tasks", "handoff_get_config", "handoff_get_metrics",
    "handoff_get_metrics_snapshot", "handoff_list_sessions", "handoff_list_assignees",
    "handoff_get_session", "handoff_get_capacity", "handoff_list_milestones",
    "handoff_memory_query", "handoff_timer_get_time", "handoff_brainstorm_status",
    "handoff_doc_get", "handoff_doc_list", "handoff_doc_reassemble", "handoff_doc_tree",
    "handoff_doc_graph", "handoff_doc_trace", "handoff_doc_verify_status", "handoff_doc_query",
    "handoff_doc_req_list", "handoff_doc_req_status", "handoff_doc_req_impact", "handoff_doc_export",
    "handoff_list_agents", "handoff_overview", "handoff_events", "handoff_list_referrals",
    "handoff_get_referral", "handoff_trace_history", "handoff_trace_impact", "handoff_trace_propose",
    "handoff_trace_lint", "handoff_trace_matrix", "handoff_trace_next", "handoff_trace_tree"
  }

  /** Unlisted names are writes: the safe default. */
  predicate IsWriteTool(name: string) {
    name !in READ_ONLY_TOOLS
  }
}
