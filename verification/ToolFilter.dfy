/** The filter that every tool call of a model's reply passes before a connector runs: routes.rs. */
module ToolFilter {
  import opened Text
  import opened Json
  import opened Dsl
  import opened DslPrint
  import opened Requests
  import opened Contexts
  import opened Translate
  import opened TranslateReads
  import opened Semantics
  import opened Evaluator
  import opened Catalog
  import opened CatalogAgreement
  import opened ToolRequests
  import opened AuditLog
  import opened Engine
  import opened Entities
  import CedarText

  datatype ToolCall = ToolCall(id: string, name: string, arguments: Json)

  /** The counters that the metrics endpoint prints. */
  datatype Metrics = Metrics(checks: nat, denies: nat, allows: nat, upstream: nat)

  // ----- reading a tool call -----

  function StringAt(val: Json, outer: string, inner: string, default: string): string {
    match Child(val, outer)
    case None => default
    case Some(v) =>
      match Child(v, inner)
      case Some(Str(s)) => s
      case _ => default
  }

  function NameOf(tc: Json): string { StringAt(tc, "function", "name", "") }

  function ArgumentsText(tc: Json): string { StringAt(tc, "function", "arguments", "{}") }

  function IdOf(tc: Json): string {
    match Child(tc, "id")
    case Some(Str(s)) => s
    case _ => ""
  }

  /** What the filter works with; `read` parses the argument text. */
  datatype Setting = Setting(
    catalog: ResourceCatalog, principal: Principal, library: Library, hot: HotBundle, requireSigned: bool,
    read: string -> Option<Json>)

  function Arguments(s: Setting, tc: Json): Json {
    match s.read(ArgumentsText(tc))
    case Some(args) => args
    case None => Obj([])
  }

  function CallOf(s: Setting, tc: Json): ToolCall {
    ToolCall(IdOf(tc), NameOf(tc), Arguments(s, tc))
  }

  function CallVerdict(s: Setting, tc: Json): Result<Decision, EngineError> {
    Verdict(s.library, s.hot, s.requireSigned, ToolRequest(s.catalog, s.principal, NameOf(tc), Arguments(s, tc)))
  }

  /** The string found, or a default for what is absent or no string. */
  function StringOr(found: Option<Json>, default: string): string {
    match found
    case Some(Str(s)) => s
    case _ => default
  }

  /**
   * A call is judged and run by its id, its name and its arguments, which are read from a text. The name
   * and the id default to nothing, the text to an empty object, and so does a text that cannot be read.
   */
  lemma CallReads(s: Setting, tc: Json)
    ensures var name := StringOr(Lookup(tc, ["function", "name"]), "");
            var text := StringOr(Lookup(tc, ["function", "arguments"]), "{}");
            var id := StringOr(Lookup(tc, ["id"]), "");
            var args := if s.read(text).Some? then s.read(text).value else Obj([]);
            && CallOf(s, tc) == ToolCall(id, name, args)
            && CallVerdict(s, tc)
               == Verdict(s.library, s.hot, s.requireSigned, ToolRequest(s.catalog, s.principal, name, args))
  {
    hide Verdict, ToolRequest, Find;
    MembersRead(tc);
  }

  lemma MembersRead(tc: Json)
    ensures NameOf(tc) == StringOr(Lookup(tc, ["function", "name"]), "")
    ensures ArgumentsText(tc) == StringOr(Lookup(tc, ["function", "arguments"]), "{}")
    ensures IdOf(tc) == StringOr(Lookup(tc, ["id"]), "")
  {
    hide Find;
    LookupTwo(tc, "function", "name");
    LookupTwo(tc, "function", "arguments");
    LookupOne(tc, "id");
  }

  /** A call whose three members are strings, and whose arguments can be read, is judged and run as it is written. */
  lemma CallIsAsWritten(s: Setting, tc: Json, id: string, name: string, text: string, args: Json)
    requires Lookup(tc, ["id"]) == Some(Str(id)) && Lookup(tc, ["function", "name"]) == Some(Str(name))
    requires Lookup(tc, ["function", "arguments"]) == Some(Str(text)) && s.read(text) == Some(args)
    ensures CallOf(s, tc) == ToolCall(id, name, args)
    ensures Allowed(s, tc) <==>
      var v := Verdict(s.library, s.hot, s.requireSigned, ToolRequest(s.catalog, s.principal, name, args));
      v.Ok? && v.value.allow
  {
    hide Verdict, ToolRequest, Lookup, CallOf, CallVerdict;
    CallReads(s, tc);
  }

  predicate Allowed(s: Setting, tc: Json) {
    CallVerdict(s, tc).Ok? && CallVerdict(s, tc).value.allow
  }

  // ----- the filter, call by call -----

  /** The first error ends the filter. */
  function Filtered(s: Setting, calls: seq<Json>): Result<seq<Json>, EngineError> {
    if calls == [] then Ok([])
    else
      match CallVerdict(s, calls[0])
      case Err(e) => Err(e)
      case Ok(d) =>
        match Filtered(s, calls[1..])
        case Err(e) => Err(e)
        case Ok(rest) => Ok((if d.allow then [calls[0]] else []) + rest)
  }

  /** How many calls are judged before the first error. */
  function Judged(s: Setting, calls: seq<Json>): (n: nat)
    ensures n <= |calls|
  {
    if calls == [] || CallVerdict(s, calls[0]).Err? then 0 else 1 + Judged(s, calls[1..])
  }

  function KeepAllowed(s: Setting, calls: seq<Json>): (r: seq<Json>)
    ensures |r| <= |calls|
  {
    if calls == [] then []
    else KeepAllowed(s, calls[..|calls| - 1]) + if Allowed(s, calls[|calls| - 1]) then [calls[|calls| - 1]] else []
  }

  function CallsOf(s: Setting, kept: seq<Json>): (r: seq<ToolCall>)
    ensures |r| == |kept| && forall i | 0 <= i < |kept| :: r[i] == CallOf(s, kept[i])
  {
    seq(|kept|, i requires 0 <= i < |kept| => CallOf(s, kept[i]))
  }

  /** `out` is exactly the allowed calls, in their order. */
  ghost predicate IsAllowedSelection(s: Setting, calls: seq<Json>, out: seq<Json>) {
    exists at: seq<nat> :: Selects(s, calls, out, at)
  }

  ghost predicate Selects(s: Setting, calls: seq<Json>, out: seq<Json>, at: seq<nat>) {
    && |at| == |out|
    && (forall k | 0 <= k < |at| :: at[k] < |calls| && out[k] == calls[at[k]] && Allowed(s, calls[at[k]]))
    && (forall j, k | 0 <= j < k < |at| :: at[j] < at[k])
    && (forall i | 0 <= i < |calls| && Allowed(s, calls[i]) :: i in at)
  }

  lemma {:induction false} KeepAllowedSelects(s: Setting, calls: seq<Json>) returns (at: seq<nat>)
    ensures Selects(s, calls, KeepAllowed(s, calls), at)
    decreases calls
  {
    hide Allowed, Selects;
    if calls == [] {
      at := [];
      SelectsNothing(s);
    } else {
      var init, tc := calls[..|calls| - 1], calls[|calls| - 1];
      assert init + [tc] == calls;
      var before := KeepAllowedSelects(s, init);
      SelectsOneMore(s, init, tc, KeepAllowed(s, init), before);
      assert KeepAllowed(s, init) + [] == KeepAllowed(s, init);
      at := if Allowed(s, tc) then before + [|init|] else before;
    }
  }

  lemma SelectsNothing(s: Setting)
    ensures Selects(s, [], [], [])
  {}

  lemma SelectsOneMore(s: Setting, calls: seq<Json>, tc: Json, out: seq<Json>, at: seq<nat>)
    requires Selects(s, calls, out, at)
    ensures Allowed(s, tc) ==> Selects(s, calls + [tc], out + [tc], at + [|calls|])
    ensures !Allowed(s, tc) ==> Selects(s, calls + [tc], out, at)
  {
    hide Allowed;
    var more := at + [|calls|];
    assert more[|at|] == |calls|;
    assert forall k | 0 <= k < |at| :: more[k] == at[k];
  }

  lemma {:induction false} JudgedBefore(s: Setting, calls: seq<Json>)
    ensures var n := Judged(s, calls);
            && (forall i | 0 <= i < n :: CallVerdict(s, calls[i]).Ok?)
            && (n < |calls| ==> CallVerdict(s, calls[n]).Err?)
    decreases calls
  {
    hide CallVerdict;
    if calls != [] && CallVerdict(s, calls[0]).Ok? {
      JudgedBefore(s, calls[1..]);
    }
  }

  lemma {:induction false} FilteredKeepsAllowed(s: Setting, calls: seq<Json>)
    ensures Filtered(s, calls).Ok? <==> Judged(s, calls) == |calls|
    ensures Filtered(s, calls).Ok? ==> Filtered(s, calls).value == KeepAllowed(s, calls)
    ensures Filtered(s, calls).Err? ==> CallVerdict(s, calls[Judged(s, calls)]) == Err(Filtered(s, calls).error)
    decreases calls
  {
    hide CallVerdict;
    if calls != [] {
      FilteredKeepsAllowed(s, calls[1..]);
      KeepAllowedCons(s, calls);
    }
  }

  lemma {:induction false} KeepAllowedCons(s: Setting, calls: seq<Json>)
    requires calls != []
    ensures KeepAllowed(s, calls) == (if Allowed(s, calls[0]) then [calls[0]] else []) + KeepAllowed(s, calls[1..])
    decreases calls
  {
    hide Allowed;
    var n := |calls| - 1;
    if n == 0 {
      assert KeepAllowed(s, calls[..n]) == [] && calls[1..] == [];
    } else {
      KeepAllowedCons(s, calls[..n]);
      assert calls[..n][1..] == calls[1..][..n - 1];
    }
  }

  /** When no check errs, the filter keeps exactly the allowed calls in order; otherwise it errs as the first one does. */
  lemma {:induction false} FilterIsExact(s: Setting, calls: seq<Json>)
    ensures Filtered(s, calls).Ok? <==> forall i | 0 <= i < |calls| :: CallVerdict(s, calls[i]).Ok?
    ensures Filtered(s, calls).Ok? ==> IsAllowedSelection(s, calls, Filtered(s, calls).value)
  {
    hide CallVerdict, Allowed, Selects;
    JudgedBefore(s, calls);
    FilteredKeepsAllowed(s, calls);
    var at := KeepAllowedSelects(s, calls);
  }

  // ----- which tools are allowed -----

  predicate About(p: Policy, action: string, resource: string) {
    p.action == action && p.resource == resource
  }

  /** A tool request has no subject, so a policy with any `where` line is not about it. */
  predicate HoldsWithoutSubject(p: Policy, roles: seq<string>) {
    && p.whereSubjects == [] && p.whereGroups == []
    && (p.whenRoles == [] || Overlap(p.whenRoles, roles)) && !Overlap(p.unlessRoles, roles)
  }

  /** Some allow policy on the action and resource holds for the roles, and no deny or review policy does. */
  predicate LetsIn(ps: seq<Policy>, action: string, resource: string, roles: seq<string>) {
    && (exists p :: p in ps && p.effect == Allow && About(p, action, resource) && HoldsWithoutSubject(p, roles))
    && !(exists p :: p in ps && p.effect != Allow && About(p, action, resource) && HoldsWithoutSubject(p, roles))
  }

  lemma HoldsOnTool(p: Policy, req: AuthzRequest)
    requires req.subject.None?
    ensures Holds(p, req) <==> About(p, Upper(req.action), Upper(req.resource.kind)) && HoldsWithoutSubject(p, req.principal.roles)
  {
    hide Upper, Overlap;
    assert forall s :: !SubjectMatches(s, req);
    NothingShared(p.whereGroups);
    if p.whereSubjects != [] {
      assert p.whereSubjects[0] in p.whereSubjects;
    }
  }

  lemma HoldsWithoutSubjectIff(p: Policy, roles: seq<string>)
    ensures HoldsWithoutSubject(p, roles) <==>
      && p.whereSubjects == [] && p.whereGroups == []
      && (p.whenRoles != [] ==> exists r :: r in p.whenRoles && r in roles)
      && forall r | r in p.unlessRoles :: r !in roles
  {}

  lemma NothingShared(xs: seq<string>)
    ensures !Overlap(xs, [])
  {}

  /** A request without a subject is allowed if and only if its check comes to a decision and some policy lets the roles in. */
  lemma RequestAllowedIff(s: Setting, ps: seq<Policy>, req: AuthzRequest)
    requires Compilable(ps) && s.hot.policySet == CedarPoliciesOf(ps)
    requires PlainTarget(req) && req.subject.None?
    ensures var v := Verdict(s.library, s.hot, s.requireSigned, req);
            v.Ok? && v.value.allow <==> v.Ok? && LetsIn(ps, Upper(req.action), Upper(req.resource.kind), req.principal.roles)
  {
    hide Verdict, PlainTarget, Compilable, CedarPoliciesOf, Upper, Holds, About, HoldsWithoutSubject;
    VerdictMeansPermitted(s.library, s.hot, s.requireSigned, ps, req);
    forall p { HoldsOnTool(p, req); }
  }

  /**
   * The exact condition: under compiled policies a call to a tool outside the catalog is allowed if and
   * only if its check comes to a decision and some policy lets the principal's roles invoke unknown tools.
   */
  lemma UnknownAllowedIff(s: Setting, ps: seq<Policy>, tc: Json)
    requires Compilable(ps) && s.hot.policySet == CedarPoliciesOf(ps)
    requires FindTool(s.catalog.tools, NameOf(tc)).None?
    ensures Allowed(s, tc) <==> CallVerdict(s, tc).Ok? && LetsIn(ps, "TOOL_INVOKE", "TOOL_UNKNOWN", s.principal.roles)
  {
    hide FindTool, Verdict, PlainTarget, Compilable, CedarPoliciesOf, Upper, NameOf, LetsIn, Catalog.Flatten;
    UnknownToolRequest(s.catalog, s.principal, NameOf(tc), Arguments(s, tc));
    RequestAllowedIff(s, ps, ToolRequest(s.catalog, s.principal, NameOf(tc), Arguments(s, tc)));
  }

  lemma UnknownToolRequest(catalog: ResourceCatalog, principal: Principal, name: string, args: Json)
    requires FindTool(catalog.tools, name).None?
    ensures var req := ToolRequest(catalog, principal, name, args);
            && PlainTarget(req) && Upper(req.resource.kind) == "TOOL_UNKNOWN" && Upper(req.action) == "TOOL_INVOKE"
            && req.subject.None? && req.principal == principal
  {
    hide Catalog.Flatten;
  }

  /**
   * The same for a call in the catalog: what counts are the policies on the action and the resource
   * kind that the catalog maps the tool to.
   */
  lemma KnownAllowedIff(s: Setting, ps: seq<Policy>, tc: Json, m: ToolMapping)
    requires Compilable(ps) && s.hot.policySet == CedarPoliciesOf(ps)
    requires IsTool(s.catalog.tools, NameOf(tc), m) && PlainName(m.action) && PlainName(m.resourceKind)
    ensures Allowed(s, tc) <==> CallVerdict(s, tc).Ok? && LetsIn(ps, Upper(m.action), Upper(m.resourceKind), s.principal.roles)
  {
    hide FindTool, Verdict, Compilable, CedarPoliciesOf, Upper, NameOf, LetsIn, ToolRequest, IsTool, PlainName;
    KnownToolRequest(s.catalog, s.principal, NameOf(tc), Arguments(s, tc), m);
    RequestAllowedIff(s, ps, ToolRequest(s.catalog, s.principal, NameOf(tc), Arguments(s, tc)));
  }

  /** Where no policy lets the roles in, no call to a tool outside the catalog is allowed, whatever its name and arguments are. */
  lemma {:induction false} UnknownToolsNeverAllowed(s: Setting, ps: seq<Policy>, tc: Json)
    requires Compilable(ps) && s.hot.policySet == CedarPoliciesOf(ps)
    requires !LetsIn(ps, "TOOL_INVOKE", "TOOL_UNKNOWN", s.principal.roles)
    requires FindTool(s.catalog.tools, NameOf(tc)).None?
    ensures !Allowed(s, tc)
  {
    hide FindTool, NameOf, Compilable, CedarPoliciesOf, LetsIn, CallVerdict;
    UnknownAllowedIff(s, ps, tc);
  }

  const OPEN_POLICY := Policy("open", Allow, "TOOL_INVOKE", "TOOL_UNKNOWN", [], [], [], [], "")

  /** One policy that names the pair and restricts nothing does let an unknown tool through. */
  lemma UnknownToolAllowed(lib: Library, read: string -> Option<Json>)
    requires IsCedar(lib) && read("{}") == Some(Obj([]))
    ensures var hot := HotBundle(CedarPoliciesOf([OPEN_POLICY]), "r1", None, None, None, []);
            Allowed(Setting(ResourceCatalog([], []), Principal("p", [], [], []), lib, hot, false, read), Obj([]))
  {
    hide Verdict, Compilable, CedarPoliciesOf, LetsIn, Evaluable, PlainTarget, IsCedar, ToolRequest;
    var ps := [OPEN_POLICY];
    var hot := HotBundle(CedarPoliciesOf(ps), "r1", None, None, None, []);
    var s := Setting(ResourceCatalog([], []), Principal("p", [], [], []), lib, hot, false, read);
    OpenPolicyCompiles();
    OpenPolicyLetsIn();
    OpenRequestIs();
    OpenRequestEvaluable(lib);
    UnknownAllowedIff(s, ps, Obj([]));
    VerdictMeansPermitted(lib, hot, false, ps, OPEN_REQUEST);
  }

  lemma OpenWordsWellFormed()
    ensures WellFormedWord("TOOL_INVOKE") && WellFormedWord("TOOL_UNKNOWN")
  {}

  lemma OpenNamesPlain()
    ensures CedarText.Plain("TOOL_INVOKE") && CedarText.Plain("TOOL_UNKNOWN") && CedarText.Plain("open")
    ensures Clean("open")
  {}

  lemma OpenPolicyCompiles()
    ensures Compilable([OPEN_POLICY])
  {
    hide WellFormedWord, CedarText.Plain, Clean;
    OpenWordsWellFormed();
    OpenNamesPlain();
    assert WellFormed(OPEN_POLICY) && PlainPolicy(OPEN_POLICY);
  }

  lemma OpenPolicyLetsIn()
    ensures LetsIn([OPEN_POLICY], "TOOL_INVOKE", "TOOL_UNKNOWN", [])
  {
    hide Overlap;
    assert OPEN_POLICY in [OPEN_POLICY];
    NothingShared([]);
  }

  const OPEN_REQUEST :=
    AuthzRequest(Principal("p", [], [], []), "TOOL_INVOKE", Resource("TOOL_UNKNOWN", Some(""), []), None,
                 [("tool_name", "")], [], AGENT, None)

  lemma OpenRequestIs()
    ensures ToolRequest(ResourceCatalog([], []), Principal("p", [], [], []), "", Obj([])) == OPEN_REQUEST
  {}

  lemma OpenStringsPlain()
    ensures PlainName("TOOL_INVOKE") && PlainName("TOOL_UNKNOWN")
    ensures ControlFree("TOOL_INVOKE") && ControlFree("TOOL_UNKNOWN") && ControlFree("tool_name") && ControlFree("")
    ensures forall v | v in ["TOOL_UNKNOWN", "agent:paac-proxy"] :: '\\' !in v && '\r' !in v
  {}

  lemma OpenRequestValid()
    ensures Validate(OPEN_REQUEST).Ok?
  {
    assert IsTrimmed("p") && IsTrimmed("TOOL_INVOKE") && IsTrimmed("TOOL_UNKNOWN");
  }

  lemma OpenAttributesPlain()
    ensures AttributesPlain(OPEN_REQUEST)
  {
    OpenStringsPlain();
    var req := OPEN_REQUEST;
    assert PrincipalSets(req) == [[], [], []] && SubjectSets(req) == [] && SubjectStrings(req) == [];
    assert Values([]) == [];
    assert PrincipalStrings(req) == ["agent:paac-proxy"] && ResourceStrings(req) == ["TOOL_UNKNOWN"];
    assert AttributeLists(req) == [[], [], [], ["agent:paac-proxy"], [], ["TOOL_UNKNOWN"]];
  }

  lemma OpenRequestEvaluable(lib: Library)
    requires IsCedar(lib)
    ensures PlainTarget(OPEN_REQUEST) && Evaluable(OPEN_REQUEST, Host(lib, []))
  {
    hide IsCedar, AttributesPlain, Validate, PlainName, ControlFree, Evaluable, RESERVED;
    OpenStringsPlain();
    OpenRequestValid();
    OpenAttributesPlain();
    ToolNameUnreserved();
    OrdinaryRequestsEvaluable(OPEN_REQUEST, Host(lib, []));
  }

  // ----- the reply -----

  const BLOCKED := "PAAC blocked all tool calls for this turn."

  function SetMember(members: seq<Entry>, key: string, value: Json): seq<Entry> {
    if members == [] then [Entry(key, value)]
    else if members[0].key == key then [Entry(key, value)] + members[1..]
    else [members[0]] + SetMember(members[1..], key, value)
  }

  function RemoveMember(members: seq<Entry>, key: string): seq<Entry> {
    if members == [] then []
    else (if members[0].key == key then [] else [members[0]]) + RemoveMember(members[1..], key)
  }

  lemma {:induction false} FindAfterSet(members: seq<Entry>, key: string, value: Json, k: string)
    ensures Find(SetMember(members, key, value), k) == if k == key then Some(value) else Find(members, k)
  {
    if members != [] && members[0].key != key {
      FindAfterSet(members[1..], key, value, k);
    }
  }

  lemma {:induction false} FindAfterRemove(members: seq<Entry>, key: string, k: string)
    ensures Find(RemoveMember(members, key), k) == if k == key then None else Find(members, k)
  {
    if members != [] {
      FindAfterRemove(members[1..], key, k);
      assert [] + RemoveMember(members[1..], key) == RemoveMember(members[1..], key);
    }
  }

  function EditMessage(members: seq<Entry>, kept: seq<Json>): seq<Entry> {
    if kept == [] then SetMember(RemoveMember(members, "tool_calls"), "content", Str(BLOCKED))
    else SetMember(members, "tool_calls", Arr(kept))
  }

  /** A `tool_calls` value that is no array keeps nothing. */
  function FilteredValue(s: Setting, tcs: Json): Result<seq<Json>, EngineError> {
    if tcs.Arr? then Filtered(s, tcs.items) else Ok([])
  }

  function ToolCallsOf(choice: Json): Option<Json> {
    match Child(choice, "message")
    case None => None
    case Some(msg) => Child(msg, "tool_calls")
  }

  function FilteredChoice(s: Setting, choice: Json): Result<Json, EngineError> {
    match ToolCallsOf(choice)
    case None => Ok(choice)
    case Some(tcs) =>
      match FilteredValue(s, tcs)
      case Err(e) => Err(e)
      case Ok(kept) =>
        var msg := Child(choice, "message").value;
        Ok(Obj(SetMember(choice.members, "message", Obj(EditMessage(msg.members, kept)))))
  }

  function FilteredChoices(s: Setting, choices: seq<Json>): Result<seq<Json>, EngineError> {
    if choices == [] then Ok([])
    else
      match FilteredChoices(s, choices[..|choices| - 1])
      case Err(e) => Err(e)
      case Ok(before) =>
        match FilteredChoice(s, choices[|choices| - 1])
        case Err(e) => Err(e)
        case Ok(choice) => Ok(before + [choice])
  }

  function ChoicesOf(reply: Json): seq<Json> {
    match Child(reply, "choices")
    case Some(Arr(choices)) => choices
    case _ => []
  }

  function FilteredReply(s: Setting, reply: Json): Result<Json, EngineError> {
    match Child(reply, "choices")
    case Some(Arr(choices)) =>
      (match FilteredChoices(s, choices)
       case Err(e) => Err(e)
       case Ok(done) => Ok(ReplyWith(reply, done)))
    case _ => Ok(reply)
  }

  /** What the client sees of a choice: only allowed calls, all of them, and otherwise the notice. */
  ghost predicate ChoiceIsFiltered(s: Setting, before: Json, after: Json) {
    match Lookup(before, ["message", "tool_calls"])
    case None => after == before
    case Some(tcs) =>
      var calls := if tcs.Arr? then tcs.items else [];
      match Lookup(after, ["message", "tool_calls"])
      case Some(Arr(kept)) => kept != [] && IsAllowedSelection(s, calls, kept)
      case Some(_) => false
      case None =>
        && (forall i | 0 <= i < |calls| :: !Allowed(s, calls[i]))
        && Lookup(after, ["message", "content"]) == Some(Str("PAAC blocked all tool calls for this turn."))
  }

  lemma EmptySelection(s: Setting, calls: seq<Json>)
    requires IsAllowedSelection(s, calls, [])
    ensures forall i | 0 <= i < |calls| :: !Allowed(s, calls[i])
  {
    hide Allowed;
  }

  lemma EditedMessage(members: seq<Entry>, kept: seq<Json>)
    ensures Find(EditMessage(members, kept), "tool_calls") == if kept == [] then None else Some(Arr(kept))
    ensures kept == [] ==> Find(EditMessage(members, kept), "content") == Some(Str(BLOCKED))
  {
    hide SetMember, RemoveMember;
    FindAfterSet(members, "tool_calls", Arr(kept), "tool_calls");
    FindAfterSet(RemoveMember(members, "tool_calls"), "content", Str(BLOCKED), "tool_calls");
    FindAfterSet(RemoveMember(members, "tool_calls"), "content", Str(BLOCKED), "content");
    FindAfterRemove(members, "tool_calls", "tool_calls");
  }

  lemma FilteredChoiceIsFiltered(s: Setting, choice: Json)
    requires FilteredChoice(s, choice).Ok?
    ensures ChoiceIsFiltered(s, choice, FilteredChoice(s, choice).value)
  {
    hide Allowed, IsAllowedSelection, EditMessage, SetMember, Filtered;
    if ToolCallsOf(choice).Some? {
      var tcs := ToolCallsOf(choice).value;
      var calls := if tcs.Arr? then tcs.items else [];
      var kept := FilteredValue(s, tcs).value;
      KeptIsSelection(s, tcs);
      var msg := Child(choice, "message").value;
      EditedMessage(msg.members, kept);
      FindAfterSet(choice.members, "message", Obj(EditMessage(msg.members, kept)), "message");
      if kept == [] { EmptySelection(s, calls); }
    }
  }

  lemma KeptIsSelection(s: Setting, tcs: Json)
    requires FilteredValue(s, tcs).Ok?
    ensures IsAllowedSelection(s, if tcs.Arr? then tcs.items else [], FilteredValue(s, tcs).value)
  {
    hide Allowed, Selects;
    if tcs.Arr? {
      FilterIsExact(s, tcs.items);
    } else {
      var at := KeepAllowedSelects(s, []);
    }
  }

  lemma {:induction false} ChoicesAreFiltered(s: Setting, choices: seq<Json>)
    requires FilteredChoices(s, choices).Ok?
    ensures var done := FilteredChoices(s, choices).value;
            |done| == |choices| && forall i | 0 <= i < |choices| :: ChoiceIsFiltered(s, choices[i], done[i])
    decreases choices
  {
    hide FilteredChoice, ChoiceIsFiltered;
    if choices != [] {
      ChoicesAreFiltered(s, choices[..|choices| - 1]);
      FilteredChoiceIsFiltered(s, choices[|choices| - 1]);
    }
  }

  /** No forbidden call is left anywhere in the reply, no allowed one is lost, and the rest of the reply is unchanged. */
  lemma {:induction false} ReplyCarriesExactlyAllowed(s: Setting, reply: Json, key: string)
    requires FilteredReply(s, reply).Ok?
    ensures var out := FilteredReply(s, reply).value;
            match Lookup(reply, ["choices"])
            case Some(Arr(before)) => EveryChoiceIsFiltered(s, before, Lookup(out, ["choices"]))
            case _ => out == reply
    ensures key != "choices" ==> Child(FilteredReply(s, reply).value, key) == Child(reply, key)
  {
    hide FilteredChoices, ChoiceIsFiltered, SetMember, Find;
    LookupOne(reply, "choices");
    match Child(reply, "choices")
    case Some(Arr(choices)) =>
      ChoicesAreFiltered(s, choices);
      var done := FilteredChoices(s, choices).value;
      FindAfterSet(reply.members, "choices", Arr(done), "choices");
      FindAfterSet(reply.members, "choices", Arr(done), key);
      LookupOne(FilteredReply(s, reply).value, "choices");
    case _ =>
  }

  ghost predicate EveryChoiceIsFiltered(s: Setting, before: seq<Json>, after: Option<Json>) {
    && after.Some? && after.value.Arr? && |after.value.items| == |before|
    && forall i | 0 <= i < |before| :: ChoiceIsFiltered(s, before[i], after.value.items[i])
  }

  lemma {:induction false} RestOfChoiceKept(s: Setting, choice: Json, key: string)
    requires FilteredChoice(s, choice).Ok? && ToolCallsOf(choice).Some?
    ensures var after := FilteredChoice(s, choice).value;
            && (key != "message" ==> Child(after, key) == Child(choice, key))
            && (key != "tool_calls" && (key != "content" || ToolCallsOf(after).Some?) ==>
                  Child(after, "message").Some?
                  && Child(Child(after, "message").value, key) == Child(Child(choice, "message").value, key))
  {
    hide Allowed, SetMember, RemoveMember, Filtered;
    var kept := FilteredValue(s, ToolCallsOf(choice).value).value;
    var members := Child(choice, "message").value.members;
    FindAfterSet(choice.members, "message", Obj(EditMessage(members, kept)), "message");
    FindAfterSet(choice.members, "message", Obj(EditMessage(members, kept)), key);
    EditedMessage(members, kept);
    FindAfterSet(members, "tool_calls", Arr(kept), key);
    FindAfterSet(RemoveMember(members, "tool_calls"), "content", Str(BLOCKED), key);
    FindAfterRemove(members, "tool_calls", key);
  }

  function ContentOf(choice: Json): Option<Json> {
    match Child(choice, "message")
    case None => None
    case Some(msg) => Child(msg, "content")
  }

  lemma ChoicePaths(choice: Json)
    ensures ToolCallsOf(choice) == Lookup(choice, ["message", "tool_calls"])
    ensures ContentOf(choice) == Lookup(choice, ["message", "content"])
  {
    hide Find;
    LookupTwo(choice, "message", "tool_calls");
    LookupTwo(choice, "message", "content");
  }

  function CallsIn(tcs: Json): seq<Json> {
    if tcs.Arr? then tcs.items else []
  }

  /** There are `tool_calls`, of whatever shape, and none of the calls in them is allowed. */
  predicate NoneAllowed(s: Setting, choice: Json) {
    && ToolCallsOf(choice).Some?
    && forall i | 0 <= i < |CallsIn(ToolCallsOf(choice).value)| :: !Allowed(s, CallsIn(ToolCallsOf(choice).value)[i])
  }

  /**
   * The content is replaced by the notice if and only if `tool_calls` is present and none of its calls
   * is allowed: also when it is null, empty or no array at all, and no tool was asked for.
   */
  lemma ContentReplacedIff(s: Setting, choice: Json)
    requires FilteredChoice(s, choice).Ok?
    ensures var after := FilteredChoice(s, choice).value;
            if NoneAllowed(s, choice) then ToolCallsOf(after).None? && ContentOf(after) == Some(Str(BLOCKED))
            else ContentOf(after) == ContentOf(choice) && (ToolCallsOf(choice).Some? ==> ToolCallsOf(after).Some?)
  {
    hide Allowed, SetMember, RemoveMember, Filtered, Selects;
    if ToolCallsOf(choice).Some? {
      var tcs := ToolCallsOf(choice).value;
      var kept := FilteredValue(s, tcs).value;
      var members := Child(choice, "message").value.members;
      KeptIsSelection(s, tcs);
      EditedMessage(members, kept);
      FindAfterSet(choice.members, "message", Obj(EditMessage(members, kept)), "message");
      FindAfterSet(members, "tool_calls", Arr(kept), "content");
      if kept == [] {
        EmptySelection(s, CallsIn(tcs));
      } else {
        SelectedIsAllowed(s, CallsIn(tcs), kept);
      }
    }
  }

  lemma SelectedIsAllowed(s: Setting, calls: seq<Json>, kept: seq<Json>)
    requires IsAllowedSelection(s, calls, kept) && kept != []
    ensures exists i :: 0 <= i < |calls| && Allowed(s, calls[i])
  {
    hide Allowed;
    var at :| Selects(s, calls, kept, at);
    assert Allowed(s, calls[at[0]]);
  }

  // ----- the filter as written -----

  class Proxy {
    const engine: AuthzEngine
    const catalog: ResourceCatalog
    const executeTools: bool
    const read: string -> Option<Json>
    var metrics: Metrics
    /** What the connector was asked to run. */
    var executed: seq<ToolCall>

    constructor (engine: AuthzEngine, catalog: ResourceCatalog, executeTools: bool, read: string -> Option<Json>)
      ensures this.engine == engine && this.catalog == catalog && this.executeTools == executeTools
      ensures this.read == read && metrics == Metrics(0, 0, 0, 0) && executed == []
    {
      this.engine, this.catalog, this.executeTools, this.read := engine, catalog, executeTools, read;
      metrics, executed := Metrics(0, 0, 0, 0), [];
    }

    function SettingFor(principal: Principal): Setting
      reads engine.bundle
    {
      Setting(catalog, principal, engine.library, engine.bundle.inner, engine.requireSigned, read)
    }

    /** The audit queue, where there is one. */
    ghost function Queued(): seq<AuditWrite>
      reads if engine.store != null then {engine.store} else {}
    {
      if engine.store == null then [] else engine.store.queue
    }

    /** Since then the connector ran these calls, and the audit queue got these entries. */
    ghost predicate Did(effects: Effects, ran: seq<ToolCall>, queued: seq<AuditWrite>)
      reads this, if engine.store != null then {engine.store} else {}
    {
      executed == ran + effects.ran && (engine.store != null ==> engine.store.queue == queued + effects.audit)
    }

    /** One call: count it, check it, count the outcome, and run it when it is allowed and tools are run. */
    method JudgeCall(principal: Principal, tc: Json, stamp: Stamp) returns (r: Result<bool, EngineError>)
      modifies this, (if engine.store != null then {engine.store} else {})`queue
      ensures var s := SettingFor(principal);
              match CallVerdict(s, tc)
              case Err(e) =>
                r == Err(e) && executed == old(executed)
                && metrics == old(metrics).(checks := old(metrics.checks) + 1)
              case Ok(d) =>
                && r == Ok(Allowed(s, tc))
                && executed == old(executed) + (if Allowed(s, tc) && executeTools then [CallOf(s, tc)] else [])
                && metrics == Metrics(old(metrics.checks) + 1,
                                      old(metrics.denies) + (if Allowed(s, tc) then 0 else 1),
                                      old(metrics.allows) + (if Allowed(s, tc) then 1 else 0), old(metrics.upstream))
      ensures engine.store != null ==>
        engine.store.queue == old(engine.store.queue)
                              + AuditOf(CallVerdict(SettingFor(principal), tc), engine.bundle.inner, stamp)
    {
      hide ToolRequest, Verdict, NameOf, IdOf, ArgumentsText, AuditOf, CallVerdict, Allowed, CallOf;
      CallSpelledOut(SettingFor(principal), tc);
      var name := NameOf(tc);
      var parsed := read(ArgumentsText(tc));
      var args := if parsed.Some? then parsed.value else Obj([]);
      var req := AuthzForTool(catalog, principal, name, args);
      metrics := metrics.(checks := metrics.checks + 1);
      var decision := engine.Check(req, stamp);
      if decision.Err? {
        return Err(decision.error);
      }
      if decision.value.allow {
        metrics := metrics.(allows := metrics.allows + 1);
        if executeTools {
          executed := executed + [ToolCall(IdOf(tc), name, args)];
        }
      } else {
        metrics := metrics.(denies := metrics.denies + 1);
      }
      return Ok(decision.value.allow);
    }

    /** Stops at the first error; what ran by then is the allowed calls before it. */
    method FilterToolCalls(principal: Principal, tcs: Json, stamps: nat -> Stamp)
      returns (r: Result<seq<Json>, EngineError>)
      modifies this, (if engine.store != null then {engine.store} else {})`queue
      ensures r == FilteredValue(SettingFor(principal), tcs)
      ensures var s := SettingFor(principal);
              metrics == if tcs.Arr? then Counted(old(metrics), s, tcs.items[..Judged(s, tcs.items)], r.Err?) else old(metrics)
      ensures Did(ValueEffects(SettingFor(principal), tcs, executeTools, stamps), old(executed), old(Queued()))
      ensures CountsAs(metrics, old(metrics), ValueEffects(SettingFor(principal), tcs, executeTools, stamps), if r.Err? then 1 else 0)
    {
      hide Filtered, CallVerdict, Allowed, Judged, CallOf, Counted, Ran, KeepAllowed, Audited, AuditOf, CountsAs;
      if !tcs.Arr? {
        NothingCounts(metrics);
        return Ok([]);
      }
      CountedCounts(metrics, SettingFor(principal), tcs, executeTools, stamps, false);
      CountedCounts(metrics, SettingFor(principal), tcs, executeTools, stamps, true);
      var arr := tcs.items;
      ghost var s := SettingFor(principal);
      var out: seq<Json> := [];
      NothingCounted(metrics, s, executeTools);
      NothingAudited(s, stamps);
      for i := 0 to |arr|
        invariant engine.bundle.inner == old(engine.bundle.inner)
        invariant forall j | 0 <= j < i :: CallVerdict(s, arr[j]).Ok?
        invariant out == KeepAllowed(s, arr[..i])
        invariant executed == old(executed) + Ran(s, arr[..i], executeTools)
        invariant metrics == Counted(old(metrics), s, arr[..i], false)
        invariant engine.store != null ==> engine.store.queue == old(Queued()) + Audited(s, arr[..i], stamps)
      {
        var allowed := JudgeCall(principal, arr[i], stamps(i));
        assert arr[..i + 1] == arr[..i] + [arr[i]];
        OneMoreCounted(old(metrics), s, arr[..i], arr[i], executeTools);
        OneMoreAudited(s, arr[..i], arr[i], stamps);
        if allowed.Err? {
          FirstErrorEnds(s, arr, i);
          return Err(allowed.error);
        }
        if allowed.value {
          out := out + [arr[i]];
        }
      }
      assert arr[..|arr|] == arr;
      FilteredKeepsAllowed(s, arr);
      FirstErrorEnds(s, arr, |arr|);
      return Ok(out);
    }

    /** Edits every choice of the upstream reply; the first error ends the turn. */
    method FilterReply(principal: Principal, reply: Json, stamps: (nat, nat) -> Stamp)
      returns (r: Result<Json, EngineError>)
      modifies this, (if engine.store != null then {engine.store} else {})`queue
      ensures r == FilteredReply(SettingFor(principal), reply)
      ensures Did(ReplyEffects(SettingFor(principal), reply, executeTools, stamps), old(executed), old(Queued()))
      ensures metrics.upstream == old(metrics.upstream)
      ensures CountsAs(metrics, old(metrics), ReplyEffects(SettingFor(principal), reply, executeTools, stamps), if r.Err? then 1 else 0)
    {
      hide FilteredChoice, Find, ChoiceEffects, ChoicesEffects, FilteredChoices, StampsAt, SetMember, CountsAs;
      NothingCounts(metrics);
      var found := Child(reply, "choices");
      if found.None? || !found.value.Arr? {
        NoMoreEffects(NOTHING, SettingFor(principal), executeTools, stamps, 0);
        AfterNothing(ReplyEffects(SettingFor(principal), reply, executeTools, stamps));
        return Ok(reply);
      }
      var choices := found.value.items;
      ghost var s := SettingFor(principal);
      var done: seq<Json> := [];
      ghost var all := ReplyEffects(s, reply, executeTools, stamps);
      ghost var sofar := NOTHING;
      NoChoices(s);
      AfterNothing(all);
      for i := 0 to |choices|
        invariant engine.bundle.inner == old(engine.bundle.inner)
        invariant FilteredChoices(s, choices[..i]) == Ok(done)
        invariant Did(sofar, old(executed), old(Queued()))
        invariant all == After(sofar, ChoicesEffects(s, choices[i..], executeTools, stamps, i))
        invariant metrics.upstream == old(metrics.upstream)
        invariant CountsAs(metrics, old(metrics), sofar, 0)
      {
        ghost var before := metrics;
        var choice := FilterChoice(principal, choices[i], StampsAt(stamps, i));
        ghost var one := ChoiceEffects(s, choices[i], executeTools, StampsAt(stamps, i));
        CountsAfter(metrics, before, old(metrics), sofar, one, if choice.Err? then 1 else 0);
        OneMoreChoice(s, choices, i);
        OneMoreEffect(sofar, s, choices, executeTools, stamps, i);
        Assoc(old(executed), sofar.ran, one.ran);
        Assoc(old(Queued()), sofar.audit, one.audit);
        sofar := After(sofar, one);
        if choice.Err? {
          FailedChoice(s, choices, i + 1);
          return Err(choice.error);
        }
        done := done + [choice.value];
      }
      assert choices[..|choices|] == choices && choices[|choices|..] == [];
      NoMoreEffects(sofar, s, executeTools, stamps, |choices|);
      return Ok(ReplyWith(reply, done));
    }

    method FilterChoice(principal: Principal, choice: Json, stamps: nat -> Stamp) returns (r: Result<Json, EngineError>)
      modifies this, (if engine.store != null then {engine.store} else {})`queue
      ensures r == FilteredChoice(SettingFor(principal), choice)
      ensures Did(ChoiceEffects(SettingFor(principal), choice, executeTools, stamps), old(executed), old(Queued()))
      ensures metrics.upstream == old(metrics.upstream)
      ensures CountsAs(metrics, old(metrics), ChoiceEffects(SettingFor(principal), choice, executeTools, stamps), if r.Err? then 1 else 0)
    {
      hide Filtered, Judged, Ran, KeepAllowed, Audited, Find, CountsAs;
      var tcs := ToolCallsOf(choice);
      if tcs.None? {
        NothingCounts(metrics);
        return Ok(choice);
      }
      var filtered := FilterToolCalls(principal, tcs.value, stamps);
      if filtered.Err? {
        return Err(filtered.error);
      }
      var members := Child(choice, "message").value.members;
      if filtered.value == [] {
        members := RemoveMember(members, "tool_calls");
        members := SetMember(members, "content", Str(BLOCKED));
      } else {
        members := SetMember(members, "tool_calls", Arr(filtered.value));
      }
      return Ok(Obj(SetMember(choice.members, "message", Obj(members))));
    }

    /** The check of the user text; nothing is returned when the text is empty or allowed. */
    method ClearText(principal: Principal, utterance: string, bound: Option<AuthzRequest>, gate: Stamp)
      returns (stop: Option<ChatError>)
      modifies this, (if engine.store != null then {engine.store} else {})`queue
      ensures stop == GateOutcome(SettingFor(principal), utterance, bound)
      ensures Did(GateEffects(SettingFor(principal), utterance, bound, gate), old(executed), old(Queued()))
      ensures metrics.upstream == old(metrics.upstream)
      ensures CountsAs(metrics, old(metrics), GateEffects(SettingFor(principal), utterance, bound, gate),
                       if stop.Some? && stop.value.CheckFailed? then 1 else 0)
    {
      hide Verdict, AuditOf, Tally;
      NoTally();
      if bound.Some? {
        ghost var s := SettingFor(principal);
        VerdictTally(Verdict(s.library, s.hot, s.requireSigned, bound.value), s.hot, gate);
      }
      if utterance != "" {
        if bound.None? {
          return Some(BadBinding);
        }
        metrics := metrics.(checks := metrics.checks + 1);
        var decision := engine.Check(bound.value, gate);
        if decision.Err? {
          return Some(CheckFailed(decision.error));
        }
        if !decision.value.allow {
          metrics := metrics.(denies := metrics.denies + 1);
          return Some(Denied(decision.value));
        }
        metrics := metrics.(allows := metrics.allows + 1);
      }
      return None;
    }

    /**
     * One turn. The request bound from the user text is absent when binding fails, and the upstream
     * reply when the call does. Nothing is forwarded, and no tool runs, before the text is allowed or
     * found empty; a streamed reply is passed on without the filter.
     */
    method ChatCompletions(principal: Principal, utterance: string, bound: Option<AuthzRequest>, stream: bool,
                           reply: Option<Json>, gate: Stamp, stamps: (nat, nat) -> Stamp)
      returns (r: Result<ChatReply, ChatError>)
      modifies this, (if engine.store != null then {engine.store} else {})`queue
      ensures var stop := GateOutcome(SettingFor(principal), utterance, bound);
              var forwarded := stop.None?;
              && metrics.upstream == old(metrics.upstream) + (if forwarded then 1 else 0)
              && (!forwarded ==> r == Err(stop.value))
              && (forwarded && reply.None? ==> r == Err(UpstreamFailed))
              && (forwarded && reply.Some? && stream ==> r == Ok(Streamed))
              && (forwarded && reply.Some? && !stream ==>
                    match FilteredReply(SettingFor(principal), reply.value)
                    case Ok(out) => r == Ok(Replied(out))
                    case Err(e) => r == Err(CheckFailed(e)))
      ensures Did(ChatEffects(SettingFor(principal), utterance, bound, stream, reply, executeTools, gate, stamps),
                  old(executed), old(Queued()))
      ensures CountsAs(metrics, old(metrics),
                       ChatEffects(SettingFor(principal), utterance, bound, stream, reply, executeTools, gate, stamps),
                       if r.Err? && r.error.CheckFailed? then 1 else 0)
    {
      hide FilteredReply, ReplyEffects, GateEffects, GateOutcome, Tally;
      ghost var s := SettingFor(principal);
      var stop := ClearText(principal, utterance, bound, gate);
      if stop.Some? {
        return Err(stop.value);
      }
      metrics := metrics.(upstream := metrics.upstream + 1);
      if reply.None? {
        return Err(UpstreamFailed);
      }
      if stream {
        return Ok(Streamed);
      }
      ghost var first := GateEffects(s, utterance, bound, gate);
      ghost var rest := ReplyEffects(s, reply.value, executeTools, stamps);
      Assoc(old(executed), first.ran, rest.ran);
      Assoc(old(Queued()), first.audit, rest.audit);
      ghost var cleared := metrics;
      var filtered := FilterReply(principal, reply.value, stamps);
      CountsAfter(metrics, cleared, old(metrics), first, rest, if filtered.Err? then 1 else 0);
      if filtered.Err? {
        return Err(CheckFailed(filtered.error));
      }
      return Ok(Replied(filtered.value));
    }
  }

  lemma CallSpelledOut(s: Setting, tc: Json)
    ensures var args := s.read(ArgumentsText(tc));
            var given := if args.Some? then args.value else Obj([]);
            && CallVerdict(s, tc)
               == Verdict(s.library, s.hot, s.requireSigned, ToolRequest(s.catalog, s.principal, NameOf(tc), given))
            && CallOf(s, tc) == ToolCall(IdOf(tc), NameOf(tc), given)
    ensures Allowed(s, tc) <==> CallVerdict(s, tc).Ok? && CallVerdict(s, tc).value.allow
  {
    hide ToolRequest, Verdict, NameOf, IdOf, ArgumentsText;
  }

  /** What the connector ran and what the audit queue got. */
  datatype Effects = Effects(ran: seq<ToolCall>, audit: seq<AuditWrite>)

  const NOTHING := Effects([], [])

  function After(a: Effects, b: Effects): Effects {
    Effects(a.ran + b.ran, a.audit + b.audit)
  }

  lemma AfterNothing(b: Effects)
    ensures After(NOTHING, b) == b
  {
    assert [] + b.ran == b.ran && [] + b.audit == b.audit;
  }

  lemma AfterAll(a: Effects)
    ensures After(a, NOTHING) == a
  {
    assert a.ran + [] == a.ran && a.audit + [] == a.audit;
  }

  lemma AfterAssociates(a: Effects, b: Effects, c: Effects)
    ensures After(After(a, b), c) == After(a, After(b, c))
  {
    Assoc(a.ran, b.ran, c.ran);
    Assoc(a.audit, b.audit, c.audit);
  }

  /** The audit entries of calls that are judged one after another. */
  function Audited(s: Setting, calls: seq<Json>, stamps: nat -> Stamp): seq<AuditWrite> {
    if calls == [] then []
    else
      var n := |calls| - 1;
      Audited(s, calls[..n], stamps) + AuditOf(CallVerdict(s, calls[n]), s.hot, stamps(n))
  }

  lemma NothingAudited(s: Setting, stamps: nat -> Stamp)
    ensures Audited(s, [], stamps) == []
  {}

  lemma OneMoreAudited(s: Setting, calls: seq<Json>, tc: Json, stamps: nat -> Stamp)
    ensures Audited(s, calls + [tc], stamps)
         == Audited(s, calls, stamps) + AuditOf(CallVerdict(s, tc), s.hot, stamps(|calls|))
    ensures CallVerdict(s, tc).Err? ==> AuditOf(CallVerdict(s, tc), s.hot, stamps(|calls|)) == []
  {
    hide CallVerdict;
    assert (calls + [tc])[..|calls + [tc]| - 1] == calls;
  }

  /** Only the calls judged before the first error leave anything behind. */
  function ValueEffects(s: Setting, tcs: Json, executeTools: bool, stamps: nat -> Stamp): Effects {
    if !tcs.Arr? then NOTHING
    else
      var judged := tcs.items[..Judged(s, tcs.items)];
      Effects(Ran(s, judged, executeTools), Audited(s, judged, stamps))
  }

  function ChoiceEffects(s: Setting, choice: Json, executeTools: bool, stamps: nat -> Stamp): Effects {
    match ToolCallsOf(choice)
    case None => NOTHING
    case Some(tcs) => ValueEffects(s, tcs, executeTools, stamps)
  }

  function StampsAt(stamps: (nat, nat) -> Stamp, i: nat): nat -> Stamp {
    (n: nat) => stamps(i, n)
  }

  /** A choice whose filter errs is the last one to have effects. */
  function ChoicesEffects(s: Setting, choices: seq<Json>, executeTools: bool, stamps: (nat, nat) -> Stamp, at: nat): Effects
    decreases choices
  {
    if choices == [] then NOTHING
    else
      After(ChoiceEffects(s, choices[0], executeTools, StampsAt(stamps, at)),
            if FilteredChoice(s, choices[0]).Err? then NOTHING
            else ChoicesEffects(s, choices[1..], executeTools, stamps, at + 1))
  }

  function ReplyEffects(s: Setting, reply: Json, executeTools: bool, stamps: (nat, nat) -> Stamp): Effects {
    ChoicesEffects(s, ChoicesOf(reply), executeTools, stamps, 0)
  }

  function GateEffects(s: Setting, utterance: string, bound: Option<AuthzRequest>, gate: Stamp): Effects {
    if utterance == "" || bound.None? then NOTHING
    else Effects([], AuditOf(Verdict(s.library, s.hot, s.requireSigned, bound.value), s.hot, gate))
  }

  /** The check of the user text comes first; the reply's calls only follow on a forwarded turn that is not streamed. */
  function ChatEffects(s: Setting, utterance: string, bound: Option<AuthzRequest>, stream: bool, reply: Option<Json>,
                       executeTools: bool, gate: Stamp, stamps: (nat, nat) -> Stamp): Effects {
    var first := GateEffects(s, utterance, bound, gate);
    if GateOutcome(s, utterance, bound).None? && reply.Some? && !stream then After(first, ReplyEffects(s, reply.value, executeTools, stamps)) else first
  }

  lemma OneMoreEffect(sofar: Effects, s: Setting, choices: seq<Json>, executeTools: bool, stamps: (nat, nat) -> Stamp, i: nat)
    requires i < |choices|
    ensures var one := ChoiceEffects(s, choices[i], executeTools, StampsAt(stamps, i));
            After(sofar, ChoicesEffects(s, choices[i..], executeTools, stamps, i))
            == if FilteredChoice(s, choices[i]).Err? then After(sofar, one)
               else After(After(sofar, one), ChoicesEffects(s, choices[i + 1..], executeTools, stamps, i + 1))
  {
    hide ChoiceEffects, FilteredChoice, StampsAt;
    var one := ChoiceEffects(s, choices[i], executeTools, StampsAt(stamps, i));
    assert choices[i..][0] == choices[i] && choices[i..][1..] == choices[i + 1..];
    AfterAll(one);
    AfterAssociates(sofar, one, ChoicesEffects(s, choices[i + 1..], executeTools, stamps, i + 1));
  }

  lemma NoMoreEffects(sofar: Effects, s: Setting, executeTools: bool, stamps: (nat, nat) -> Stamp, at: nat)
    ensures After(sofar, ChoicesEffects(s, [], executeTools, stamps, at)) == sofar
  {
    AfterAll(sofar);
  }

  lemma NoChoices(s: Setting)
    ensures FilteredChoices(s, []) == Ok([])
  {}

  lemma OneMoreChoice(s: Setting, choices: seq<Json>, i: nat)
    requires i < |choices| && FilteredChoices(s, choices[..i]).Ok?
    ensures FilteredChoices(s, choices[..i + 1])
         == match FilteredChoice(s, choices[i])
            case Err(e) => Err(e)
            case Ok(choice) => Ok(FilteredChoices(s, choices[..i]).value + [choice])
  {
    hide FilteredChoice;
    assert choices[..i + 1][..i] == choices[..i];
  }

  /** What stops a turn before anything is forwarded. */
  function GateOutcome(s: Setting, utterance: string, bound: Option<AuthzRequest>): Option<ChatError> {
    if utterance == "" then None
    else if bound.None? then Some(BadBinding)
    else
      match Verdict(s.library, s.hot, s.requireSigned, bound.value)
      case Err(e) => Some(CheckFailed(e))
      case Ok(d) => if d.allow then None else Some(Denied(d))
  }

  /** A turn is forwarded exactly when its text is empty or the request bound from it is allowed. */
  lemma ForwardedIff(s: Setting, utterance: string, bound: Option<AuthzRequest>)
    ensures GateOutcome(s, utterance, bound).None? <==>
      || utterance == ""
      || (bound.Some? && var v := Verdict(s.library, s.hot, s.requireSigned, bound.value); v.Ok? && v.value.allow)
  {
    hide Verdict;
  }

  function ReplyWith(reply: Json, choices: seq<Json>): Json
    requires reply.Obj?
  {
    Obj(SetMember(reply.members, "choices", Arr(choices)))
  }

  lemma {:induction false} FailedChoice(s: Setting, choices: seq<Json>, n: nat)
    requires n <= |choices| && FilteredChoices(s, choices[..n]).Err?
    ensures FilteredChoices(s, choices) == FilteredChoices(s, choices[..n])
    decreases |choices| - n
  {
    hide FilteredChoice;
    if n == |choices| {
      assert choices[..n] == choices;
    } else {
      assert choices[..n + 1][..n] == choices[..n];
      FailedChoice(s, choices, n + 1);
    }
  }

  datatype ChatError =
    | CheckFailed(error: EngineError)
    | Denied(decision: Decision)
    | BadBinding
    | UpstreamFailed

  datatype ChatReply = Streamed | Replied(json: Json)

  /** How many audit entries record this outcome. */
  function Tally(entries: seq<AuditWrite>, outcome: string): nat {
    if entries == [] then 0
    else Tally(entries[..|entries| - 1], outcome) + if entries[|entries| - 1].decision == outcome then 1 else 0
  }

  /**
   * Every check that came to a decision is counted once, and by its outcome as the audit log has it;
   * a check that erred is counted as a check only.
   */
  predicate CountsAs(now: Metrics, before: Metrics, effects: Effects, errors: nat) {
    && now.checks == before.checks + |effects.audit| + errors
    && now.allows == before.allows + Tally(effects.audit, "ALLOW")
    && now.denies == before.denies + Tally(effects.audit, "DENY")
  }

  lemma {:induction false} TallyAppend(a: seq<AuditWrite>, b: seq<AuditWrite>, outcome: string)
    ensures Tally(a + b, outcome) == Tally(a, outcome) + Tally(b, outcome)
    decreases b
  {
    if b == [] {
      assert a + b == a;
    } else {
      assert (a + b)[..|a + b| - 1] == a + b[..|b| - 1];
      TallyAppend(a, b[..|b| - 1], outcome);
    }
  }

  lemma CountsAfter(now: Metrics, mid: Metrics, before: Metrics, a: Effects, b: Effects, errors: nat)
    requires CountsAs(mid, before, a, 0) && CountsAs(now, mid, b, errors)
    ensures CountsAs(now, before, After(a, b), errors)
  {
    TallyAppend(a.audit, b.audit, "ALLOW");
    TallyAppend(a.audit, b.audit, "DENY");
  }

  /** One verdict has at most one entry, of its own outcome. */
  lemma VerdictTally(verdict: Result<Decision, EngineError>, hot: HotBundle, stamp: Stamp)
    ensures var entries := AuditOf(verdict, hot, stamp);
            && |entries| == (if verdict.Ok? then 1 else 0)
            && Tally(entries, "ALLOW") == (if verdict.Ok? && verdict.value.allow then 1 else 0)
            && Tally(entries, "DENY") == (if verdict.Ok? && !verdict.value.allow then 1 else 0)
  {
    var entries := AuditOf(verdict, hot, stamp);
    if verdict.Ok? {
      assert entries[..0] == [];
      assert "ALLOW" != "DENY";
    }
  }

  lemma {:induction false} JudgedTally(s: Setting, calls: seq<Json>, stamps: nat -> Stamp)
    requires forall i | 0 <= i < |calls| :: CallVerdict(s, calls[i]).Ok?
    ensures var entries, allows := Audited(s, calls, stamps), |KeepAllowed(s, calls)|;
            |entries| == |calls| && Tally(entries, "ALLOW") == allows && Tally(entries, "DENY") == |calls| - allows
    decreases calls
  {
    hide CallVerdict, AuditOf, Tally;
    if calls == [] {
      NoTally();
    } else {
      var n := |calls| - 1;
      var one := AuditOf(CallVerdict(s, calls[n]), s.hot, stamps(n));
      JudgedTally(s, calls[..n], stamps);
      VerdictTally(CallVerdict(s, calls[n]), s.hot, stamps(n));
      TallyAppend(Audited(s, calls[..n], stamps), one, "ALLOW");
      TallyAppend(Audited(s, calls[..n], stamps), one, "DENY");
    }
  }

  lemma NothingCounts(m: Metrics)
    ensures CountsAs(m, m, NOTHING, 0)
  {
    NoTally();
  }

  lemma NoTally()
    ensures Tally([], "ALLOW") == 0 && Tally([], "DENY") == 0
  {}

  lemma CountedCounts(m: Metrics, s: Setting, tcs: Json, executeTools: bool, stamps: nat -> Stamp, error: bool)
    requires tcs.Arr?
    ensures CountsAs(Counted(m, s, tcs.items[..Judged(s, tcs.items)], error), m, ValueEffects(s, tcs, executeTools, stamps),
                     if error then 1 else 0)
  {
    hide CallVerdict, Audited, KeepAllowed, Tally, Ran;
    JudgedBefore(s, tcs.items);
    JudgedTally(s, tcs.items[..Judged(s, tcs.items)], stamps);
  }

  /** What the connector runs for calls that were all judged. */
  function Ran(s: Setting, calls: seq<Json>, executeTools: bool): seq<ToolCall> {
    if executeTools then CallsOf(s, KeepAllowed(s, calls)) else []
  }

  /** The counters after judging these calls, and after one more check when that ended in an error. */
  function Counted(m: Metrics, s: Setting, calls: seq<Json>, error: bool): Metrics {
    var allows := |KeepAllowed(s, calls)|;
    Metrics(m.checks + |calls| + (if error then 1 else 0), m.denies + |calls| - allows, m.allows + allows, m.upstream)
  }

  lemma NothingCounted(m: Metrics, s: Setting, executeTools: bool)
    ensures Counted(m, s, [], false) == m && Ran(s, [], executeTools) == [] && KeepAllowed(s, []) == []
  {}

  lemma OneMoreCounted(m: Metrics, s: Setting, calls: seq<Json>, tc: Json, executeTools: bool)
    ensures KeepAllowed(s, calls + [tc]) == KeepAllowed(s, calls) + (if Allowed(s, tc) then [tc] else [])
    ensures Ran(s, calls + [tc], executeTools)
         == Ran(s, calls, executeTools) + (if Allowed(s, tc) && executeTools then [CallOf(s, tc)] else [])
    ensures var before := Counted(m, s, calls, false);
            && Counted(m, s, calls, true) == before.(checks := before.checks + 1)
            && Counted(m, s, calls + [tc], false)
               == Metrics(before.checks + 1, before.denies + (if Allowed(s, tc) then 0 else 1),
                          before.allows + (if Allowed(s, tc) then 1 else 0), before.upstream)
  {
    hide Allowed, CallOf;
    assert (calls + [tc])[..|calls + [tc]| - 1] == calls;
    assert CallsOf(s, KeepAllowed(s, calls) + [tc]) == CallsOf(s, KeepAllowed(s, calls)) + [CallOf(s, tc)];
  }

  lemma FirstErrorEnds(s: Setting, calls: seq<Json>, i: nat)
    requires i <= |calls| && forall j | 0 <= j < i :: CallVerdict(s, calls[j]).Ok?
    requires i < |calls| ==> CallVerdict(s, calls[i]).Err?
    ensures Judged(s, calls) == i
    ensures i < |calls| ==> Filtered(s, calls) == Err(CallVerdict(s, calls[i]).error)
  {
    hide CallVerdict;
    JudgedBefore(s, calls);
    FilteredKeepsAllowed(s, calls);
  }
}
