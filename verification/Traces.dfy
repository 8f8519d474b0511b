/** Everything a handler does from its arrival to its end, in order, in every interleaving: routes.rs. */
module Traces {
  import opened Text
  import opened Json
  import opened Requests
  import opened Catalog
  import opened CatalogAgreement
  import opened Engine
  import opened ToolFilter
  import opened Interleaving

  /** What an event is about: a request that was checked with its outcome, the text that was sent, a tool that was run. */
  datatype Act = Asked(req: AuthzRequest, allow: bool) | Sent | Ran(tc: Json)

  function ActOf(e: Event): Act {
    match e
    case Checked(req, _, _, d) => Asked(req, d.allow)
    case Forwarded => Sent
    case Executed(tc) => Ran(tc)
  }

  function Acts(log: seq<Event>): (r: seq<Act>)
    ensures |r| == |log| && forall i | 0 <= i < |log| :: r[i] == ActOf(log[i])
  {
    seq(|log|, i requires 0 <= i < |log| => ActOf(log[i]))
  }

  /** A chat with a text starts by having the text allowed. */
  function Opening(kind: Kind): seq<Act> {
    if kind.Chat? && kind.utterance != "" && kind.bound.Some? then [Asked(kind.bound.value, true)] else []
  }

  /** Each call is asked about, and run when it is allowed and tools are run. */
  function Judging(env: Env, principal: Principal, judged: seq<Judgement>): seq<Act> {
    if judged == [] then []
    else
      var j := judged[|judged| - 1];
      Judging(env, principal, judged[..|judged| - 1])
      + ([Asked(CallRequest(env, principal, j.tc), j.decision.allow)]
         + if j.decision.allow && env.executeTools then [Ran(j.tc)] else [])
  }

  function Turn(env: Env, kind: Kind, judged: seq<Judgement>): seq<Act> {
    Opening(kind) + [Sent] + if kind.Chat? then Judging(env, kind.principal, judged) else []
  }

  predicate Openable(kind: Kind) {
    kind.Chat? && (kind.utterance == "" || kind.bound.Some?)
  }

  /** What a handler has done by the time it is in its phase. */
  predicate TraceOk(env: Env, h: Handler) {
    var done := Acts(h.log);
    match h.phase
    case Begin => done == []
    case Checking(stage, _) => BeforeCheck(env, h, stage, done)
    case Loaded(stage, _, _) => BeforeCheck(env, h, stage, done)
    case Decided(stage, d) =>
      done != [] && done[|done| - 1] == Asked(d.request, d.allow) && BeforeCheck(env, h, stage, done[..|done| - 1])
    case CheckError => done == [] || (Openable(h.kind) && done == Turn(env, h.kind, h.judged))
    case Cleared => Openable(h.kind) && done == Opening(h.kind)
    case Awaiting => Openable(h.kind) && done == Opening(h.kind) + [Sent] && h.judged == []
    case Filtering => Openable(h.kind) && !h.kind.stream && done == Turn(env, h.kind, h.judged)
    case Running(tc) => Openable(h.kind) && !h.kind.stream && done + [Ran(tc)] == Turn(env, h.kind, h.judged)
    case Answered =>
      (match h.kind
       case CheckRoute(req) => done == [Asked(req, true)] || done == [Asked(req, false)]
       case Retrieve(req) => done == [Asked(req, true)]
       case Chat(_, _, _, stream) =>
         && Openable(h.kind) && done == Turn(env, h.kind, h.judged)
         && if stream then h.judged == [] else |h.judged| == |h.reply|)
    case Stopped =>
      (match h.kind
       case CheckRoute(_) => false
       case Retrieve(req) => done == [Asked(req, false)]
       case Chat(_, utterance, bound, _) =>
         || (utterance != "" && bound.None? && done == [])
         || (utterance != "" && bound.Some? && done == [Asked(bound.value, false)])
         || (Openable(h.kind) && done == Opening(h.kind) + [Sent]))
  }

  predicate BeforeCheck(env: Env, h: Handler, stage: Stage, done: seq<Act>) {
    if stage.Tool? then Openable(h.kind) && !h.kind.stream && done == Turn(env, h.kind, h.judged)
    else done == [] && (stage.Gate? ==> h.kind.Chat? && h.kind.utterance != "")
  }

  lemma ActsSnoc(log: seq<Event>, e: Event)
    ensures Acts(log + [e]) == Acts(log) + [ActOf(e)]
  {}

  lemma TurnSnoc(env: Env, kind: Kind, judged: seq<Judgement>, j: Judgement)
    requires kind.Chat?
    ensures var asked := Turn(env, kind, judged) + [Asked(CallRequest(env, kind.principal, j.tc), j.decision.allow)];
            Turn(env, kind, judged + [j]) == if j.decision.allow && env.executeTools then asked + [Ran(j.tc)] else asked
  {
    hide CallRequest;
    assert (judged + [j])[..|judged|] == judged;
  }

  lemma TurnStarts(env: Env, kind: Kind)
    ensures Turn(env, kind, []) == Opening(kind) + [Sent]
  {}

  lemma AskedLast(done: seq<Act>, a: Act)
    ensures (done + [a])[..|done + [a]| - 1] == done
  {}

  lemma SameLogTrace(env: Env, hot: HotBundle, history: seq<HotBundle>, h: Handler, input: Input)
    requires HandlerOk(env, history, h) && TraceOk(env, h) && Move(env, hot, h, input).Some?
    requires !h.phase.Loaded? && !h.phase.Decided? && !h.phase.Cleared? && !h.phase.Running?
    ensures TraceOk(env, Move(env, hot, h, input).value.handler)
  {
    hide Verdict, CallRequest, EventOk, Acts, Judging, ExecutionsOk, TextCleared, CheckedIn, WriteOf;
    var after := Move(env, hot, h, input).value.handler;
    NoActs();
    if h.kind.Chat? { TurnStarts(env, h.kind); }
  }

  lemma NoActs()
    ensures Acts([]) == []
  {}

  lemma VerdictTrace(env: Env, hot: HotBundle, history: seq<HotBundle>, h: Handler, input: Input)
    requires HandlerOk(env, history, h) && TraceOk(env, h) && h.phase.Loaded?
    ensures TraceOk(env, Move(env, hot, h, input).value.handler)
  {
    hide Verdict, CallRequest, EventOk, Acts, Judging, JudgedOk, ExecutionsOk, TextCleared, CheckedIn, WriteOf, Turn, Opening;
    var v := Verdict(env.library, h.phase.hot, env.requireSigned, h.phase.req);
    if v.Ok? {
      VerdictRequest(env.library, h.phase.hot, env.requireSigned, h.phase.req);
      ActsSnoc(h.log, Checked(h.phase.req, h.phase.hot, input.stamp, v.value));
      AskedLast(Acts(h.log), Asked(h.phase.req, v.value.allow));
    }
  }

  lemma DecidedTrace(env: Env, hot: HotBundle, history: seq<HotBundle>, h: Handler, input: Input)
    requires HandlerOk(env, history, h) && TraceOk(env, h) && h.phase.Decided?
    ensures TraceOk(env, Move(env, hot, h, input).value.handler)
  {
    hide Verdict, CallRequest, EventOk, Acts, Judging, JudgedOk, ExecutionsOk, TextCleared, CheckedIn, WriteOf, Turn;
    var stage, d, done := h.phase.stage, h.phase.decision, Acts(h.log);
    assert done == done[..|done| - 1] + [Asked(d.request, d.allow)];
    assert done[..|done| - 1] == [] ==> done == [Asked(d.request, d.allow)];
    if stage.Tool? { TurnSnoc(env, h.kind, h.judged, Judgement(stage.tc, d)); }
  }

  lemma ForwardTrace(env: Env, hot: HotBundle, history: seq<HotBundle>, h: Handler, input: Input)
    requires HandlerOk(env, history, h) && TraceOk(env, h) && h.phase.Cleared?
    ensures TraceOk(env, Move(env, hot, h, input).value.handler)
  {
    hide Verdict, CallRequest, EventOk, Acts, Judging, JudgedOk, ExecutionsOk, TextCleared, CheckedIn, WriteOf, Opening;
    ActsSnoc(h.log, Forwarded);
  }

  lemma RunTrace(env: Env, hot: HotBundle, history: seq<HotBundle>, h: Handler, input: Input)
    requires HandlerOk(env, history, h) && TraceOk(env, h) && h.phase.Running?
    ensures TraceOk(env, Move(env, hot, h, input).value.handler)
  {
    hide Verdict, CallRequest, EventOk, Acts, Judging, JudgedOk, ExecutionsOk, TextCleared, CheckedIn, WriteOf, Opening, Turn;
    ActsSnoc(h.log, Executed(h.phase.tc));
  }

  lemma MoveKeepsTrace(env: Env, hot: HotBundle, history: seq<HotBundle>, h: Handler, input: Input)
    requires HandlerOk(env, history, h) && TraceOk(env, h) && Move(env, hot, h, input).Some?
    ensures TraceOk(env, Move(env, hot, h, input).value.handler)
  {
    hide Verdict, HandlerOk, TraceOk, CallRequest, WriteOf;
    match h.phase
    case Loaded(_, _, _) => VerdictTrace(env, hot, history, h, input);
    case Decided(_, _) => DecidedTrace(env, hot, history, h, input);
    case Cleared => ForwardTrace(env, hot, history, h, input);
    case Running(_) => RunTrace(env, hot, history, h, input);
    case _ => SameLogTrace(env, hot, history, h, input);
  }

  ghost predicate TracesOk(env: Env, s: State) {
    Invariant(env, s) && forall h | h in s.handlers :: TraceOk(env, h)
  }

  lemma NextKeepsTraces(env: Env, s: State, a: Action)
    requires TracesOk(env, s) && Enabled(env, s, a)
    ensures TracesOk(env, Next(env, s, a))
  {
    hide HandlerOk, Move, TraceOk;
    NextKeepsInvariant(env, s, a);
    match a
    case Arrive(kind) => assert TraceOk(env, Handler(kind, Begin, [], [], [])) by { NewTrace(env, kind); }
    case Swap(_) =>
    case Step(i, input) => MoveKeepsTrace(env, s.hot, s.history, s.handlers[i], input);
  }

  lemma NewTrace(env: Env, kind: Kind)
    ensures TraceOk(env, Handler(kind, Begin, [], [], []))
  {}

  lemma {:induction false} RunKeepsTraces(env: Env, s: State, actions: seq<Action>)
    requires TracesOk(env, s) && Possible(env, s, actions)
    ensures TracesOk(env, Run(env, s, actions))
    decreases actions
  {
    hide TracesOk, Enabled, Next;
    if actions != [] {
      NextKeepsTraces(env, s, actions[0]);
      RunKeepsTraces(env, Next(env, s, actions[0]), actions[1..]);
    }
  }

  /**
   * In every interleaving each handler's events are exactly those of its route. A check asks once; a
   * retrieval is answered only when allowed; a chat has its text allowed unless it is empty, sends it
   * once, and then, unless the reply is streamed, asks about the calls of the reply in order and runs
   * each allowed one before it asks about the next. A handler that stopped was refused, had no request
   * to ask about, or got no reply.
   */
  lemma {:induction false} EveryTraceIsExact(env: Env, hot: HotBundle, actions: seq<Action>, i: nat)
    requires Possible(env, Initial(hot), actions) && i < |Run(env, Initial(hot), actions).handlers|
    ensures TraceOk(env, Run(env, Initial(hot), actions).handlers[i])
    ensures var h := Run(env, Initial(hot), actions).handlers[i];
            var done := Acts(h.log);
            && (h.phase.Answered? && h.kind.CheckRoute? ==> exists allow :: done == [Asked(h.kind.req, allow)])
            && (h.phase.Answered? && h.kind.Retrieve? ==> done == [Asked(h.kind.req, true)])
            && (h.phase.Stopped? && h.kind.Retrieve? ==> done == [Asked(h.kind.req, false)])
            && (h.phase.Answered? && h.kind.Chat? ==> done == Turn(env, h.kind, h.judged) && (h.kind.stream ==> h.judged == []))
            && (h.phase.Stopped? && h.kind.Chat? ==>
                  || done == [] || (h.kind.bound.Some? && done == [Asked(h.kind.bound.value, false)])
                  || done == Opening(h.kind) + [Sent])
  {
    hide Possible, Run, HandlerOk, Turn, Acts;
    RunKeepsTraces(env, Initial(hot), actions);
  }

  /** No handler is stuck before its end, and the ends other than an answer have these causes only. */
  lemma EndsOnlySo(env: Env, hot: HotBundle, h: Handler, input: Input)
    requires StageFits(h)
    ensures Move(env, hot, h, input).None? <==> h.phase.CheckError? || h.phase.Answered? || h.phase.Stopped?
    ensures Move(env, hot, h, input).Some? ==>
      var after := Move(env, hot, h, input).value.handler;
      && (after.phase.CheckError? <==> h.phase.Loaded? && Verdict(env.library, h.phase.hot, env.requireSigned, h.phase.req).Err?)
      && (after.phase.Stopped? <==>
            || (h.phase.Begin? && h.kind.Chat? && h.kind.utterance != "" && h.kind.bound.None?)
            || (h.phase.Decided? && (h.phase.stage.Gate? || h.phase.stage.Fetch?) && !h.phase.decision.allow)
            || (h.phase.Awaiting? && input.reply.None?))
  {
    hide Verdict, CallRequest, WriteOf;
  }

  /** A handler asks about a call by the strings at the call's name and arguments. */
  lemma CallRequestIs(env: Env, principal: Principal, tc: Json)
    ensures var text := StringOr(Lookup(tc, ["function", "arguments"]), "{}");
            CallRequest(env, principal, tc)
            == ToolRequest(env.catalog, principal, StringOr(Lookup(tc, ["function", "name"]), ""),
                           if env.read(text).Some? then env.read(text).value else Obj([]))
  {
    hide ToolRequest, Lookup;
    MembersRead(tc);
  }
}
