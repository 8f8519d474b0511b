/**
 * Concurrent chat, check and tool-filter handlers over shared counters, a shared bundle and the
 * audit queue: routes.rs, engine.rs, hot_cache.rs. Each step is one atomic access to shared state.
 */
module Interleaving {
  import opened Text
  import opened Json
  import Dsl
  import opened Requests
  import opened Translate
  import opened Evaluator
  import opened Catalog
  import opened CatalogAgreement
  import opened Engine
  import Entities
  import opened ToolFilter
  import AuditLog

  datatype Env = Env(
    catalog: ResourceCatalog, library: Entities.Library, hasStore: bool, requireSigned: bool, executeTools: bool,
    read: string -> Option<Json>)

  /**
   * A check or a retrieval with its request, or a chat with the request bound from its text, absent
   * when binding fails. Retrievals are checked and audited, and not counted.
   */
  datatype Kind =
    | CheckRoute(req: AuthzRequest)
    | Retrieve(req: AuthzRequest)
    | Chat(principal: Principal, utterance: string, bound: Option<AuthzRequest>, stream: bool)

  /** Which check of a handler is under way. */
  datatype Stage = Whole | Fetch | Gate | Tool(tc: Json)

  /** `CheckError` is a check that ended in an error, or in the panic of an attribute. */
  datatype Phase =
    | Begin
    | Checking(stage: Stage, req: AuthzRequest)
    | Loaded(stage: Stage, req: AuthzRequest, hot: HotBundle)
    | Decided(stage: Stage, decision: Decision)
    | CheckError
    | Cleared
    | Awaiting
    | Filtering
    | Running(tc: Json)
    | Answered
    | Stopped

  /** The history of one handler. */
  datatype Event =
    | Checked(req: AuthzRequest, hot: HotBundle, stamp: Stamp, decision: Decision)
    | Forwarded
    | Executed(tc: Json)

  datatype Judgement = Judgement(tc: Json, decision: Decision)

  datatype Handler = Handler(kind: Kind, phase: Phase, reply: seq<Json>, judged: seq<Judgement>, log: seq<Event>)

  /** What the environment supplies: ids and times for a check, and the upstream's tool calls, absent when the call fails. */
  datatype Input = Input(stamp: Stamp, reply: Option<seq<Json>>)

  /** What a step does to its handler, the counters and the audit queue. */
  datatype Effect = Effect(handler: Handler, checks: nat, denies: nat, allows: nat, upstream: nat, audit: seq<AuditLog.AuditWrite>)

  function CallRequest(env: Env, principal: Principal, tc: Json): AuthzRequest {
    var args := env.read(ArgumentsText(tc));
    ToolRequest(env.catalog, principal, NameOf(tc), if args.Some? then args.value else Obj([]))
  }

  function Quiet(h: Handler): Effect {
    Effect(h, 0, 0, 0, 0, [])
  }

  /** The next step of a handler, if it has one. */
  function Move(env: Env, hot: HotBundle, h: Handler, input: Input): Option<Effect> {
    match h.phase
    case Begin =>
      (match h.kind
       case CheckRoute(req) => Some(Effect(h.(phase := Checking(Whole, req)), 1, 0, 0, 0, []))
       case Retrieve(req) => Some(Quiet(h.(phase := Checking(Fetch, req))))
       case Chat(_, utterance, bound, _) =>
         if utterance == "" then Some(Quiet(h.(phase := Cleared)))
         else if bound.None? then Some(Quiet(h.(phase := Stopped)))
         else Some(Effect(h.(phase := Checking(Gate, bound.value)), 1, 0, 0, 0, [])))
    case Checking(stage, req) => Some(Quiet(h.(phase := Loaded(stage, req, hot))))
    case Loaded(stage, req, loaded) =>
      (match Verdict(env.library, loaded, env.requireSigned, req)
       case Err(_) => Some(Quiet(h.(phase := CheckError)))
       case Ok(d) =>
         Some(Effect(h.(phase := Decided(stage, d), log := h.log + [Checked(req, loaded, input.stamp, d)]),
                     0, 0, 0, 0, if env.hasStore then [WriteOf(d, input.stamp, loaded.signatureKeyId)] else [])))
    case Decided(stage, d) =>
      var denied, allowed := if d.allow then 0 else 1, if d.allow then 1 else 0;
      (match stage
       case Whole => Some(Effect(h.(phase := Answered), 0, denied, allowed, 0, []))
       case Fetch => Some(Quiet(h.(phase := if d.allow then Answered else Stopped)))
       case Gate => Some(Effect(h.(phase := if d.allow then Cleared else Stopped), 0, denied, allowed, 0, []))
       case Tool(tc) =>
         Some(Effect(h.(phase := if d.allow && env.executeTools then Running(tc) else Filtering,
                        judged := h.judged + [Judgement(tc, d)]),
                     0, denied, allowed, 0, [])))
    case Cleared => Some(Effect(h.(phase := Awaiting, log := h.log + [Forwarded]), 0, 0, 0, 1, []))
    case Awaiting =>
      if input.reply.None? || !h.kind.Chat? then Some(Quiet(h.(phase := Stopped)))
      else if h.kind.stream then Some(Quiet(h.(phase := Answered)))
      else Some(Quiet(h.(phase := Filtering, reply := input.reply.value)))
    case Filtering =>
      if |h.judged| >= |h.reply| || !h.kind.Chat? then Some(Quiet(h.(phase := Answered)))
      else
        var tc := h.reply[|h.judged|];
        Some(Effect(h.(phase := Checking(Tool(tc), CallRequest(env, h.kind.principal, tc))), 1, 0, 0, 0, []))
    case Running(tc) => Some(Quiet(h.(phase := Filtering, log := h.log + [Executed(tc)])))
    case CheckError => None
    case Answered => None
    case Stopped => None
  }

  datatype State = State(
    hot: HotBundle, history: seq<HotBundle>, handlers: seq<Handler>, metrics: Metrics, audit: seq<AuditLog.AuditWrite>)

  function Initial(hot: HotBundle): State {
    State(hot, [hot], [], Metrics(0, 0, 0, 0), [])
  }

  datatype Action = Arrive(kind: Kind) | Swap(bundle: HotBundle) | Step(i: nat, input: Input)

  predicate Enabled(env: Env, s: State, a: Action) {
    a.Step? ==> a.i < |s.handlers| && Move(env, s.hot, s.handlers[a.i], a.input).Some?
  }

  function Next(env: Env, s: State, a: Action): State
    requires Enabled(env, s, a)
  {
    match a
    case Arrive(kind) => s.(handlers := s.handlers + [Handler(kind, Begin, [], [], [])])
    case Swap(bundle) => s.(hot := bundle, history := s.history + [bundle])
    case Step(i, input) =>
      var e := Move(env, s.hot, s.handlers[i], input).value;
      s.(handlers := s.handlers[i := e.handler],
         metrics := Metrics(s.metrics.checks + e.checks, s.metrics.denies + e.denies,
                            s.metrics.allows + e.allows, s.metrics.upstream + e.upstream),
         audit := s.audit + e.audit)
  }

  ghost predicate Possible(env: Env, s: State, actions: seq<Action>)
    decreases actions
  {
    actions != [] ==> Enabled(env, s, actions[0]) && Possible(env, Next(env, s, actions[0]), actions[1..])
  }

  ghost function Run(env: Env, s: State, actions: seq<Action>): State
    requires Possible(env, s, actions)
    decreases actions
  {
    if actions == [] then s else Run(env, Next(env, s, actions[0]), actions[1..])
  }

  // ----- counting -----

  function Sum(hs: seq<Handler>, f: Handler -> nat): nat {
    if hs == [] then 0 else f(hs[0]) + Sum(hs[1..], f)
  }

  lemma {:induction false} SumUpdate(hs: seq<Handler>, i: nat, h: Handler, f: Handler -> nat)
    requires i < |hs|
    ensures Sum(hs[i := h], f) + f(hs[i]) == Sum(hs, f) + f(h)
    decreases hs
  {
    if i == 0 {
      assert hs[0 := h][1..] == hs[1..];
    } else {
      assert hs[i := h][1..] == hs[1..][i - 1 := h];
      SumUpdate(hs[1..], i - 1, h, f);
    }
  }

  lemma {:induction false} SumAppend(hs: seq<Handler>, h: Handler, f: Handler -> nat)
    ensures Sum(hs + [h], f) == Sum(hs, f) + f(h)
    decreases hs
  {
    if hs == [] {
      assert hs + [h] == [h];
      assert Sum([h], f) == f(h) + Sum([], f);
    } else {
      assert (hs + [h])[1..] == hs[1..] + [h];
      SumAppend(hs[1..], h, f);
    }
  }

  predicate Metered(h: Handler) {
    !h.kind.Retrieve?
  }

  /** A check counted but not yet answered. */
  const InFlight: Handler -> nat := (h: Handler) =>
    if Metered(h) && (h.phase.Checking? || h.phase.Loaded? || h.phase.Decided?) then 1 else 0

  const Errored: Handler -> nat := (h: Handler) => if Metered(h) && h.phase.CheckError? then 1 else 0

  /** A decision whose counter is still to be raised. */
  predicate Pending(h: Handler, allow: bool) {
    Metered(h) && h.phase.Decided? && h.phase.decision.allow == allow
  }

  function Decisions(log: seq<Event>, allow: bool): nat {
    if log == [] then 0
    else
      var e := log[|log| - 1];
      Decisions(log[..|log| - 1], allow) + if e.Checked? && e.decision.allow == allow then 1 else 0
  }

  /** The decisions of a counted handler that have been counted. */
  const Allowances: Handler -> nat := (h: Handler) => SettledOf(h, true)

  const Denials: Handler -> nat := (h: Handler) => SettledOf(h, false)

  function SettledOf(h: Handler, allow: bool): nat {
    var n := if Metered(h) then Decisions(h.log, allow) else 0;
    if Pending(h, allow) && n > 0 then n - 1 else n
  }

  const Forwards: Handler -> nat := (h: Handler) => CountForwards(h.log)

  function CountForwards(log: seq<Event>): nat {
    if log == [] then 0 else CountForwards(log[..|log| - 1]) + if log[|log| - 1].Forwarded? then 1 else 0
  }

  /** The audit entry of a check. */
  function EntryOf(e: Event): AuditLog.AuditWrite
    requires e.Checked?
  {
    WriteOf(e.decision, e.stamp, e.hot.signatureKeyId)
  }

  /** The audit entries of the checks in a log. */
  function LogWrites(log: seq<Event>): multiset<AuditLog.AuditWrite> {
    if log == [] then multiset{}
    else
      var e := log[|log| - 1];
      LogWrites(log[..|log| - 1])
      + if e.Checked? then multiset{EntryOf(e)} else multiset{}
  }

  function AllWrites(hs: seq<Handler>): multiset<AuditLog.AuditWrite> {
    if hs == [] then multiset{} else LogWrites(hs[0].log) + AllWrites(hs[1..])
  }

  lemma {:induction false} WritesUpdate(hs: seq<Handler>, i: nat, h: Handler)
    requires i < |hs|
    ensures AllWrites(hs[i := h]) + LogWrites(hs[i].log) == AllWrites(hs) + LogWrites(h.log)
    decreases hs
  {
    hide LogWrites;
    var more := hs[i := h];
    if i == 0 {
      assert more[1..] == hs[1..];
      var rest, a, b := AllWrites(hs[1..]), LogWrites(hs[0].log), LogWrites(h.log);
      assert b + rest + a == a + rest + b;
    } else {
      assert more[1..] == hs[1..][i - 1 := h];
      WritesUpdate(hs[1..], i - 1, h);
      var first, was, now := LogWrites(hs[0].log), AllWrites(hs[1..]), AllWrites(more[1..]);
      assert first + now + LogWrites(hs[i].log) == first + (now + LogWrites(hs[i].log));
      assert first + was + LogWrites(h.log) == first + (was + LogWrites(h.log));
    }
  }

  lemma {:induction false} WritesAppend(hs: seq<Handler>, h: Handler)
    ensures AllWrites(hs + [h]) == AllWrites(hs) + LogWrites(h.log)
    decreases hs
  {
    hide LogWrites;
    if hs == [] {
      assert hs + [h] == [h];
      assert [h][1..] == [];
      assert AllWrites([h]) == LogWrites(h.log) + AllWrites([h][1..]);
    } else {
      assert (hs + [h])[1..] == hs[1..] + [h];
      WritesAppend(hs[1..], h);
    }
  }

  /**
   * Every counted check ends in an allowance, a denial or an error, or is in flight, and each counter
   * counts its own kind; the audit entries are those of the checks made; every upstream call is counted.
   */
  ghost predicate Balanced(env: Env, s: State) {
    && s.metrics.checks == s.metrics.allows + s.metrics.denies + Sum(s.handlers, InFlight) + Sum(s.handlers, Errored)
    && s.metrics.allows == Sum(s.handlers, Allowances)
    && s.metrics.denies == Sum(s.handlers, Denials)
    && s.metrics.upstream == Sum(s.handlers, Forwards)
    && multiset(s.audit) == if env.hasStore then AllWrites(s.handlers) else multiset{}
  }

  /** A handler about to count a decision has that decision last in its log. */
  predicate DecidedLast(h: Handler) {
    h.phase.Decided? ==>
      |h.log| > 0 && h.log[|h.log| - 1].Checked? && h.log[|h.log| - 1].decision == h.phase.decision
  }

  predicate StageFor(kind: Kind, stage: Stage) {
    match stage
    case Whole => kind.CheckRoute?
    case Fetch => kind.Retrieve?
    case Gate => kind.Chat?
    case Tool(_) => kind.Chat?
  }

  /** The check under way is of the handler's own sort. */
  predicate StageFits(h: Handler) {
    match h.phase
    case Checking(stage, _) => StageFor(h.kind, stage)
    case Loaded(stage, _, _) => StageFor(h.kind, stage)
    case Decided(stage, _) => StageFor(h.kind, stage)
    case Cleared => h.kind.Chat?
    case Awaiting => h.kind.Chat?
    case Filtering => h.kind.Chat?
    case Running(_) => h.kind.Chat?
    case _ => true
  }

  predicate Countable(h: Handler) {
    DecidedLast(h) && StageFits(h)
  }

  lemma LogOneMore(log: seq<Event>, e: Event)
    ensures CountForwards(log + [e]) == CountForwards(log) + if e.Forwarded? then 1 else 0
    ensures forall allow :: Decisions(log + [e], allow)
                         == Decisions(log, allow) + if e.Checked? && e.decision.allow == allow then 1 else 0
    ensures LogWrites(log + [e])
         == LogWrites(log) + if e.Checked? then multiset{EntryOf(e)} else multiset{}
  {
    hide WriteOf;
    assert (log + [e])[..|log + [e]| - 1] == log;
  }

  lemma LastDecision(log: seq<Event>)
    requires log != [] && log[|log| - 1].Checked?
    ensures Decisions(log, log[|log| - 1].decision.allow) > 0
  {}

  /** The event a step records. */
  function Recorded(env: Env, h: Handler, input: Input): Option<Event> {
    match h.phase
    case Loaded(_, req, loaded) =>
      (match Verdict(env.library, loaded, env.requireSigned, req)
       case Err(_) => None
       case Ok(d) => Some(Checked(req, loaded, input.stamp, d)))
    case Cleared => Some(Forwarded)
    case Running(tc) => Some(Executed(tc))
    case _ => None
  }

  lemma MoveRecords(env: Env, hot: HotBundle, h: Handler, input: Input)
    requires Move(env, hot, h, input).Some?
    ensures var r, e := Recorded(env, h, input), Move(env, hot, h, input).value;
            && e.handler.kind == h.kind
            && e.handler.log == (if r.None? then h.log else h.log + [r.value])
            && e.audit == (if r.Some? && r.value.Checked? && env.hasStore then [EntryOf(r.value)] else [])
            && e.upstream == (if r == Some(Forwarded) then 1 else 0)
  {
    hide Verdict, CallRequest, WriteOf;
  }

  lemma {:induction false} MoveBalances(env: Env, hot: HotBundle, h: Handler, input: Input)
    requires Countable(h) && Move(env, hot, h, input).Some?
    ensures var e := Move(env, hot, h, input).value;
            && Countable(e.handler)
            && e.checks + InFlight(h) + Errored(h) == e.allows + e.denies + InFlight(e.handler) + Errored(e.handler)
            && e.allows + Allowances(h) == Allowances(e.handler)
            && e.denies + Denials(h) == Denials(e.handler)
            && e.upstream + Forwards(h) == Forwards(e.handler)
  {
    hide Verdict, CallRequest, WriteOf, Decisions, CountForwards, LogWrites;
    MoveRecords(env, hot, h, input);
    if Recorded(env, h, input).Some? { LogOneMore(h.log, Recorded(env, h, input).value); }
    if h.phase.Decided? { LastDecision(h.log); }
  }

  /** A step queues exactly the entry of the check it records. */
  lemma MoveAudits(env: Env, hot: HotBundle, h: Handler, input: Input)
    requires Move(env, hot, h, input).Some?
    ensures var e := Move(env, hot, h, input).value;
            if env.hasStore then multiset(e.audit) + LogWrites(h.log) == LogWrites(e.handler.log) else e.audit == []
  {
    hide Move, Recorded, WriteOf, LogWrites;
    MoveRecords(env, hot, h, input);
    if Recorded(env, h, input).Some? { LogOneMore(h.log, Recorded(env, h, input).value); }
  }

  ghost predicate Accounted(env: Env, s: State) {
    Balanced(env, s) && forall h | h in s.handlers :: Countable(h)
  }

  lemma NextBalances(env: Env, s: State, a: Action)
    requires Accounted(env, s) && Enabled(env, s, a)
    ensures Accounted(env, Next(env, s, a))
  {
    hide Move, Sum, InFlight, Errored, Allowances, Denials, Forwards, LogWrites, AllWrites, Countable;
    match a
    case Arrive(kind) =>
      var h := Handler(kind, Begin, [], [], []);
      NewcomerIsSilent(kind);
      SumAppend(s.handlers, h, InFlight);
      SumAppend(s.handlers, h, Errored);
      SumAppend(s.handlers, h, Allowances);
      SumAppend(s.handlers, h, Denials);
      SumAppend(s.handlers, h, Forwards);
      WritesAppend(s.handlers, h);
    case Swap(_) =>
    case Step(i, input) =>
      var h := s.handlers[i];
      var e := Move(env, s.hot, h, input).value;
      MoveBalances(env, s.hot, h, input);
      MoveAudits(env, s.hot, h, input);
      SumUpdate(s.handlers, i, e.handler, InFlight);
      SumUpdate(s.handlers, i, e.handler, Errored);
      SumUpdate(s.handlers, i, e.handler, Allowances);
      SumUpdate(s.handlers, i, e.handler, Denials);
      SumUpdate(s.handlers, i, e.handler, Forwards);
      WritesUpdate(s.handlers, i, e.handler);
      assert multiset(s.audit + e.audit) == multiset(s.audit) + multiset(e.audit);
      if env.hasStore {
        Cancel(AllWrites(s.handlers[i := e.handler]), AllWrites(s.handlers), multiset(e.audit), LogWrites(h.log));
      } else {
        assert s.audit + e.audit == s.audit;
      }
  }

  lemma Cancel(now: multiset<AuditLog.AuditWrite>, was: multiset<AuditLog.AuditWrite>,
               added: multiset<AuditLog.AuditWrite>, own: multiset<AuditLog.AuditWrite>)
    requires now + own == was + (added + own)
    ensures now == was + added
  {
    forall w
      ensures now[w] == (was + added)[w]
    {
      assert (now + own)[w] == (was + (added + own))[w];
    }
  }

  lemma NewcomerIsSilent(kind: Kind)
    ensures var h := Handler(kind, Begin, [], [], []);
            && InFlight(h) == 0 && Errored(h) == 0 && Allowances(h) == 0 && Denials(h) == 0 && Forwards(h) == 0
            && LogWrites(h.log) == multiset{} && Countable(h)
  {}

  lemma {:induction false} RunBalances(env: Env, s: State, actions: seq<Action>)
    requires Accounted(env, s) && Possible(env, s, actions)
    ensures Accounted(env, Run(env, s, actions))
    decreases actions
  {
    hide Accounted, Enabled, Next;
    if actions != [] {
      NextBalances(env, s, actions[0]);
      RunBalances(env, Next(env, s, actions[0]), actions[1..]);
    }
  }

  /**
   * In every interleaving `checks` minus `allows` minus `denies` is the number of counted checks in
   * flight or ended in an error, and each counter is the number of counted decisions of its kind.
   */
  lemma {:induction false} CountersConserved(env: Env, hot: HotBundle, actions: seq<Action>)
    requires Possible(env, Initial(hot), actions)
    ensures var s := Run(env, Initial(hot), actions);
            && s.metrics.checks - s.metrics.allows - s.metrics.denies == Sum(s.handlers, InFlight) + Sum(s.handlers, Errored)
            && s.metrics.allows == Sum(s.handlers, Allowances)
            && s.metrics.denies == Sum(s.handlers, Denials)
            && s.metrics.upstream == Sum(s.handlers, Forwards)
  {
    hide Possible, Run;
    assert Accounted(env, Initial(hot));
    RunBalances(env, Initial(hot), actions);
  }

  /** In every interleaving the audit queue got exactly one entry for each check that came to a decision, and that check's own. */
  lemma {:induction false} ChecksAuditedOnce(env: Env, hot: HotBundle, actions: seq<Action>)
    requires Possible(env, Initial(hot), actions)
    ensures var s := Run(env, Initial(hot), actions);
            multiset(s.audit) == if env.hasStore then AllWrites(s.handlers) else multiset{}
  {
    hide Possible, Run;
    assert Accounted(env, Initial(hot));
    RunBalances(env, Initial(hot), actions);
  }

  // ----- what each handler does -----

  /** Among the first `n` events is an allowance of the request. */
  ghost predicate AllowedIn(log: seq<Event>, n: nat, req: AuthzRequest) {
    exists j :: 0 <= j < n && j < |log| && log[j].Checked? && log[j].req == req && log[j].decision.allow
  }

  ghost predicate CheckedIn(log: seq<Event>, req: AuthzRequest, d: Decision) {
    exists j :: 0 <= j < |log| && log[j].Checked? && log[j].req == req && log[j].decision == d
  }

  /** The user text was empty, or the request bound from it has been allowed. */
  ghost predicate TextCleared(kind: Kind, log: seq<Event>, n: nat) {
    kind.Chat? && (kind.utterance == "" || (kind.bound.Some? && AllowedIn(log, n, kind.bound.value)))
  }

  /** The request the handler came with, the one bound from its text, or one of a call in its reply. */
  ghost predicate OwnRequest(env: Env, h: Handler, req: AuthzRequest) {
    match h.kind
    case CheckRoute(own) => req == own
    case Retrieve(own) => req == own
    case Chat(principal, _, bound, _) =>
      bound == Some(req) || exists tc :: tc in h.reply && req == CallRequest(env, principal, tc)
  }

  /**
   * A check is a verdict on one stored bundle, of a request of the handler's own; a forwarded text was cleared before; a tool that ran
   * had its own call allowed before.
   */
  ghost predicate EventOk(env: Env, history: seq<HotBundle>, h: Handler, k: nat)
    requires k < |h.log|
  {
    match h.log[k]
    case Checked(req, hot, _, d) =>
      hot in history && Verdict(env.library, hot, env.requireSigned, req) == Ok(d) && OwnRequest(env, h, req)
    case Forwarded => TextCleared(h.kind, h.log, k)
    case Executed(tc) =>
      env.executeTools && h.kind.Chat? && AllowedIn(h.log, k, CallRequest(env, h.kind.principal, tc))
  }

  ghost predicate StageOk(env: Env, h: Handler, stage: Stage, req: AuthzRequest) {
    match stage
    case Whole => h.kind == CheckRoute(req) && h.reply == [] && h.judged == []
    case Fetch => h.kind == Retrieve(req) && h.reply == [] && h.judged == []
    case Gate => h.kind.Chat? && h.kind.bound == Some(req) && h.reply == [] && h.judged == []
    case Tool(tc) =>
      h.kind.Chat? && |h.judged| < |h.reply| && tc == h.reply[|h.judged|] && req == CallRequest(env, h.kind.principal, tc)
  }

  ghost predicate PhaseOk(env: Env, history: seq<HotBundle>, h: Handler) {
    match h.phase
    case Begin => h.reply == [] && h.judged == []
    case Checking(stage, req) => StageOk(env, h, stage, req)
    case Loaded(stage, req, hot) => StageOk(env, h, stage, req) && hot in history
    case Decided(stage, d) => StageOk(env, h, stage, d.request) && CheckedIn(h.log, d.request, d)
    case Cleared => TextCleared(h.kind, h.log, |h.log|) && h.reply == [] && h.judged == []
    case Awaiting => h.kind.Chat? && h.reply == [] && h.judged == []
    case Filtering => h.kind.Chat?
    case Running(tc) =>
      && h.kind.Chat? && env.executeTools && h.judged != []
      && h.judged[|h.judged| - 1].tc == tc && h.judged[|h.judged| - 1].decision.allow
    case Answered => |h.judged| == |h.reply|
    case CheckError => true
    case Stopped => true
  }

  /** The calls are judged in the order of the reply, each by a check of its own request. */
  ghost predicate JudgedOk(env: Env, h: Handler) {
    && |h.judged| <= |h.reply|
    && (h.judged != [] ==> h.kind.Chat?)
    && forall k | 0 <= k < |h.judged| ::
         h.judged[k].tc == h.reply[k] && CheckedIn(h.log, CallRequest(env, h.kind.principal, h.judged[k].tc), h.judged[k].decision)
  }

  /** The calls that stay in the reply. */
  function Kept(judged: seq<Judgement>): seq<Json> {
    if judged == [] then []
    else Kept(judged[..|judged| - 1])
         + if judged[|judged| - 1].decision.allow then [judged[|judged| - 1].tc] else []
  }

  function Executions(log: seq<Event>): seq<Json> {
    if log == [] then []
    else Executions(log[..|log| - 1]) + if log[|log| - 1].Executed? then [log[|log| - 1].tc] else []
  }

  /** The connector has run exactly the kept calls, but for one it may be about to run. */
  ghost predicate ExecutionsOk(env: Env, h: Handler) {
    if !env.executeTools then Executions(h.log) == []
    else if h.phase.Running? then Kept(h.judged) == Executions(h.log) + [h.phase.tc]
    else Executions(h.log) == Kept(h.judged)
  }

  ghost predicate HandlerOk(env: Env, history: seq<HotBundle>, h: Handler) {
    && (forall k | 0 <= k < |h.log| :: EventOk(env, history, h, k))
    && PhaseOk(env, history, h) && JudgedOk(env, h) && ExecutionsOk(env, h)
  }

  ghost predicate Invariant(env: Env, s: State) {
    && s.hot in s.history
    && (forall h | h in s.handlers :: HandlerOk(env, s.history, h))
  }

  lemma VerdictRequest(lib: Entities.Library, hot: HotBundle, requireSigned: bool, req: AuthzRequest)
    requires Verdict(lib, hot, requireSigned, req).Ok?
    ensures Verdict(lib, hot, requireSigned, req).value.request == req
  {
    hide ContextJson, Validate;
    var stamp := Stamp("", 0, "", _ => "");
    VerdictNamesItsBundle(lib, hot, requireSigned, req, stamp);
  }

  lemma HistoryGrows(env: Env, history: seq<HotBundle>, bundle: HotBundle, h: Handler)
    requires HandlerOk(env, history, h)
    ensures HandlerOk(env, history + [bundle], h)
  {
    hide Verdict, StageOk, AllowedIn, CheckedIn, JudgedOk, ExecutionsOk, CallRequest, TextCleared;
    forall k | 0 <= k < |h.log|
      ensures EventOk(env, history + [bundle], h, k)
    {
      assert EventOk(env, history, h, k);
    }
  }

  /** Appending an event keeps what was established before. */
  lemma LogGrows(log: seq<Event>, e: Event)
    ensures forall n: nat, req | n <= |log| :: AllowedIn(log, n, req) ==> AllowedIn(log + [e], n, req)
    ensures forall req, d :: CheckedIn(log, req, d) ==> CheckedIn(log + [e], req, d)
    ensures Executions(log + [e]) == Executions(log) + if e.Executed? then [e.tc] else []
  {
    assert (log + [e])[..|log + [e]| - 1] == log;
    forall n: nat, req | n <= |log| && AllowedIn(log, n, req)
      ensures AllowedIn(log + [e], n, req)
    {
      var j :| 0 <= j < n && j < |log| && log[j].Checked? && log[j].req == req && log[j].decision.allow;
      assert (log + [e])[j] == log[j];
    }
    forall req, d | CheckedIn(log, req, d)
      ensures CheckedIn(log + [e], req, d)
    {
      var j :| 0 <= j < |log| && log[j].Checked? && log[j].req == req && log[j].decision == d;
      assert (log + [e])[j] == log[j];
    }
  }

  lemma EventsKept(env: Env, history: seq<HotBundle>, h: Handler, after: Handler, e: Event)
    requires forall k | 0 <= k < |h.log| :: EventOk(env, history, h, k)
    requires after.kind == h.kind && after.reply == h.reply && after.log == h.log + [e]
    requires EventOk(env, history, after, |h.log|)
    ensures forall k | 0 <= k < |after.log| :: EventOk(env, history, after, k)
  {
    hide Verdict, CallRequest, AllowedIn, CheckedIn, Executions;
    LogGrows(h.log, e);
    forall k | 0 <= k < |h.log|
      ensures EventOk(env, history, after, k)
    {
      assert EventOk(env, history, h, k) && after.log[k] == h.log[k];
    }
  }

  lemma SameLogEvents(env: Env, history: seq<HotBundle>, h: Handler, after: Handler)
    requires forall k | 0 <= k < |h.log| :: EventOk(env, history, h, k)
    requires after.kind == h.kind && after.log == h.log && forall tc | tc in h.reply :: tc in after.reply
    ensures forall k | 0 <= k < |after.log| :: EventOk(env, history, after, k)
  {
    hide Verdict, CallRequest, AllowedIn, TextCleared;
    forall k | 0 <= k < |h.log|
      ensures EventOk(env, history, after, k)
    {
      assert EventOk(env, history, h, k);
    }
  }

  lemma KeptOneMore(judged: seq<Judgement>, j: Judgement)
    ensures Kept(judged + [j]) == Kept(judged) + if j.decision.allow then [j.tc] else []
  {
    assert (judged + [j])[..|judged + [j]| - 1] == judged;
  }

  /** Steps that record no event. */
  lemma QuietMoveKeepsOk(env: Env, hot: HotBundle, history: seq<HotBundle>, h: Handler, input: Input)
    requires HandlerOk(env, history, h) && hot in history && Move(env, hot, h, input).Some?
    requires !h.phase.Decided? && !h.phase.Loaded? && !h.phase.Cleared? && !h.phase.Running?
    ensures HandlerOk(env, history, Move(env, hot, h, input).value.handler)
  {
    hide Verdict, CallRequest, AllowedIn, CheckedIn, EventOk, Executions, Kept, WriteOf;
    var after := Move(env, hot, h, input).value.handler;
    SameLogEvents(env, history, h, after);
  }

  lemma VerdictMoveKeepsOk(env: Env, hot: HotBundle, history: seq<HotBundle>, h: Handler, input: Input)
    requires HandlerOk(env, history, h) && h.phase.Loaded?
    ensures HandlerOk(env, history, Move(env, hot, h, input).value.handler)
  {
    hide Verdict, CallRequest, AllowedIn, CheckedIn, EventOk, Executions, Kept, WriteOf;
    var e := Move(env, hot, h, input).value;
    var after := e.handler;
    var loaded, req := h.phase.hot, h.phase.req;
    if Verdict(env.library, loaded, env.requireSigned, req).Err? {
      SameLogEvents(env, history, h, after);
    } else {
      var d := Verdict(env.library, loaded, env.requireSigned, req).value;
      var event := Checked(req, loaded, input.stamp, d);
      VerdictRequest(env.library, loaded, env.requireSigned, req);
      LogGrows(h.log, event);
      assert EventOk(env, history, after, |h.log|) by { CheckedEventOk(env, history, after); }
      EventsKept(env, history, h, after, event);
      assert CheckedIn(after.log, req, d) by { LastIsChecked(after.log); }
    }
  }

  lemma CheckedEventOk(env: Env, history: seq<HotBundle>, h: Handler)
    requires h.log != [] && h.log[|h.log| - 1].Checked?
    requires var e := h.log[|h.log| - 1];
             e.hot in history && Verdict(env.library, e.hot, env.requireSigned, e.req) == Ok(e.decision) && OwnRequest(env, h, e.req)
    ensures EventOk(env, history, h, |h.log| - 1)
  {
    hide Verdict;
  }

  lemma LastIsChecked(log: seq<Event>)
    requires log != [] && log[|log| - 1].Checked?
    ensures CheckedIn(log, log[|log| - 1].req, log[|log| - 1].decision)
  {}

  lemma CheckedAllowance(log: seq<Event>, req: AuthzRequest, d: Decision)
    requires CheckedIn(log, req, d) && d.allow
    ensures AllowedIn(log, |log|, req)
  {
    var j :| 0 <= j < |log| && log[j].Checked? && log[j].req == req && log[j].decision == d;
  }

  lemma DecidedMoveKeepsOk(env: Env, hot: HotBundle, history: seq<HotBundle>, h: Handler, input: Input)
    requires HandlerOk(env, history, h) && h.phase.Decided?
    ensures HandlerOk(env, history, Move(env, hot, h, input).value.handler)
  {
    hide Verdict, CallRequest, AllowedIn, CheckedIn, EventOk, Executions, Kept, WriteOf;
    var after := Move(env, hot, h, input).value.handler;
    var d := h.phase.decision;
    SameLogEvents(env, history, h, after);
    if d.allow { CheckedAllowance(h.log, d.request, d); }
    if h.phase.stage.Tool? { KeptOneMore(h.judged, Judgement(h.phase.stage.tc, d)); }
  }

  lemma ForwardMoveKeepsOk(env: Env, hot: HotBundle, history: seq<HotBundle>, h: Handler, input: Input)
    requires HandlerOk(env, history, h) && h.phase.Cleared?
    ensures HandlerOk(env, history, Move(env, hot, h, input).value.handler)
  {
    hide Verdict, CallRequest, AllowedIn, CheckedIn, Executions, Kept, WriteOf;
    var after := Move(env, hot, h, input).value.handler;
    LogGrows(h.log, Forwarded);
    EventsKept(env, history, h, after, Forwarded);
  }

  lemma RunMoveKeepsOk(env: Env, hot: HotBundle, history: seq<HotBundle>, h: Handler, input: Input)
    requires HandlerOk(env, history, h) && h.phase.Running?
    ensures HandlerOk(env, history, Move(env, hot, h, input).value.handler)
  {
    hide Verdict, CallRequest, AllowedIn, CheckedIn, Executions, Kept, WriteOf;
    var after := Move(env, hot, h, input).value.handler;
    var last := h.judged[|h.judged| - 1];
    LogGrows(h.log, Executed(h.phase.tc));
    CheckedAllowance(h.log, CallRequest(env, h.kind.principal, last.tc), last.decision);
    EventsKept(env, history, h, after, Executed(h.phase.tc));
  }

  lemma MoveKeepsOk(env: Env, hot: HotBundle, history: seq<HotBundle>, h: Handler, input: Input)
    requires HandlerOk(env, history, h) && hot in history && Move(env, hot, h, input).Some?
    ensures HandlerOk(env, history, Move(env, hot, h, input).value.handler)
  {
    hide HandlerOk, Verdict, CallRequest, WriteOf;
    match h.phase
    case Loaded(_, _, _) => VerdictMoveKeepsOk(env, hot, history, h, input);
    case Decided(_, _) => DecidedMoveKeepsOk(env, hot, history, h, input);
    case Cleared => ForwardMoveKeepsOk(env, hot, history, h, input);
    case Running(_) => RunMoveKeepsOk(env, hot, history, h, input);
    case _ => QuietMoveKeepsOk(env, hot, history, h, input);
  }

  lemma NewHandlerOk(env: Env, history: seq<HotBundle>, kind: Kind)
    ensures HandlerOk(env, history, Handler(kind, Begin, [], [], []))
  {}

  lemma NextKeepsInvariant(env: Env, s: State, a: Action)
    requires Invariant(env, s) && Enabled(env, s, a)
    ensures Invariant(env, Next(env, s, a))
  {
    hide HandlerOk, Move;
    match a
    case Arrive(kind) => NewHandlerOk(env, s.history, kind);
    case Swap(bundle) =>
      forall h | h in s.handlers
        ensures HandlerOk(env, s.history + [bundle], h)
      {
        HistoryGrows(env, s.history, bundle, h);
      }
    case Step(i, input) => MoveKeepsOk(env, s.hot, s.history, s.handlers[i], input);
  }

  lemma {:induction false} RunKeepsInvariant(env: Env, s: State, actions: seq<Action>)
    requires Invariant(env, s) && Possible(env, s, actions)
    ensures Invariant(env, Run(env, s, actions))
    decreases actions
  {
    hide Invariant, Enabled, Next;
    if actions != [] {
      NextKeepsInvariant(env, s, actions[0]);
      RunKeepsInvariant(env, Next(env, s, actions[0]), actions[1..]);
    }
  }

  /** In every interleaving of handlers and bundle swaps, every handler is sound. */
  lemma {:induction false} EveryRunIsSound(env: Env, hot: HotBundle, actions: seq<Action>)
    requires Possible(env, Initial(hot), actions)
    ensures Invariant(env, Run(env, Initial(hot), actions))
  {
    hide HandlerOk, Possible, Run;
    assert Invariant(env, Initial(hot));
    RunKeepsInvariant(env, Initial(hot), actions);
  }

  // ----- what follows -----

  /** Each upstream call follows an allowance of the user's own text in the same chat, unless that text was empty. */
  lemma {:induction false} UpstreamFollowsAllowance(env: Env, hot: HotBundle, actions: seq<Action>, i: nat, k: nat)
    requires Possible(env, Initial(hot), actions)
    requires var s := Run(env, Initial(hot), actions);
             i < |s.handlers| && k < |s.handlers[i].log| && s.handlers[i].log[k] == Forwarded
    ensures var h := Run(env, Initial(hot), actions).handlers[i];
            && h.kind.Chat?
            && (h.kind.utterance != "" ==>
                  h.kind.bound.Some?
                  && exists j :: 0 <= j < k && h.log[j].Checked? && h.log[j].req == h.kind.bound.value
                                 && h.log[j].decision.allow && h.log[j].hot in Run(env, Initial(hot), actions).history)
  {
    hide Possible, Run, PhaseOk, JudgedOk, ExecutionsOk, Verdict;
    EveryRunIsSound(env, hot, actions);
    var s := Run(env, Initial(hot), actions);
    var h := s.handlers[i];
    assert HandlerOk(env, s.history, h);
    assert EventOk(env, s.history, h, k);
    if h.kind.utterance != "" {
      var j :| 0 <= j < k && j < |h.log| && h.log[j].Checked? && h.log[j].req == h.kind.bound.value && h.log[j].decision.allow;
      assert EventOk(env, s.history, h, j);
    }
  }

  /**
   * One check uses one stored bundle for its policies, its revision, its signature and the key id in
   * its audit entry, and a signed one when signatures are required; every entry is one such check's.
   */
  lemma {:induction false} ChecksUseOneBundle(env: Env, hot: HotBundle, actions: seq<Action>)
    requires Possible(env, Initial(hot), actions) && env.hasStore
    ensures var s := Run(env, Initial(hot), actions);
            && (forall h, k | h in s.handlers && 0 <= k < |h.log| && h.log[k].Checked? ::
                  CheckIsWhole(env, s.history, h.log[k]) && AuditNames(EntryOf(h.log[k]), h.log[k]) && EntryOf(h.log[k]) in s.audit)
            && (forall w | w in s.audit ::
                  exists h, k :: h in s.handlers && 0 <= k < |h.log| && h.log[k].Checked? && w == EntryOf(h.log[k]))
  {
    hide Possible, Run, PhaseOk, JudgedOk, ExecutionsOk, Verdict, CheckIsWhole, EntryOf, AuditNames, LogWrites, AllWrites, OwnRequest;
    EveryRunIsSound(env, hot, actions);
    ChecksAuditedOnce(env, hot, actions);
    var s := Run(env, Initial(hot), actions);
    forall h, k | h in s.handlers && 0 <= k < |h.log| && h.log[k].Checked?
      ensures CheckIsWhole(env, s.history, h.log[k]) && AuditNames(EntryOf(h.log[k]), h.log[k]) && EntryOf(h.log[k]) in s.audit
    {
      assert EventOk(env, s.history, h, k);
      VerdictIsWhole(env, s.history, h.log[k]);
      EntryNamesBundle(env, h.log[k]);
      EntryIsWritten(h.log, k);
      HandlersWrite(s.handlers, h, EntryOf(h.log[k]));
      assert EntryOf(h.log[k]) in multiset(s.audit);
    }
    forall w | w in s.audit
      ensures exists h, k :: h in s.handlers && 0 <= k < |h.log| && h.log[k].Checked? && w == EntryOf(h.log[k])
    {
      assert w in multiset(s.audit);
      var h := WriterOf(s.handlers, w);
      var k := CheckOf(h.log, w);
    }
  }

  lemma {:induction false} EntryIsWritten(log: seq<Event>, k: nat)
    requires k < |log| && log[k].Checked?
    ensures EntryOf(log[k]) in LogWrites(log)
    decreases log
  {
    if k < |log| - 1 { EntryIsWritten(log[..|log| - 1], k); }
  }

  lemma {:induction false} HandlersWrite(hs: seq<Handler>, h: Handler, w: AuditLog.AuditWrite)
    requires h in hs && w in LogWrites(h.log)
    ensures w in AllWrites(hs)
    decreases hs
  {
    hide LogWrites;
    if hs[0] != h { HandlersWrite(hs[1..], h, w); }
  }

  lemma {:induction false} WriterOf(hs: seq<Handler>, w: AuditLog.AuditWrite) returns (h: Handler)
    requires w in AllWrites(hs)
    ensures h in hs && w in LogWrites(h.log)
    decreases hs
  {
    hide LogWrites;
    if w in LogWrites(hs[0].log) {
      h := hs[0];
    } else {
      h := WriterOf(hs[1..], w);
    }
  }

  lemma {:induction false} CheckOf(log: seq<Event>, w: AuditLog.AuditWrite) returns (k: nat)
    requires w in LogWrites(log)
    ensures k < |log| && log[k].Checked? && w == EntryOf(log[k])
    decreases log
  {
    var n := |log| - 1;
    if log[n].Checked? && w == EntryOf(log[n]) {
      k := n;
    } else {
      k := CheckOf(log[..n], w);
    }
  }

  ghost predicate CheckIsWhole(env: Env, history: seq<HotBundle>, e: Event)
    requires e.Checked?
  {
    && e.hot in history && (env.requireSigned ==> e.hot.signature.Some?)
    && Evaluation(e.req, ToEvaluatorConfig(env.library, e.hot)) == Ok(e.decision)
    && e.decision.revision == e.hot.revision && e.decision.signature == e.hot.signature
  }

  predicate AuditNames(w: AuditLog.AuditWrite, e: Event)
    requires e.Checked?
  {
    && w.principal == e.req.principal.id && w.action == e.req.action && w.resource == e.req.resource.kind
    && w.subject == (if e.req.subject.Some? then Some(e.req.subject.value.id) else None)
    && w.decisionId == e.stamp.decisionId && w.timestamp == e.stamp.timestamp && w.latencyMs == e.stamp.latencyMs
    && w.evidenceJson == e.stamp.json(e.decision)
    && w.decision == (if e.decision.allow then "ALLOW" else "DENY")
    && w.policyRevision == e.hot.revision
    && w.signatureKeyId == if e.hot.signatureKeyId.Some? then e.hot.signatureKeyId else e.hot.signature
  }

  lemma VerdictIsWhole(env: Env, history: seq<HotBundle>, e: Event)
    requires e.Checked? && e.hot in history && Verdict(env.library, e.hot, env.requireSigned, e.req) == Ok(e.decision)
    ensures CheckIsWhole(env, history, e)
  {
    hide Evaluation;
    VerdictNamesItsBundle(env.library, e.hot, env.requireSigned, e.req, Stamp("", 0, "", _ => ""));
  }

  lemma EntryNamesBundle(env: Env, e: Event)
    requires e.Checked? && Verdict(env.library, e.hot, env.requireSigned, e.req) == Ok(e.decision)
    ensures AuditNames(EntryOf(e), e)
  {
    hide Verdict;
    VerdictNamesItsBundle(env.library, e.hot, env.requireSigned, e.req, e.stamp);
  }

  /**
   * When a chat has answered, every tool call of its reply was judged in order by a check of its own
   * request, the allowed ones are kept in order, and the connector ran exactly those when tools are
   * run; no tool ever runs before its own call is allowed.
   */
  lemma {:induction false} ToolsRunExactlyWhenAllowed(env: Env, hot: HotBundle, actions: seq<Action>, i: nat)
    requires Possible(env, Initial(hot), actions) && i < |Run(env, Initial(hot), actions).handlers|
    ensures var h := Run(env, Initial(hot), actions).handlers[i];
            && (h.phase.Answered? ==> |h.judged| == |h.reply| && Executions(h.log) == if env.executeTools then Kept(h.judged) else [])
            && (forall k | 0 <= k < |h.judged| ::
                  k < |h.reply| && h.judged[k].tc == h.reply[k] && h.kind.Chat?
                  && CheckedIn(h.log, CallRequest(env, h.kind.principal, h.judged[k].tc), h.judged[k].decision))
            && (forall k | 0 <= k < |h.log| && h.log[k].Executed? ::
                  h.kind.Chat? && AllowedIn(h.log, k, CallRequest(env, h.kind.principal, h.log[k].tc)))
  {
    hide Possible, Run, Verdict, CheckedIn, AllowedIn, CallRequest, Executions, Kept, TextCleared;
    EveryRunIsSound(env, hot, actions);
    var s := Run(env, Initial(hot), actions);
    var h := s.handlers[i];
    assert HandlerOk(env, s.history, h);
    forall k | 0 <= k < |h.log| && h.log[k].Executed?
      ensures h.kind.Chat? && AllowedIn(h.log, k, CallRequest(env, h.kind.principal, h.log[k].tc))
    {
      assert EventOk(env, s.history, h, k);
    }
  }

  /** The bundle holds compiled policies, and they do not let the roles invoke unknown tools. */
  ghost predicate DeniesUnknownTools(hot: HotBundle, roles: seq<string>) {
    exists ps: seq<Dsl.Policy> :: Compilable(ps) && hot.policySet == CedarPoliciesOf(ps) && !LetsIn(ps, "TOOL_INVOKE", "TOOL_UNKNOWN", roles)
  }

  function RolesOf(h: Handler): seq<string> {
    if h.kind.Chat? then h.kind.principal.roles else []
  }

  /**
   * If no bundle ever stored lets a chat's principal invoke unknown tools, in every interleaving no call
   * outside the catalog is allowed in that chat, and none is ever run.
   */
  lemma {:induction false} UnknownToolsNeverSurvive(env: Env, hot: HotBundle, actions: seq<Action>, i: nat)
    requires Possible(env, Initial(hot), actions) && i < |Run(env, Initial(hot), actions).handlers|
    requires var s := Run(env, Initial(hot), actions);
             forall b | b in s.history :: DeniesUnknownTools(b, RolesOf(s.handlers[i]))
    ensures var h := Run(env, Initial(hot), actions).handlers[i];
            && (forall k | 0 <= k < |h.judged| && h.judged[k].decision.allow ::
                  FindTool(env.catalog.tools, NameOf(h.judged[k].tc)).Some?)
            && (forall k | 0 <= k < |h.log| && h.log[k].Executed? ::
                  FindTool(env.catalog.tools, NameOf(h.log[k].tc)).Some?)
  {
    hide Possible, Run, HandlerOk, DeniesUnknownTools, NameOf, FindTool;
    EveryRunIsSound(env, hot, actions);
    var s := Run(env, Initial(hot), actions);
    var h := s.handlers[i];
    assert HandlerOk(env, s.history, h);
    forall k | 0 <= k < |h.judged| && h.judged[k].decision.allow
      ensures FindTool(env.catalog.tools, NameOf(h.judged[k].tc)).Some?
    {
      if FindTool(env.catalog.tools, NameOf(h.judged[k].tc)).None? { UnknownCallDenied(env, s.history, h, k); }
    }
    forall k | 0 <= k < |h.log| && h.log[k].Executed?
      ensures FindTool(env.catalog.tools, NameOf(h.log[k].tc)).Some?
    {
      if FindTool(env.catalog.tools, NameOf(h.log[k].tc)).None? { UnknownCallNotRun(env, s.history, h, k); }
    }
  }

  lemma UnknownCallNotRun(env: Env, history: seq<HotBundle>, h: Handler, k: nat)
    requires HandlerOk(env, history, h) && k < |h.log| && h.log[k].Executed?
    requires forall b | b in history :: DeniesUnknownTools(b, RolesOf(h))
    ensures FindTool(env.catalog.tools, NameOf(h.log[k].tc)).Some?
  {
    hide Verdict, PhaseOk, ExecutionsOk, JudgedOk, TextCleared, DeniesUnknownTools, FindTool, NameOf, CallRequest;
    assert EventOk(env, history, h, k);
    var req := CallRequest(env, h.kind.principal, h.log[k].tc);
    var j :| 0 <= j < k && j < |h.log| && h.log[j].Checked? && h.log[j].req == req && h.log[j].decision.allow;
    assert EventOk(env, history, h, j);
    if FindTool(env.catalog.tools, NameOf(h.log[k].tc)).None? {
      UnknownVerdict(env, h.log[j].hot, h.kind.principal, h.log[k].tc);
    }
  }

  lemma UnknownCallDenied(env: Env, history: seq<HotBundle>, h: Handler, k: nat)
    requires HandlerOk(env, history, h) && k < |h.judged|
    requires forall b | b in history :: DeniesUnknownTools(b, RolesOf(h))
    requires FindTool(env.catalog.tools, NameOf(h.judged[k].tc)).None?
    ensures !h.judged[k].decision.allow
  {
    hide Verdict, PhaseOk, ExecutionsOk, TextCleared, AllowedIn, DeniesUnknownTools, FindTool, NameOf, CallRequest;
    var tc, d := h.judged[k].tc, h.judged[k].decision;
    var j :| 0 <= j < |h.log| && h.log[j].Checked? && h.log[j].req == CallRequest(env, h.kind.principal, tc) && h.log[j].decision == d;
    assert EventOk(env, history, h, j);
    UnknownVerdict(env, h.log[j].hot, h.kind.principal, tc);
  }

  lemma UnknownVerdict(env: Env, used: HotBundle, principal: Principal, tc: Json)
    requires DeniesUnknownTools(used, principal.roles) && FindTool(env.catalog.tools, NameOf(tc)).None?
    ensures var v := Verdict(env.library, used, env.requireSigned, CallRequest(env, principal, tc)); v.Ok? ==> !v.value.allow
  {
    hide Verdict, Compilable, CedarPoliciesOf, FindTool, NameOf, ArgumentsText, ToolRequest, LetsIn;
    var ps: seq<Dsl.Policy> :| Compilable(ps) && used.policySet == CedarPoliciesOf(ps) && !LetsIn(ps, "TOOL_INVOKE", "TOOL_UNKNOWN", principal.roles);
    UnknownToolsNeverAllowed(Setting(env.catalog, principal, env.library, used, env.requireSigned, env.read), ps, tc);
  }
}
