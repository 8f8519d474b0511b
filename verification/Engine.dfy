/** The hot bundle cache and the checks that read it: hot_cache.rs, engine.rs. */
module Engine {
  import opened Text
  import opened Dsl
  import opened DslPrint
  import opened Entities
  import opened Requests
  import opened Contexts
  import opened Translate
  import opened TranslateReads
  import opened Semantics
  import opened Evaluator
  import opened AuditLog
  import Cedar

  datatype HotBundle = HotBundle(
    policySet: seq<Cedar.CedarPolicy>, revision: string, signature: Option<string>,
    signatureKeyId: Option<string>, contentSha256: Option<string>, groupMembers: GroupMembers)

  function ToEvaluatorConfig(lib: Library, hot: HotBundle): Config {
    Config(hot.policySet, hot.revision, hot.signature, Host(lib, hot.groupMembers))
  }

  /** Bundles are swapped in whole and read whole. */
  class BundleCache {
    var inner: HotBundle

    constructor (bundle: HotBundle)
      ensures inner == bundle
    {
      inner := bundle;
    }

    method Load() returns (hot: HotBundle)
      ensures hot == inner
    {
      hot := inner;
    }

    method Store(bundle: HotBundle)
      modifies this
      ensures inner == bundle
    {
      inner := bundle;
    }
  }

  datatype EngineError = NotReady | BadRequest(error: RequestError) | Forbidden(decision: Decision)

  /** What a check takes from the clock, the id generator and the serializer. */
  datatype Stamp = Stamp(decisionId: string, latencyMs: int, timestamp: string, json: Decision -> string)

  predicate SignedEnough(hot: HotBundle, requireSigned: bool) {
    requireSigned ==> hot.signature.Some?
  }

  /** The verdict of one check on the bundle it loaded. */
  function Verdict(lib: Library, hot: HotBundle, requireSigned: bool, req: AuthzRequest): Result<Decision, EngineError> {
    if !SignedEnough(hot, requireSigned) then Err(NotReady)
    else
      match Evaluation(req, ToEvaluatorConfig(lib, hot))
      case Err(e) => Err(BadRequest(e))
      case Ok(d) => Ok(d)
  }

  function WriteOf(d: Decision, stamp: Stamp, keyId: Option<string>): AuditWrite {
    AuditWrite(
      stamp.decisionId, d.request.principal.id, d.request.action, d.request.resource.kind,
      if d.request.subject.Some? then Some(d.request.subject.value.id) else None,
      if d.allow then "ALLOW" else "DENY",
      d.revision, if keyId.Some? then keyId else d.signature, stamp.latencyMs, stamp.timestamp, stamp.json(d))
  }

  /** What a check queues: one entry under its bundle's key for a decision, nothing for an error. */
  function AuditOf(verdict: Result<Decision, EngineError>, hot: HotBundle, stamp: Stamp): seq<AuditWrite> {
    if verdict.Ok? then [WriteOf(verdict.value, stamp, hot.signatureKeyId)] else []
  }

  class AuthzEngine {
    const library: Library
    const bundle: BundleCache
    const store: AuditDatabase?
    const requireSigned: bool

    constructor (library: Library, bundle: BundleCache, store: AuditDatabase?, requireSigned: bool)
      ensures this.library == library && this.bundle == bundle && this.store == store && this.requireSigned == requireSigned
    {
      this.library, this.bundle, this.store, this.requireSigned := library, bundle, store, requireSigned;
    }

    method Check(req: AuthzRequest, stamp: Stamp) returns (r: Result<Decision, EngineError>)
      modifies (if store != null then {store} else {})`queue
      ensures r == Verdict(library, bundle.inner, requireSigned, req)
      ensures store != null ==>
        store.queue == old(store.queue) + AuditOf(r, bundle.inner, stamp)
    {
      hide Evaluation;
      var hot := bundle.Load();
      if requireSigned && hot.signature.None? {
        return Err(NotReady);
      }
      var cfg := ToEvaluatorConfig(library, hot);
      var decision := Evaluate(req, cfg);
      if decision.Err? {
        return Err(BadRequest(decision.error));
      }
      if store != null {
        store.EnqueueAudit(WriteOf(decision.value, stamp, hot.signatureKeyId));
      }
      return Ok(decision.value);
    }

    method IsReady() returns (r: Result<(), EngineError>)
      ensures r == if SignedEnough(bundle.inner, requireSigned) then Ok(()) else Err(NotReady)
    {
      var hot := bundle.Load();
      if requireSigned && hot.signature.None? {
        return Err(NotReady);
      }
      return Ok(());
    }

    /** The check is audited whether its decision is returned or carried by the error. */
    method AllowOrForbid(req: AuthzRequest, stamp: Stamp) returns (r: Result<Decision, EngineError>)
      modifies (if store != null then {store} else {})`queue
      ensures store != null ==>
        store.queue == old(store.queue) + AuditOf(Verdict(library, bundle.inner, requireSigned, req), bundle.inner, stamp)
      ensures match Verdict(library, bundle.inner, requireSigned, req)
              case Err(e) => r == Err(e)
              case Ok(d) => r == if d.allow then Ok(d) else Err(Forbidden(d))
    {
      var d := Check(req, stamp);
      if d.Err? {
        return Err(d.error);
      }
      if !d.value.allow {
        return Err(Forbidden(d.value));
      }
      return Ok(d.value);
    }
  }

  /** Being ready is exactly: no check is ever turned away as not ready. */
  lemma {:induction false} ReadyMeansChecksRun(lib: Library, hot: HotBundle, requireSigned: bool)
    ensures SignedEnough(hot, requireSigned) <==> forall req :: Verdict(lib, hot, requireSigned, req) != Err(NotReady)
  {
    hide Evaluation;
    if !SignedEnough(hot, requireSigned) {
      var req := AuthzRequest(Principal("", [], [], []), "", Resource("", None, []), None, [], [], None, None);
      assert Verdict(lib, hot, requireSigned, req) == Err(NotReady);
    }
  }

  /** A verdict carries its bundle's revision and signature, and its audit entry the bundle's key. */
  lemma {:induction false} VerdictNamesItsBundle(lib: Library, hot: HotBundle, requireSigned: bool, req: AuthzRequest, stamp: Stamp)
    requires Verdict(lib, hot, requireSigned, req).Ok?
    ensures var d := Verdict(lib, hot, requireSigned, req).value;
            && d.request == req && d.revision == hot.revision && d.signature == hot.signature
            && (requireSigned ==> d.signature.Some?)
            && (hot.signatureKeyId.Some? ==> WriteOf(d, stamp, hot.signatureKeyId).signatureKeyId == hot.signatureKeyId)
            && WriteOf(d, stamp, hot.signatureKeyId).policyRevision == hot.revision
  {
    hide ContextJson, ReadContext, Cedar.Authorize, Validate;
  }

  /**
   * On compiled policies a verdict is the meaning of the policies; it is an error exactly when the
   * bundle is not signed enough or the request cannot be evaluated.
   */
  lemma {:induction false} VerdictMeansPermitted(lib: Library, hot: HotBundle, requireSigned: bool, ps: seq<Policy>, req: AuthzRequest)
    requires Compilable(ps) && hot.policySet == CedarPoliciesOf(ps) && PlainTarget(req)
    ensures var v := Verdict(lib, hot, requireSigned, req);
            && (v.Ok? <==> SignedEnough(hot, requireSigned) && Evaluable(req, Host(lib, hot.groupMembers)))
            && (v.Ok? ==> (v.value.allow <==> Permitted(ps, req)))
  {
    hide Evaluable, Evaluation, Permitted, CedarRequest, Cedar.Authorize, AllPlain, AllWellFormed, PlainTarget;
    var cfg := ToEvaluatorConfig(lib, hot);
    EvaluationNeedsContext(req, cfg);
    if Evaluable(req, Host(lib, hot.groupMembers)) {
      WellFormedSubjects(ps);
      AuthorizeIffPermitted(ps, req);
      EvaluationOf(req, cfg);
    }
  }
}
