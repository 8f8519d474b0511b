/** From the policy store to the verdicts of a proxy started on it: engine.rs, store.rs. */
module Serving {
  import opened Text
  import opened Dsl
  import opened DslPrint
  import opened Requests
  import opened Contexts
  import opened Translate
  import opened TranslateReads
  import opened Semantics
  import opened Evaluator
  import opened Engine
  import opened Entities
  import opened Sign
  import Cedar
  import Store

  /** The bundle loaded from a deployed revision: its signature field holds the signer's key id. */
  function BundleOf(policies: seq<Cedar.CedarPolicy>, rev: Store.PolicyRevision): HotBundle {
    var keyId := if rev.bundle.Some? then Some(rev.bundle.value.keyId) else None;
    HotBundle(policies, rev.revision, keyId, keyId,
              if rev.bundle.Some? then Some(rev.bundle.value.contentSha256) else None, [])
  }

  /** In every reachable state a deployed revision is one that was signed. */
  lemma {:induction false} DeployedIsSigned(env: Store.Env, ops: seq<Store.Op>, rev: Store.PolicyRevision)
    requires forall op | op in ops :: Store.ValidOp(op)
    requires Store.LoadDeployed(Store.Run(env, map[], ops)) == Ok(Some(rev))
    ensures rev.bundle.Some?
  {
    hide Store.Run, Store.ValidOp, Store.RevisionOk, Store.IsRevisionId, Store.RevisionPath;
    Store.EveryRunIsSound(env, ops);
  }

  /**
   * A proxy started on any reachable store with a deployed revision is ready, signatures required or
   * not, and its verdict on a request is the meaning of the DSL text stored in that revision.
   */
  lemma {:induction false} ServedMeansCommitted(env: Store.Env, ops: seq<Store.Op>, ps: seq<Policy>, rev: Store.PolicyRevision,
                             library: Library, requireSigned: bool, req: AuthzRequest)
    requires forall op | op in ops :: Store.ValidOp(op)
    requires Store.LoadDeployed(Store.Run(env, map[], ops)) == Ok(Some(rev))
    requires Parse(rev.dsl) == Ok(ps) && AllPlain(ps) && PlainTarget(req)
    ensures var policies := Store.PolicySetFromDeployed(Store.Run(env, map[], ops));
            && policies.Ok?
            && var hot := BundleOf(policies.value.0, rev);
               var v := Verdict(library, hot, requireSigned, req);
               && SignedEnough(hot, requireSigned)
               && rev.bundle.Some? && hot.signature == hot.signatureKeyId == Some(rev.bundle.value.keyId)
               && hot.contentSha256 == Some(rev.bundle.value.contentSha256)
               && (v.Ok? ==> rev.bundle.Some? && v.value.revision == rev.revision && v.value.signature == Some(rev.bundle.value.keyId))
               && (v.Ok? <==> Evaluable(req, Host(library, [])))
               && (v.Ok? ==> (v.value.allow <==> Permitted(ps, req)))
  {
    hide Store.Run, Store.ValidOp, Evaluable, Verdict, Permitted, Parse, AllPlain, AllWellFormed, PlainTarget,
      CedarPoliciesOf, Store.LoadDeployed, Store.PolicySetFromDeployed;
    DeployedIsSigned(env, ops, rev);
    ParseWellFormed(rev.dsl);
    Store.DeployedPolicies(env, ops, ps, rev);
    VerdictMeansPermitted(library, BundleOf(CedarPoliciesOf(ps), rev), requireSigned, ps, req);
    if Verdict(library, BundleOf(CedarPoliciesOf(ps), rev), requireSigned, req).Ok? {
      VerdictNamesItsBundle(library, BundleOf(CedarPoliciesOf(ps), rev), requireSigned, req, Stamp("", 0, "", _ => ""));
    }
  }

  /**
   * From text to verdict: once a valid text is written, committed, signed and deployed on any reachable
   * store, a proxy started on it answers by the meaning of that text.
   */
  lemma PublishedIsServed(env: Store.Env, ops: seq<Store.Op>, dsl: string, ps: seq<Policy>, message: string, id: string,
                          signer: Signer, library: Library, requireSigned: bool, req: AuthzRequest)
    requires forall op | op in ops :: Store.ValidOp(op)
    requires Store.ValidateDsl(env, dsl) == Ok(ps) && Store.IsRevisionId(id) && AllPlain(ps) && PlainTarget(req)
    ensures var publish := [Store.WriteActive(dsl), Store.Commit(message, id), Store.SignHead(signer), Store.DeployHead];
            var served := Store.PolicySetFromDeployed(Store.Run(env, map[], ops + publish));
            && served.Ok? && served.value.1.revision == id
            && var v := Verdict(library, BundleOf(served.value.0, served.value.1), requireSigned, req);
               && (v.Ok? <==> Evaluable(req, Host(library, [])))
               && (v.Ok? ==> v.value.revision == id && (v.value.allow <==> Permitted(ps, req)))
  {
    hide Store.Run, Store.ValidateDsl, Store.IsRevisionId, Evaluable, Verdict, Permitted, Parse, AllPlain, PlainTarget, BundleOf,
      SignBundle, Store.PolicySetFromDeployed, Translate.CedarOf, SignedEnough;
    var publish := [Store.WriteActive(dsl), Store.Commit(message, id), Store.SignHead(signer), Store.DeployHead];
    Store.RunAppend(env, map[], ops, publish);
    Store.ValidIff(env, dsl, ps);
    Store.PublishingDeploys(env, Store.Run(env, map[], ops), dsl, ps, message, id, signer);
    var rev := Store.LoadDeployed(Store.Run(env, map[], ops + publish)).value.value;
    Store.DeployedPolicies(env, ops + publish, ps, rev);
    ServedMeansCommitted(env, ops + publish, ps, rev, library, requireSigned, req);
  }
}
