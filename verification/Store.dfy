/** The policy lifecycle over a map of files: store.rs. */
module Store {
  import opened Text
  import opened Dsl
  import opened DslPrint
  import opened Translate
  import opened TranslateReads
  import opened Requests
  import opened Semantics
  import opened Entities
  import opened Evaluator
  import opened Sign
  import Cedar
  import CedarText

  datatype PolicyRevision = PolicyRevision(
    revision: string, message: string, cedar: string, dsl: string, bundle: Option<SignedBundle>)

  datatype File = Plain(text: string) | Record(rev: PolicyRevision)

  type Files = map<string, File>

  datatype StoreError =
    | BadDsl(error: ParseError)
    | BadCedar
    | SchemaRejects
    | NoPolicies
    | NoHead
    | MissingFile
    | BadRecord
    | NotSigned
    | NothingDeployed

  /** The schema validator's verdict and the signature scheme. */
  datatype Env = Env(accepts: seq<Cedar.CedarPolicy> -> bool, scheme: Scheme)

  const ACTIVE := "active.dsl"
  const HEAD := "HEAD"
  const DEPLOYED := "deployed/current.json"

  function RevisionPath(id: string): string { "revisions/" + id + ".json" }

  function DraftPath(name: string): string { "drafts/" + name + ".dsl" }

  // ----- reading -----

  function ReadActive(fs: Files): string {
    if ACTIVE in fs && fs[ACTIVE].Plain? then fs[ACTIVE].text else ""
  }

  function ValidateDsl(env: Env, dsl: string): Result<seq<Policy>, StoreError> {
    match Parse(dsl)
    case Err(e) => Err(BadDsl(e))
    case Ok(ps) =>
      match CedarText.ParseCedar(CedarOf(ps))
      case None => Err(BadCedar)
      case Some(cs) =>
        if !env.accepts(cs) then Err(SchemaRejects)
        else if ps == [] then Err(NoPolicies)
        else Ok(ps)
  }

  function HeadRevision(fs: Files): Option<string> {
    if HEAD in fs && fs[HEAD].Plain? then Some(Trim(fs[HEAD].text)) else None
  }

  function LoadRevision(fs: Files, id: string): Result<PolicyRevision, StoreError> {
    if RevisionPath(id) !in fs then Err(MissingFile)
    else if !fs[RevisionPath(id)].Record? then Err(BadRecord)
    else Ok(fs[RevisionPath(id)].rev)
  }

  function LoadDeployed(fs: Files): Result<Option<PolicyRevision>, StoreError> {
    if DEPLOYED !in fs then Ok(None)
    else if !fs[DEPLOYED].Record? then Err(BadRecord)
    else Ok(Some(fs[DEPLOYED].rev))
  }

  function PolicySetFromDeployed(fs: Files): Result<(seq<Cedar.CedarPolicy>, PolicyRevision), StoreError> {
    match LoadDeployed(fs)
    case Err(e) => Err(e)
    case Ok(None) => Err(NothingDeployed)
    case Ok(Some(rev)) =>
      match CedarText.ParseCedar(rev.cedar)
      case None => Err(BadCedar)
      case Some(cs) => Ok((cs, rev))
  }

  // ----- writing -----

  function Committed(env: Env, fs: Files, message: string, id: string): Result<PolicyRevision, StoreError> {
    match ValidateDsl(env, ReadActive(fs))
    case Err(e) => Err(e)
    case Ok(ps) => Ok(PolicyRevision(id, message, CedarOf(ps), ReadActive(fs), None))
  }

  function HeadRecord(fs: Files): Result<PolicyRevision, StoreError> {
    match HeadRevision(fs)
    case None => Err(NoHead)
    case Some(id) => LoadRevision(fs, id)
  }

  function SignedHead(env: Env, fs: Files, signer: Signer): Result<PolicyRevision, StoreError> {
    match HeadRecord(fs)
    case Err(e) => Err(e)
    case Ok(rev) =>
      Ok(rev.(bundle := Some(SignBundle(env.scheme, signer, rev.revision, rev.cedar, rev.dsl))))
  }

  function Deployable(fs: Files): Result<PolicyRevision, StoreError> {
    match HeadRecord(fs)
    case Err(e) => Err(e)
    case Ok(rev) => if rev.bundle.None? then Err(NotSigned) else Ok(rev)
  }

  datatype Op =
    | WriteActive(dsl: string)
    | WriteDraft(name: string, dsl: string)
    | Commit(message: string, id: string)
    | SignHead(signer: Signer)
    | DeployHead

  /** The files after an operation; an operation that fails changes nothing. */
  function Apply(env: Env, fs: Files, op: Op): Files {
    match op
    case WriteActive(dsl) => fs[ACTIVE := Plain(dsl)]
    case WriteDraft(name, dsl) => fs[DraftPath(name) := Plain(dsl)]
    case Commit(message, id) =>
      (match Committed(env, fs, message, id)
       case Err(_) => fs
       case Ok(rev) => fs[RevisionPath(id) := Record(rev)][HEAD := Plain(id)])
    case SignHead(signer) =>
      (match SignedHead(env, fs, signer)
       case Err(_) => fs
       case Ok(rev) => fs[RevisionPath(HeadRevision(fs).value) := Record(rev)])
    case DeployHead =>
      (match Deployable(fs)
       case Err(_) => fs
       case Ok(rev) => fs[DEPLOYED := Record(rev)])
  }

  // ----- the store as written -----

  class PolicyStore {
    var files: Files
    const env: Env

    constructor (env: Env)
      ensures files == map[] && this.env == env
    {
      this.env := env;
      files := map[];
    }

    method WriteActiveDsl(dsl: string)
      modifies this
      ensures files == Apply(env, old(files), WriteActive(dsl))
    {
      files := files[ACTIVE := Plain(dsl)];
    }

    method WriteDraftDsl(name: string, dsl: string) returns (path: string)
      modifies this
      ensures path == "drafts/" + name + ".dsl" && files == old(files)[path := Plain(dsl)]
      ensures files == Apply(env, old(files), WriteDraft(name, dsl))
    {
      path := DraftPath(name);
      files := files[path := Plain(dsl)];
    }

    method CommitActive(message: string, id: string) returns (r: Result<PolicyRevision, StoreError>)
      modifies this
      ensures r == Committed(env, old(files), message, id)
      ensures files == Apply(env, old(files), Commit(message, id))
    {
      hide CedarText.ParseCedar, Parse;
      var dsl := ReadActive(files);
      var policies := ValidateDsl(env, dsl);
      if policies.Err? {
        return Err(policies.error);
      }
      var cedar := DslToCedar(policies.value);
      var rev := PolicyRevision(id, message, cedar, dsl, None);
      files := files[RevisionPath(id) := Record(rev)];
      files := files[HEAD := Plain(id)];
      return Ok(rev);
    }

    method SignHeadRevision(signer: Signer) returns (r: Result<SignedBundle, StoreError>)
      modifies this
      ensures files == Apply(env, old(files), SignHead(signer))
      ensures match SignedHead(env, old(files), signer)
              case Ok(rev) => r == Ok(rev.bundle.value)
              case Err(e) => r == Err(e)
    {
      var head := HeadRevision(files);
      if head.None? {
        return Err(NoHead);
      }
      var loaded := LoadRevision(files, head.value);
      if loaded.Err? {
        return Err(loaded.error);
      }
      var rev := loaded.value;
      var bundle := SignBundle(env.scheme, signer, rev.revision, rev.cedar, rev.dsl);
      files := files[RevisionPath(head.value) := Record(rev.(bundle := Some(bundle)))];
      return Ok(bundle);
    }

    method DeployHeadRevision() returns (r: Result<PolicyRevision, StoreError>)
      modifies this
      ensures r == Deployable(old(files)) && files == Apply(env, old(files), DeployHead)
    {
      var head := HeadRevision(files);
      if head.None? {
        return Err(NoHead);
      }
      var loaded := LoadRevision(files, head.value);
      if loaded.Err? {
        return Err(loaded.error);
      }
      if loaded.value.bundle.None? {
        return Err(NotSigned);
      }
      files := files[DEPLOYED := Record(loaded.value)];
      return Ok(loaded.value);
    }
  }

  // ----- runs -----

  /** Eight digest bytes in hexadecimal; the same id may come up twice. */
  predicate IsRevisionId(id: string) {
    |id| == 16 && forall i | 0 <= i < 16 :: '0' <= id[i] <= '9' || 'a' <= id[i] <= 'f'
  }

  predicate PlainFileName(name: string) {
    forall i | 0 <= i < |name| :: name[i] != '/' && name[i] != '\\'
  }

  predicate ValidOp(op: Op) {
    match op
    case Commit(_, id) => IsRevisionId(id)
    case WriteDraft(name, _) => PlainFileName(name)
    case _ => true
  }

  function Run(env: Env, fs: Files, ops: seq<Op>): Files
    decreases ops
  {
    if ops == [] then fs else Run(env, Apply(env, fs, ops[0]), ops[1..])
  }

  function Signers(ops: seq<Op>): set<Signer> {
    set op | op in ops && op.SignHead? :: op.signer
  }

  // ----- the invariant -----

  /** The bundle was made from the revision by one of the signers. */
  ghost predicate BundleOk(env: Env, rev: PolicyRevision, signers: set<Signer>) {
    rev.bundle.Some? ==>
      exists s :: s in signers && rev.bundle.value == SignBundle(env.scheme, s, rev.revision, rev.cedar, rev.dsl)
  }

  /** The revision's Cedar is the translation of its own valid, non-empty DSL. */
  ghost predicate RevisionOk(env: Env, rev: PolicyRevision, signers: set<Signer>) {
    && ValidateDsl(env, rev.dsl).Ok? && rev.cedar == CedarOf(ValidateDsl(env, rev.dsl).value)
    && BundleOk(env, rev, signers)
  }

  ghost predicate Invariant(env: Env, fs: Files, signers: set<Signer>) {
    && (HEAD in fs ==> fs[HEAD].Plain? && IsRevisionId(fs[HEAD].text) && RevisionPath(fs[HEAD].text) in fs)
    && (forall id | IsRevisionId(id) && RevisionPath(id) in fs ::
          fs[RevisionPath(id)].Record? && fs[RevisionPath(id)].rev.revision == id
          && RevisionOk(env, fs[RevisionPath(id)].rev, signers))
    && (DEPLOYED in fs ==>
          fs[DEPLOYED].Record? && fs[DEPLOYED].rev.bundle.Some? && RevisionOk(env, fs[DEPLOYED].rev, signers))
  }

  lemma PathsDiffer(id: string, name: string)
    ensures RevisionPath(id) != HEAD && RevisionPath(id) != ACTIVE && RevisionPath(id) != DEPLOYED
    ensures RevisionPath(id) != DraftPath(name)
    ensures DraftPath(name) != HEAD && DraftPath(name) != DEPLOYED
    ensures ACTIVE != HEAD && ACTIVE != DEPLOYED && HEAD != DEPLOYED
  {
    assert RevisionPath(id)[0] == 'r' && DraftPath(name)[0] == 'd' && DraftPath(name)[1] == 'r';
    assert HEAD[0] == 'H' && ACTIVE[0] == 'a' && DEPLOYED[0] == 'd' && DEPLOYED[1] == 'e';
  }

  lemma RevisionPathInjective(a: string, b: string)
    requires RevisionPath(a) == RevisionPath(b)
    ensures a == b
  {
    var p := RevisionPath(a);
    assert |a| == |b|;
    assert p[10..10 + |a|] == a && p[10..10 + |b|] == b;
  }

  lemma RevisionIdTrimmed(id: string)
    requires IsRevisionId(id)
    ensures Trim(id) == id
  {}

  lemma MoreSigners(env: Env, rev: PolicyRevision, a: set<Signer>, b: set<Signer>)
    requires RevisionOk(env, rev, a) && a <= b
    ensures RevisionOk(env, rev, b)
  {
    hide ValidateDsl, SignBundle;
  }

  lemma InvariantMoreSigners(env: Env, fs: Files, a: set<Signer>, b: set<Signer>)
    requires Invariant(env, fs, a) && a <= b
    ensures Invariant(env, fs, b)
  {
    hide RevisionOk, IsRevisionId, RevisionPath;
    forall id | IsRevisionId(id) && RevisionPath(id) in fs
      ensures RevisionOk(env, fs[RevisionPath(id)].rev, b)
    {
      MoreSigners(env, fs[RevisionPath(id)].rev, a, b);
    }
    if DEPLOYED in fs { MoreSigners(env, fs[DEPLOYED].rev, a, b); }
  }

  /** Storing one sound revision keeps all the others sound. */
  lemma StoreRevision(env: Env, fs: Files, id: string, rev: PolicyRevision, signers: set<Signer>)
    requires Invariant(env, fs, signers) && IsRevisionId(id)
    requires rev.revision == id && RevisionOk(env, rev, signers)
    ensures Invariant(env, fs[RevisionPath(id) := Record(rev)], signers)
    ensures Invariant(env, fs[RevisionPath(id) := Record(rev)][HEAD := Plain(id)], signers)
  {
    hide RevisionOk, IsRevisionId, RevisionPath, DraftPath;
    PathsDiffer(id, "");
    var one := fs[RevisionPath(id) := Record(rev)];
    var two := one[HEAD := Plain(id)];
    forall x | IsRevisionId(x) && RevisionPath(x) in two
      ensures RevisionPath(x) in one && two[RevisionPath(x)] == one[RevisionPath(x)]
      ensures one[RevisionPath(x)].Record?
      ensures one[RevisionPath(x)].rev.revision == x && RevisionOk(env, one[RevisionPath(x)].rev, signers)
    {
      PathsDiffer(x, "");
      if RevisionPath(x) == RevisionPath(id) { RevisionPathInjective(x, id); }
    }
  }

  /** The head revision, when it loads, is a sound one stored under its own id. */
  lemma HeadIsSound(env: Env, fs: Files, signers: set<Signer>)
    requires Invariant(env, fs, signers) && HeadRecord(fs).Ok?
    ensures HEAD in fs && fs[HEAD].Plain? && IsRevisionId(fs[HEAD].text) && HeadRevision(fs) == Some(fs[HEAD].text)
    ensures HeadRecord(fs).value.revision == fs[HEAD].text && RevisionOk(env, HeadRecord(fs).value, signers)
  {
    hide RevisionOk, RevisionPath;
    RevisionIdTrimmed(fs[HEAD].text);
  }

  function NewSigners(op: Op): set<Signer> {
    if op.SignHead? then {op.signer} else {}
  }

  lemma SigningIsSound(env: Env, rev: PolicyRevision, signer: Signer, signers: set<Signer>)
    requires RevisionOk(env, rev, signers) && signer in signers
    ensures RevisionOk(env, rev.(bundle := Some(SignBundle(env.scheme, signer, rev.revision, rev.cedar, rev.dsl))), signers)
  {
    hide ValidateDsl, SignBundle;
  }

  lemma CommitIsSound(env: Env, fs: Files, message: string, id: string, signers: set<Signer>)
    requires Committed(env, fs, message, id).Ok?
    ensures Committed(env, fs, message, id).value.revision == id
    ensures RevisionOk(env, Committed(env, fs, message, id).value, signers)
  {
    hide CedarText.ParseCedar, Parse, CedarOf;
  }

  lemma {:induction false} ApplyKeepsInvariant(env: Env, fs: Files, op: Op, signers: set<Signer>)
    requires Invariant(env, fs, signers) && ValidOp(op)
    ensures Invariant(env, Apply(env, fs, op), signers + NewSigners(op))
  {
    hide RevisionOk, IsRevisionId, RevisionPath, DraftPath, Invariant, Committed, HeadRecord;
    var all := signers + NewSigners(op);
    InvariantMoreSigners(env, fs, signers, all);
    match op
    case WriteActive(dsl) => WriteKeepsInvariant(env, fs, op, all);
    case WriteDraft(name, dsl) => WriteKeepsInvariant(env, fs, op, all);
    case Commit(message, id) =>
      if Committed(env, fs, message, id).Ok? {
        CommitIsSound(env, fs, message, id, all);
        StoreRevision(env, fs, id, Committed(env, fs, message, id).value, all);
      }
    case SignHead(signer) =>
      if HeadRecord(fs).Ok? {
        HeadIsSound(env, fs, all);
        SigningIsSound(env, HeadRecord(fs).value, signer, all);
        StoreRevision(env, fs, fs[HEAD].text, SignedHead(env, fs, signer).value, all);
      }
    case DeployHead =>
      if HeadRecord(fs).Ok? && Deployable(fs).Ok? {
        HeadIsSound(env, fs, all);
        DeployKeepsInvariant(env, fs, HeadRecord(fs).value, all);
      }
  }

  lemma DeployKeepsInvariant(env: Env, fs: Files, rev: PolicyRevision, signers: set<Signer>)
    requires Invariant(env, fs, signers) && RevisionOk(env, rev, signers) && rev.bundle.Some?
    ensures Invariant(env, fs[DEPLOYED := Record(rev)], signers)
  {
    hide RevisionOk, IsRevisionId, RevisionPath, DraftPath;
    forall id: string { PathsDiffer(id, ""); }
  }

  /** Paths that hold the head, a revision, or the deployed record. */
  predicate Protected(path: string) {
    path == HEAD || path == DEPLOYED || "revisions/" <= path
  }

  /** Writing the active text or a draft touches no protected file. */
  lemma {:induction false} WritesTouchNothingProtected(env: Env, fs: Files, op: Op, path: string)
    requires op.WriteActive? || op.WriteDraft?
    requires Protected(path)
    ensures path in Apply(env, fs, op) <==> path in fs
    ensures path in fs ==> Apply(env, fs, op)[path] == fs[path]
  {
    hide Trim, Parse;
    PathsDiffer("", if op.WriteDraft? then op.name else "");
    if "revisions/" <= path {
      assert path[0] == 'r' && ACTIVE[0] == 'a';
      if op.WriteDraft? { assert DraftPath(op.name)[0] == 'd'; }
    }
  }

  lemma WriteKeepsInvariant(env: Env, fs: Files, op: Op, signers: set<Signer>)
    requires Invariant(env, fs, signers) && (op.WriteActive? || op.WriteDraft?)
    ensures Invariant(env, Apply(env, fs, op), signers)
  {
    hide RevisionOk, IsRevisionId, Apply, DraftPath;
    WritesTouchNothingProtected(env, fs, op, HEAD);
    WritesTouchNothingProtected(env, fs, op, DEPLOYED);
    forall id
      ensures RevisionPath(id) in Apply(env, fs, op) <==> RevisionPath(id) in fs
      ensures RevisionPath(id) in fs ==> Apply(env, fs, op)[RevisionPath(id)] == fs[RevisionPath(id)]
    {
      assert "revisions/" <= RevisionPath(id);
      WritesTouchNothingProtected(env, fs, op, RevisionPath(id));
    }
  }

  lemma {:induction false} RunKeepsInvariant(env: Env, fs: Files, ops: seq<Op>, signers: set<Signer>)
    requires Invariant(env, fs, signers) && forall op | op in ops :: ValidOp(op)
    ensures Invariant(env, Run(env, fs, ops), signers + Signers(ops))
    decreases ops
  {
    hide Invariant, Apply, ValidOp;
    if ops == [] {
      assert signers + Signers(ops) == signers;
    } else {
      assert ops[0] in ops;
      assert forall op | op in ops[1..] :: op in ops;
      ApplyKeepsInvariant(env, fs, ops[0], signers);
      RunKeepsInvariant(env, Apply(env, fs, ops[0]), ops[1..], signers + NewSigners(ops[0]));
      assert signers + NewSigners(ops[0]) + Signers(ops[1..]) <= signers + Signers(ops);
      InvariantMoreSigners(env, Run(env, fs, ops), signers + NewSigners(ops[0]) + Signers(ops[1..]), signers + Signers(ops));
    }
  }

  lemma EmptyIsInvariant(env: Env)
    ensures Invariant(env, map[], {})
  {}

  /** The lifecycle invariant holds after every run of operations. */
  lemma {:induction false} EveryRunIsSound(env: Env, ops: seq<Op>)
    requires forall op | op in ops :: ValidOp(op)
    ensures Invariant(env, Run(env, map[], ops), Signers(ops))
  {
    hide Invariant, ValidOp;
    EmptyIsInvariant(env);
    RunKeepsInvariant(env, map[], ops, {});
    assert {} + Signers(ops) == Signers(ops);
  }

  // ----- what a run leaves, told by its operations -----

  /** A text can be committed when it parses to some policies whose Cedar text is read and accepted. */
  lemma ValidIff(env: Env, dsl: string, ps: seq<Policy>)
    ensures ValidateDsl(env, dsl) == Ok(ps) <==>
      && Parse(dsl) == Ok(ps) && ps != []
      && CedarText.ParseCedar(CedarOf(ps)).Some? && env.accepts(CedarText.ParseCedar(CedarOf(ps)).value)
  {
    hide CedarText.ParseCedar, Parse, CedarOf;
  }

  lemma {:induction false} RunSnoc(env: Env, fs: Files, ops: seq<Op>, op: Op)
    ensures Run(env, fs, ops + [op]) == Apply(env, Run(env, fs, ops), op)
    decreases ops
  {
    hide Apply;
    if ops == [] {
      assert ops + [op] == [op] && [op][1..] == [];
      assert Run(env, Apply(env, fs, op), []) == Apply(env, fs, op);
    } else {
      assert (ops + [op])[1..] == ops[1..] + [op];
      RunSnoc(env, Apply(env, fs, ops[0]), ops[1..], op);
    }
  }

  lemma {:induction false} RunAppend(env: Env, fs: Files, a: seq<Op>, b: seq<Op>)
    ensures Run(env, fs, a + b) == Run(env, Run(env, fs, a), b)
    decreases b
  {
    hide Apply;
    if b == [] {
      assert a + b == a;
    } else {
      assert a + b == (a + [b[0]]) + b[1..];
      RunSnoc(env, fs, a, b[0]);
      RunAppend(env, fs, a + [b[0]], b[1..]);
    }
  }

  /** The active text is the last one written. */
  function LastWritten(ops: seq<Op>): string {
    if ops == [] then ""
    else
      match ops[|ops| - 1]
      case WriteActive(dsl) => dsl
      case _ => LastWritten(ops[..|ops| - 1])
  }

  /** The head is the last commit of a valid text, with the last signature since. */
  function LastCommitted(env: Env, ops: seq<Op>): Option<PolicyRevision> {
    if ops == [] then None
    else
      var earlier := ops[..|ops| - 1];
      match ops[|ops| - 1]
      case Commit(message, id) =>
        var text := LastWritten(earlier);
        if ValidateDsl(env, text).Ok?
        then Some(PolicyRevision(id, message, CedarOf(ValidateDsl(env, text).value), text, None))
        else LastCommitted(env, earlier)
      case SignHead(signer) =>
        (match LastCommitted(env, earlier)
         case None => None
         case Some(rev) => Some(rev.(bundle := Some(SignBundle(env.scheme, signer, rev.revision, rev.cedar, rev.dsl)))))
      case _ => LastCommitted(env, earlier)
  }

  /** What is deployed is the head as it was at the last deployment of a signed head. */
  function LastDeployed(env: Env, ops: seq<Op>): Option<PolicyRevision> {
    if ops == [] then None
    else
      var earlier := ops[..|ops| - 1];
      var head := LastCommitted(env, earlier);
      if ops[|ops| - 1].DeployHead? && head.Some? && head.value.bundle.Some? then head else LastDeployed(env, earlier)
  }

  ghost predicate StoreHolds(fs: Files, active: string, head: Option<PolicyRevision>, deployed: Option<PolicyRevision>) {
    && ReadActive(fs) == active
    && (match head
        case None => HEAD !in fs
        case Some(rev) =>
          && IsRevisionId(rev.revision) && HEAD in fs && fs[HEAD] == Plain(rev.revision)
          && RevisionPath(rev.revision) in fs && fs[RevisionPath(rev.revision)] == Record(rev))
    && (match deployed
        case None => DEPLOYED !in fs
        case Some(rev) => DEPLOYED in fs && fs[DEPLOYED] == Record(rev))
  }

  lemma HeadHeld(fs: Files, active: string, head: Option<PolicyRevision>, deployed: Option<PolicyRevision>)
    requires StoreHolds(fs, active, head, deployed)
    ensures HeadRecord(fs) == match head case None => Err(NoHead) case Some(rev) => Ok(rev)
    ensures HeadRevision(fs) == match head case None => None case Some(rev) => Some(rev.revision)
    ensures LoadDeployed(fs) == Ok(deployed)
  {
    hide RevisionPath, IsRevisionId;
    if head.Some? { RevisionIdTrimmed(head.value.revision); }
  }

  lemma StepHolds(env: Env, fs: Files, earlier: seq<Op>, op: Op)
    requires ValidOp(op) && StoreHolds(fs, LastWritten(earlier), LastCommitted(env, earlier), LastDeployed(env, earlier))
    ensures var ops := earlier + [op];
            StoreHolds(Apply(env, fs, op), LastWritten(ops), LastCommitted(env, ops), LastDeployed(env, ops))
  {
    hide RevisionPath, DraftPath, IsRevisionId, PlainFileName, ValidateDsl, SignBundle, CedarOf, HeadRevision, HeadRecord;
    var head := LastCommitted(env, earlier);
    assert (earlier + [op])[..|earlier|] == earlier;
    HeadHeld(fs, LastWritten(earlier), head, LastDeployed(env, earlier));
    PathsDiffer(match op case Commit(_, id) => id case _ => if head.Some? then head.value.revision else "",
                if op.WriteDraft? then op.name else "");
    if head.Some? { PathsDiffer(head.value.revision, if op.WriteDraft? then op.name else ""); }
    DraftIsNotActive(if op.WriteDraft? then op.name else "");
  }

  lemma DraftIsNotActive(name: string)
    ensures DraftPath(name) != ACTIVE
  {
    assert DraftPath(name)[0] == 'd' && ACTIVE[0] == 'a';
  }

  /**
   * In every run the active text is the last one written, the head is the last commit of a valid text
   * with its last signature, and the deployed record is the last signed head that was deployed.
   */
  lemma {:induction false} RunLeaves(env: Env, ops: seq<Op>)
    requires forall op | op in ops :: ValidOp(op)
    ensures var fs := Run(env, map[], ops);
            && ReadActive(fs) == LastWritten(ops)
            && HeadRecord(fs) == (match LastCommitted(env, ops) case None => Err(NoHead) case Some(rev) => Ok(rev))
            && LoadDeployed(fs) == Ok(LastDeployed(env, ops))
  {
    hide Run, ValidOp, StoreHolds, HeadRecord, ReadActive, LoadDeployed, LastWritten, LastCommitted, LastDeployed;
    RunHolds(env, ops);
    HeadHeld(Run(env, map[], ops), LastWritten(ops), LastCommitted(env, ops), LastDeployed(env, ops));
    ActiveHeld(Run(env, map[], ops), LastWritten(ops), LastCommitted(env, ops), LastDeployed(env, ops));
  }

  lemma ActiveHeld(fs: Files, active: string, head: Option<PolicyRevision>, deployed: Option<PolicyRevision>)
    requires StoreHolds(fs, active, head, deployed)
    ensures ReadActive(fs) == active
  {}

  lemma {:induction false} RunHolds(env: Env, ops: seq<Op>)
    requires forall op | op in ops :: ValidOp(op)
    ensures StoreHolds(Run(env, map[], ops), LastWritten(ops), LastCommitted(env, ops), LastDeployed(env, ops))
    decreases |ops|
  {
    hide Apply, ValidOp, StoreHolds, LastWritten, LastCommitted, LastDeployed;
    if ops == [] {
      NothingHeld(env);
    } else {
      var n := |ops| - 1;
      assert ops == ops[..n] + [ops[n]];
      RunHolds(env, ops[..n]);
      RunSnoc(env, map[], ops[..n], ops[n]);
      StepHolds(env, Run(env, map[], ops[..n]), ops[..n], ops[n]);
    }
  }

  lemma NothingHeld(env: Env)
    ensures StoreHolds(map[], LastWritten([]), LastCommitted(env, []), LastDeployed(env, []))
  {}

  /**
   * Whatever the store holds, writing a valid text, committing, signing and deploying it leaves that
   * text deployed, under the new id, with its message and a bundle of the signer.
   */
  lemma PublishingDeploys(env: Env, fs: Files, dsl: string, ps: seq<Policy>, message: string, id: string, signer: Signer)
    requires ValidateDsl(env, dsl) == Ok(ps) && IsRevisionId(id)
    ensures var after := Run(env, fs, [WriteActive(dsl), Commit(message, id), SignHead(signer), DeployHead]);
            && ReadActive(after) == dsl && HeadRevision(after) == Some(id)
            && LoadDeployed(after) == Ok(Some(PolicyRevision(id, message, CedarOf(ps), dsl,
                 Some(SignBundle(env.scheme, signer, id, CedarOf(ps), dsl)))))
  {
    hide RevisionPath, IsRevisionId, ValidateDsl, SignBundle, CedarOf;
    PathsDiffer(id, "");
    RevisionIdTrimmed(id);
    var one := fs[ACTIVE := Plain(dsl)];
    var rev := PolicyRevision(id, message, CedarOf(ps), dsl, None);
    var signed := rev.(bundle := Some(SignBundle(env.scheme, signer, id, CedarOf(ps), dsl)));
    var two := one[RevisionPath(id) := Record(rev)][HEAD := Plain(id)];
    var three := two[RevisionPath(id) := Record(signed)];
    assert Apply(env, one, Commit(message, id)) == two;
    assert Apply(env, two, SignHead(signer)) == three;
    assert Apply(env, three, DeployHead) == three[DEPLOYED := Record(signed)];
    FourOps(env, fs, WriteActive(dsl), Commit(message, id), SignHead(signer), DeployHead);
  }

  lemma FourOps(env: Env, fs: Files, a: Op, b: Op, c: Op, d: Op)
    ensures Run(env, fs, [a, b, c, d]) == Apply(env, Apply(env, Apply(env, Apply(env, fs, a), b), c), d)
  {
    hide Apply;
    RunSnoc(env, fs, [], a);
    RunSnoc(env, fs, [a], b);
    RunSnoc(env, fs, [a, b], c);
    RunSnoc(env, fs, [a, b, c], d);
    assert [] + [a] == [a] && [a] + [b] == [a, b] && [a, b] + [c] == [a, b, c] && [a, b, c] + [d] == [a, b, c, d];
    assert Run(env, fs, []) == fs;
  }

  // ----- what is deployed -----

  /** In every reachable state, the deployed policy set is the compilation of the deployed DSL text. */
  lemma {:induction false} DeployedPolicies(env: Env, ops: seq<Op>, ps: seq<Policy>, rev: PolicyRevision)
    requires forall op | op in ops :: ValidOp(op)
    requires LoadDeployed(Run(env, map[], ops)) == Ok(Some(rev))
    requires Parse(rev.dsl) == Ok(ps) && AllPlain(ps)
    ensures PolicySetFromDeployed(Run(env, map[], ops)) == Ok((CedarPoliciesOf(ps), rev))
  {
    hide Run, ValidOp, Parse, CedarText.ParseCedar, CedarOf, AllPlain, AllWellFormed;
    EveryRunIsSound(env, ops);
    var fs := Run(env, map[], ops);
    assert RevisionOk(env, rev, Signers(ops));
    assert rev.cedar == CedarOf(ps);
    CedarReadsBack(ps);
  }

  /**
   * In every reachable state, the decisions of the deployed policy set are the meaning of the DSL
   * text stored in the deployed revision.
   */
  lemma {:induction false} DeployedMeansCommitted(env: Env, ops: seq<Op>, ps: seq<Policy>, rev: PolicyRevision, req: AuthzRequest, host: Host)
    requires forall op | op in ops :: ValidOp(op)
    requires LoadDeployed(Run(env, map[], ops)) == Ok(Some(rev))
    requires Parse(rev.dsl) == Ok(ps) && AllPlain(ps) && Evaluable(req, host)
    ensures var policies := PolicySetFromDeployed(Run(env, map[], ops));
            && policies.Ok? && policies.value.1 == rev
            && var d := Evaluation(req, Config(policies.value.0, rev.revision, None, host));
               d.Ok? && (d.value.allow <==> Permitted(ps, req))
  {
    hide Run, ValidOp, Evaluable, Evaluation, Permitted, Parse, AllPlain, Cedar.Authorize, CedarRequest, AllWellFormed,
      PolicySetFromDeployed, LoadDeployed;
    DeployedPolicies(env, ops, ps, rev);
    ParseWellFormed(rev.dsl);
    WellFormedSubjects(ps);
    AuthorizeIffPermitted(ps, req);
    EvaluationOf(req, Config(CedarPoliciesOf(ps), rev.revision, None, host));
  }

  /** Nothing but a deployment changes the deployed record. */
  lemma {:induction false} OnlyDeployDeploys(env: Env, fs: Files, ops: seq<Op>)
    requires forall op | op in ops :: ValidOp(op) && !op.DeployHead?
    ensures LoadDeployed(Run(env, fs, ops)) == LoadDeployed(fs)
    decreases ops
  {
    hide Apply, ValidOp;
    if ops != [] {
      assert ops[0] in ops;
      assert forall op | op in ops[1..] :: op in ops;
      StepKeepsDeployed(env, fs, ops[0]);
      OnlyDeployDeploys(env, Apply(env, fs, ops[0]), ops[1..]);
    }
  }

  lemma SigningNeedsHead(env: Env, fs: Files, signer: Signer)
    requires SignedHead(env, fs, signer).Ok?
    ensures HeadRevision(fs).Some?
  {
    hide HeadRevision, LoadRevision;
  }

  lemma StepKeepsDeployed(env: Env, fs: Files, op: Op)
    requires ValidOp(op) && !op.DeployHead?
    ensures LoadDeployed(Apply(env, fs, op)) == LoadDeployed(fs)
  {
    hide RevisionPath, DraftPath, Committed, SignedHead, IsRevisionId, PlainFileName, HeadRevision;
    match op
    case WriteActive(dsl) => PathsDiffer("", "");
    case WriteDraft(name, dsl) => PathsDiffer("", name);
    case Commit(message, id) => PathsDiffer(id, "");
    case SignHead(signer) =>
      if SignedHead(env, fs, signer).Ok? {
        SigningNeedsHead(env, fs, signer);
        PathsDiffer(HeadRevision(fs).value, "");
      }
  }

  // ----- what is signed -----

  /**
   * Every bundle stored or deployed on any run verifies under the key of a signer that signed on
   * that run, and with Cedar text of another digest it does not.
   */
  lemma {:induction false} StoredBundlesVerify(env: Env, ops: seq<Op>, rev: PolicyRevision, b: SignedBundle)
    requires forall op | op in ops :: ValidOp(op)
    requires Correct(env.scheme) && rev.bundle == Some(b)
    requires var fs := Run(env, map[], ops);
             LoadDeployed(fs) == Ok(Some(rev)) || exists id :: IsRevisionId(id) && LoadRevision(fs, id) == Ok(rev)
    ensures b.revision == rev.revision && b.cedar == rev.cedar && b.dsl == rev.dsl
    ensures exists s :: s in Signers(ops) && b.keyId == s.keyId
                        && VerifyBundle(env.scheme, b, env.scheme.verifyingKey(s.secret)) == Ok(true)
    ensures forall other, key | env.scheme.digest(other) != env.scheme.digest(b.cedar) ::
              VerifyBundle(env.scheme, b.(cedar := other), key) == Ok(false)
  {
    hide Run, ValidOp, ValidateDsl, VerifyBundle, IsRevisionId, RevisionPath, Correct;
    EveryRunIsSound(env, ops);
    assert RevisionOk(env, rev, Signers(ops));
    var s :| s in Signers(ops) && b == SignBundle(env.scheme, s, rev.revision, rev.cedar, rev.dsl);
    SignedVerifies(env.scheme, s, rev.revision, rev.cedar, rev.dsl);
    forall other, key | env.scheme.digest(other) != env.scheme.digest(b.cedar)
      ensures VerifyBundle(env.scheme, b.(cedar := other), key) == Ok(false)
    {
      TamperingIsRejected(env.scheme, s, rev.revision, rev.cedar, rev.dsl, other, key);
    }
  }
}
