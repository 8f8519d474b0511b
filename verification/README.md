# Verified model of the policy-as-code authorization system

This project models, in Dafny, the behaviour of the authorization system's crates: the policy language
and its compiler to Cedar, the evaluator, the generators that write policies, the catalog that turns
tool calls into requests, the policy store and its signed bundles, the batched audit writer, the
identity cache, and the proxy's handlers under interleaving. `dafny verify dfyconfig.toml` checks
everything. No proof relies on Dafny's automatic induction: every inductive step is written out, and the option
`--manual-lemma-induction` may be added.

## How the pieces fit

* **Language.** `Text`, `Dsl`, `DslPrint`, `DslGrammar`: the line parser as a class whose methods fill a
  partial policy, and as a function over lines; a canonical printer; the parser's image; the language
  itself, by its clauses, its texts and its errors, apart from the parser.
* **Compiler.** `Translate` writes Cedar text; `CedarText` is a lexer and parser for the Cedar fragment
  that text uses; `Cedar` is its evaluator with error values and its authorizer; `TranslateReads` shows
  that the text reads back as the intended policies.
* **Requests.** `Json` reads documents by RFC 8259; `Requests` builds the context document; `Contexts`
  says exactly when and as what it reads back; `Entities` builds the entities that precede it, with their
  parents, and says for which requests that succeeds; `EntityContents` says which entities, parents and
  attributes those are.
* **Meaning.** `Semantics` gives a direct meaning to policies (`Holds`, `Permitted`) and proves that
  translated conditions never err and mean the same; `Evaluator` proves the end-to-end statement from
  source text to decision, the exactness of the evidence, and the algebra of policy sets.
* **Writers and readers of policies.** `Drafts` (three generators), `Suggest` (audit suggestions),
  `Board` (the role and resource matrix).
* **Tool calls.** `Catalog`, `CatalogAgreement`: flattening, dotted lookup, and the request of a call;
  `ToolRequests`: that request member by member; `Rendering`: JSON text reads back; `ToolFilter`: the
  filter, the edited reply and a whole chat turn.
* **Machines.** `Sign` and `Store` (lifecycle over a map of files), `AuditLog` (queue, writer, tables),
  `IdentityCache`, `Engine` (bundle cache and checks), `Interleaving` (concurrent handlers and bundle
  swaps), `Traces` (everything a handler does, in order), `Serving` (from a reachable store to the verdicts
  of a proxy started on it).

Algorithms that the code writes as loops over mutable state are methods here, with the same branches,
each proved equal to a function; the lemmas say of those functions what they compute, in terms of their
inputs and apart from their bodies.

The main results:

* Compiling any parsed policy text of plain names, printing Cedar, parsing it, building the context
  document, reading it and deciding gives Allow exactly when an allow policy holds and no deny or review
  policy does (`Evaluator.SourceMeansPermitted`), for exactly the requests that are valid, have buildable
  entities and a readable document (`Evaluator.EvaluationNeedsContext`, `Entities.EntitiesAcceptedIff`).
* A text parses to a policy list exactly when its lines are those of complete blocks, and the policies are
  what the clauses of each block add up to (`DslGrammar.ParsesTo`, with `DslGrammar.ClauseSpelled` for the
  lines); it fails exactly where its lines stop being those of blocks (`DslGrammar.FailsWith`). The image of
  the parser is the well-formed policies (`DslPrint.ImageIsWellFormed`).
* In every reachable store state the deployed policies mean the DSL text of the deployed revision, and a
  proxy started on it answers by that meaning (`Store.DeployedMeansCommitted`,
  `Serving.ServedMeansCommitted`). Whatever the store held before, writing, committing, signing and deploying
  a valid text makes a proxy answer by that text (`Serving.PublishedIsServed`); after any run the active
  text, the head and the deployed record are the last ones (`Store.RunLeaves`).
* A catalogued call is allowed exactly by the policies on the action and resource kind it is mapped to, and
  a call outside the catalog by those on unknown tools (`ToolFilter.KnownAllowedIff`,
  `ToolFilter.UnknownAllowedIff`).
* In every interleaving the audit tables are one-at-a-time insertion of a prefix of what was sent
  (`AuditLog.CommittedIsPrefix`), the counters balance, the audit queue holds exactly the checks' own
  entries, upstream calls follow allowances, one check uses one bundle, and no uncatalogued tool runs
  unless a policy lets it in (`Interleaving`); each handler's events are exactly those of its route
  (`Traces.EveryTraceIsExact`).

## Where the code and its documentation differ

The model follows the code.

* `docs/POLICY_GUIDE.md:74` asks for zero matching `deny` policies; a matching `review` policy denies as
  well (`crates/authz-policy/src/translate.rs:27`).
* `crates/authz-policy/src/dsl.rs:20` lists group names among the subjects; the code keeps them in a
  separate list, and the two lists are conjoined (`crates/authz-policy/src/translate.rs:50-71`). A
  policy `where subject == SELF` with `or subject in EXECUTIVE_GROUP` therefore needs both.
* `crates/authz-policy/src/dsl.rs:22` says that `unless` roles override a deny; they restrict an allow
  policy in the same way (`crates/authz-policy/src/translate.rs:73-81`).
* `crates/authz-catalog/src/catalog.rs:111` calls the unknown-tool resource deny-by-default. Such a
  call is allowed exactly when its check comes to a decision and, among the policies on `TOOL_INVOKE
  TOOL_UNKNOWN` without `where` lines, some allow policy holds for the principal's roles and no deny or
  review policy does (`ToolFilter.UnknownAllowedIff`; `ToolFilter.UnknownToolAllowed` is an allowed call).
* The parser reports a missing policy name (`crates/authz-policy/src/dsl.rs:59-60`), but the report can
  never be made: a line that starts with `policy ` after trimming always has a name.
* A bundle loaded from a deployed revision carries the signer's key id both as its signature and as its
  key id (`crates/authz-llm-proxy/src/engine.rs:82`, `crates/authz-llm-proxy/src/engine.rs:109-110`).
* Attribute strings of the entities have their quotes escaped and nothing else
  (`crates/authz-core/src/entities.rs:22-34`), unlike those of the context document. A role such as
  `CORP\Finance` is then no Cedar literal and the evaluation panics (`Entities.DomainRoleFails`), and a
  subject kind such as `Sales Rep` is an error (`crates/authz-core/src/entities.rs:135-146`,
  `Entities.SpacedKindFails`), before any policy is read. `Entities.EntitiesAcceptedIff` gives the exact
  condition.
* A choice is told that all its calls were blocked, in place of its content, exactly when `tool_calls` is
  present without an allowed call in it: also when it is null, empty or no array, and no tool was asked
  for (`crates/authz-llm-proxy/src/routes.rs:134-147`, `ToolFilter.ContentReplacedIff`).

## Assumptions

* Ed25519 (section 5.1 of RFC 8032), SHA-256 and base64 (section 4 of RFC 4648) are functions of an
  abstract scheme; what is assumed of them is `Sign.Correct`, and that a signature holds for no other
  message than its own is `Sign.Binding`; a scheme with both exists (`Sign.CorrectSchemeExists`).
* What Cedar accepts as a type name, as the text of an attribute and as a set of entities is a parameter;
  `Entities.IsCedar` states what is assumed of it where an exact condition is proved, among it that
  entities are accepted exactly when their parents form no cycle, and such a library exists
  (`Entities.CedarExists`). A panic while attributes are parsed ends the request like an error.
* The context document is read by RFC 8259, and a repeated member name is taken to be an error, which
  section 4 leaves open: a reader that kept the last member would let a context key replace `subject_id`.
  Cedar's own escape members (`__entity`, `__extn`, `__expr`) are not given a meaning of their own.
* The schema validator is an arbitrary predicate on policies; revision ids are arbitrary strings of 16
  hexadecimal digits and may repeat; clocks, decision ids, serialized decisions, the parser of tool
  arguments and upstream replies are parameters.
* The database does not fail, a transaction is atomic for readers, and the channel is a FIFO queue.

## Model

| member | source | states |
|---|---|---|
| Dsl.Partial.ParseWhen | crates/authz-policy/src/dsl.rs:179-191 | a `when` clause appends its roles to the partial policy and changes nothing else, or fails and changes nothing |
| Dsl.Partial.ParseActionResource | crates/authz-policy/src/dsl.rs:193-203 | the first two words, upper-cased, become action and resource; fewer than two are an error |
| Dsl.Partial.ParseWhere | crates/authz-policy/src/dsl.rs:205-229 | a `where` or `or` clause appends to the subject list or to the group list |
| Dsl.Partial.ParseUnless | crates/authz-policy/src/dsl.rs:231-242 | an `unless` clause appends its roles |
| Dsl.Partial.FinishPolicy | crates/authz-policy/src/dsl.rs:155-176 | a partial policy is complete when it has effect, action and resource, reported missing in that order |
| Dsl.Partial.ParseStatement | crates/authz-policy/src/dsl.rs:71-102 | one statement line of an open policy, in all eight forms and the unknown one; an error changes nothing but the effect that its keyword names |
| Dsl.ParseDsl | crates/authz-policy/src/dsl.rs:44-109 | the loop over lines computes the fold of the line step, with the first error in line order |
| Dsl.NameAlwaysFound | crates/authz-policy/src/dsl.rs:55-60 | the missing-name error is never reported |
| Dsl.RunDependsOnEffective | crates/authz-policy/src/dsl.rs:48-52 | parsing depends on each line only through its text without comment and surrounding blanks, up to `raw` |
| Dsl.ParseTrailingBreak | crates/authz-policy/src/dsl.rs:48-52 | a line break at the end of the text changes nothing, up to `raw` after a carriage return |
| Dsl.ParseAppend | crates/authz-policy/src/dsl.rs:44-109 | when the second text opens a policy first, the joined text parses iff both parse, and yields both lists in order |
| Dsl.ParseBlock | crates/authz-policy/src/dsl.rs:55-69 | the lines of one block yield exactly the policy they spell out |
| DslGrammar.ClauseSpelled | crates/authz-policy/src/dsl.rs:71-102 | a line inside a policy is read as a clause if and only if it spells that clause: the keywords, `or` like `where`, both role forms, the three subject forms, groups with any number of `_GROUP` suffixes, and upper-cased action and resource |
| DslGrammar.OrSaysAsWhere | crates/authz-policy/src/dsl.rs:90-97 | a line with `or` says exactly what it says with `where` |
| DslGrammar.ErrorsNameLines | crates/authz-policy/src/dsl.rs:71-102 | a line that starts with a keyword and is no clause is reported under its number with the part that could not be read |
| DslGrammar.CommentsIgnored | crates/authz-policy/src/dsl.rs:112-116 | what follows a `#` plays no part |
| DslGrammar.ListReads | crates/authz-policy/src/dsl.rs:244-252 | the items of a bracketed list come out trimmed, in order, for any items without comma or outer bracket |
| DslGrammar.ListItems | crates/authz-policy/src/dsl.rs:244-252 | a list has exactly its items that are not blank, trimmed |
| DslGrammar.OpenerSpelled | crates/authz-policy/src/dsl.rs:118-126 | a policy's name is what stands between the quotes, or the first word |
| DslGrammar.ParsesTo | crates/authz-policy/src/dsl.rs:44-109 | a text parses to a policy list iff its lines that are not blank are those of complete blocks, each policy having the last head of its block, its roles, subjects and groups in order, and its lines as they were written |
| DslGrammar.FailsWith | crates/authz-policy/src/dsl.rs:44-176 | a text fails with an error iff that error is found where its lines stop being those of blocks: the first line outside a policy or outside the language, or a policy without a head |
| DslGrammar.NeverReported | crates/authz-policy/src/dsl.rs:55-176 | no text is reported to lack a name, an action or a resource |
| DslPrint.ParseWellFormed | crates/authz-policy/src/dsl.rs:179-252 | every parsed policy has upper-case, blank-free action and resource, and names without comment signs, line breaks or surrounding blanks |
| DslPrint.ParsePrint | crates/authz-policy/src/dsl.rs:44-252 | printing any well-formed policy list, with `where` for the first condition on the subject and `or` for the others, and parsing it gives the list back up to `raw` |
| DslPrint.ImageIsWellFormed | crates/authz-policy/src/dsl.rs:44-252 | a policy list is some text's parse, up to `raw`, if and only if it is well-formed |
| Cedar.AuthorizeIff | crates/authz-core/src/evaluate.rs:153-178 | a decision is Allow iff some permit applies and no forbid does; a policy that errs does not apply |
| Translate.RoleChecks | crates/authz-policy/src/translate.rs:40-48 | the joined role tests of a clause |
| Translate.SubjectChecks | crates/authz-policy/src/translate.rs:51-61 | the joined subject tests, with `SELF` and `DIRECT_REPORTS` as flags |
| Translate.GroupChecks | crates/authz-policy/src/translate.rs:63-71 | the joined group tests |
| Translate.TranslateOne | crates/authz-policy/src/translate.rs:24-103 | the text of one policy, its condition a conjunction of the parts in order |
| Translate.DslToCedar | crates/authz-policy/src/translate.rs:9-17 | the whole document: header and policies in order |
| TranslateReads.CedarReadsBack | crates/authz-policy/src/translate.rs:9-103 | the document parses to one Cedar policy per DSL policy, with the intended id, effect, action and condition tree, for all names without quote, backslash or carriage return |
| Json.EscapeOnePass | crates/authz-core/src/evaluate.rs:125-127 | the two replacements do not interfere: together they escape each character once |
| Json.ReadEscaped | crates/authz-core/src/evaluate.rs:125-127 | an escaped string reads back as itself, and is readable iff it has no control character |
| Requests.FindDirectReport | crates/authz-core/src/evaluate.rs:47-62 | the search finds out whether some relationship of kind manager-of or direct-reports leads from the principal to the subject |
| Requests.ValidateReports | crates/authz-core/src/request.rs:82-99 | a request is refused for the first of principal id, action and resource kind that holds nothing but whitespace |
| Requests.BuildContextJson | crates/authz-core/src/evaluate.rs:64-123 | the document is the object of the request's members in order, with escaped names and values |
| Contexts.ContextReadsBack | crates/authz-core/src/evaluate.rs:64-127 | the document reads as exactly the intended record if nothing in it holds a control character and context keys are distinct and not reserved, and is rejected otherwise |
| Contexts.ContextEntries | crates/authz-core/src/evaluate.rs:64-123 | the record has the eight fixed entries, each given in terms of the request, and one entry per context value, and no other |
| Entities.BuildEntities | crates/authz-core/src/entities.rs:37-210 | the entity stage: principal, groups, subject and resource with their identities and parents in the order they are added, after the texts of their attributes and the subject's type, or the first failure in the order of the code |
| Entities.FateIsReading | crates/authz-core/src/entities.rs:22-34 | with only its quotes escaped, a string is the whole inside of a Cedar literal, or breaks it, or spills over its end, as a scan of its backslashes says |
| Entities.NodesAcyclicIff | crates/authz-core/src/entities.rs:90-207 | the entities of a request form no cycle of parents, whatever the group members are, unless the subject is its own parent |
| Entities.EntitiesAcceptedIff | crates/authz-core/src/entities.rs:22-210 | the entities are built iff every attribute string reads back as a literal, the subject's kind is a type name and the subject is not its own parent |
| Entities.PlainEntitiesAccepted | crates/authz-core/src/entities.rs:90-210 | that is so for all strings without backslash and carriage return and an ordinary subject kind, whatever the groups |
| Entities.DomainRoleFails | crates/authz-core/src/entities.rs:22-34 | with the role `CORP\Finance`, behind roles that read back, the entity stage ends in the panic |
| Entities.SpacedKindFails | crates/authz-core/src/entities.rs:135-146 | with the subject kind `Sales Rep` the entities are never built |
| EntityContents.EntitiesAre | crates/authz-core/src/entities.rs:90-207 | the entities are principal, subject, resource and action, and each group that is listed, linked or configured |
| EntityContents.ParentsAre | crates/authz-core/src/entities.rs:47-174 | the parents of principal and subject are the groups they list, those a membership makes them members of, and those of the configuration |
| EntityContents.OwnParentIff | crates/authz-core/src/entities.rs:135-155 | only a subject of kind `Group` can be its own parent, when it lists itself or is made a member of itself |
| EntityContents.AttributesWholeIff | crates/authz-core/src/entities.rs:90-174 | the strings that must read back are those of principal, subject and resource and the other ends of the principal's management edges |
| EntityContents.StageFails | crates/authz-core/src/entities.rs:37-210 | which failure comes first: the panic of an attribute of principal or subject, the subject's kind, the panic of an attribute of the resource, or a cycle |
| Semantics.TranslatedNeverErrs | crates/authz-policy/src/translate.rs:30-86 | type soundness: every translated condition evaluates to a truth value on every request's record |
| Semantics.AppliesIffHolds | crates/authz-policy/src/translate.rs:24-103 | a translated policy applies iff the policy holds, and its `Action::` head never disagrees with its action test |
| Semantics.HoldsIff | crates/authz-policy/src/translate.rs:30-84 | what it means that a policy holds, in terms of the request alone |
| Semantics.AuthorizeIffPermitted | docs/POLICY_GUIDE.md:69-74 | deny by default, forbid wins: the decision on translated policies is the direct meaning of the policies |
| Semantics.NoErrors | crates/authz-core/src/evaluate.rs:172-175 | no translated policy ever contributes a diagnostic |
| Evaluator.Evaluate | crates/authz-core/src/evaluate.rs:130-216 | validation, entities, context, authorization, matched policies, determining policy and notes of one evaluation |
| Evaluator.EvaluationNeedsContext | crates/authz-core/src/evaluate.rs:130-151 | an evaluation succeeds iff the request is valid, its entities can be built and its document is readable |
| Evaluator.OrdinaryRequestsEvaluable | crates/authz-core/src/evaluate.rs:130-151 | valid requests of ordinary strings with context keys of their own are always evaluated |
| Evaluator.CompiledMeansPermitted | crates/authz-policy/src/translate.rs:9-103 | compiler correctness for policy lists, through text and document |
| Evaluator.SourceMeansPermitted | crates/authz-policy/src/translate.rs:9-22 | compiler correctness from source text to decision |
| Evaluator.DirectReportsPolicyAllows | crates/authz-core/src/evaluate.rs:47-62 | a policy for direct reports alone allows a request of its action and kind iff a management edge leads from the principal to the subject |
| Evaluator.SelfPolicyAllows | crates/authz-core/src/evaluate.rs:40-45 | a policy for the principal itself alone allows a request of its action and kind iff the subject's id is the principal's |
| Evaluator.CaseIrrelevant | crates/authz-core/src/evaluate.rs:66-73 | for requests that differ only in the case of action and resource kind, one is evaluated iff the other is, and both are decided alike |
| Evaluator.RawIrrelevant | crates/authz-policy/src/dsl.rs:26 | the kept source text has no part in compilation or decisions |
| Evaluator.EvidenceIsExact | crates/authz-core/src/evaluate.rs:156-192 | the evidence names exactly the policies that decided, in policy order, with the determining one first, and notes default denial only |
| Evaluator.OrderIrrelevant | crates/authz-policy/src/translate.rs:24-84 | decisions are invariant under permutation and duplication of policies |
| Evaluator.AddingDenials | crates/authz-policy/src/translate.rs:25-28 | adding deny and review policies denies exactly the requests they hold for and changes nothing else |
| Evaluator.AddingAllowances | crates/authz-policy/src/translate.rs:25-28 | adding allow policies never turns Allow into Deny |
| Evaluator.MoreRolesKeepAccess | crates/authz-policy/src/translate.rs:40-84 | without `unless` on allows and `when` on denials, more roles never lose access |
| Catalog.IndexMap.Insert | crates/authz-catalog/src/catalog.rs:83-89 | insertion replaces in place or appends, as an insertion-ordered map does |
| Catalog.FlattenJsonArgs | crates/authz-catalog/src/catalog.rs:211-239 | the recursive flattener's effect on the shared map |
| Catalog.FlattenInsertsLeaves | crates/authz-catalog/src/catalog.rs:211-239 | flattening is insertion of the tree's non-null leaves under their joined paths, in order |
| Catalog.ExtractNestedArg | crates/authz-catalog/src/catalog.rs:241-254 | the walk along a dotted path |
| CatalogAgreement.LeavesAreLeafPaths | crates/authz-catalog/src/catalog.rs:213-237 | the leaves are exactly the paths that lead to a string, number, flag or array |
| CatalogAgreement.FlattenIsExact | crates/authz-catalog/src/catalog.rs:211-239 | without `_` in keys the flattened map adds exactly one entry per leaf, all keys distinct |
| CatalogAgreement.FlattenedLeaf | crates/authz-catalog/src/catalog.rs:211-239 | the entry under a leaf's joined path is that leaf's text |
| CatalogAgreement.ExtractIsLookup | crates/authz-catalog/src/catalog.rs:241-254 | dotted lookup finds what the path leads to once leading `args` and then `$` components are dropped |
| CatalogAgreement.FlattenAgreesWithExtract | crates/authz-catalog/src/catalog.rs:211-254 | both ways of reading a scalar argument agree on every tree whose keys hold no `_` or `.`, unless the path starts at a root name |
| CatalogAgreement.RootedIffAgrees | crates/authz-catalog/src/catalog.rs:241-254 | the exact condition: for a path without `_` and `.`, both ways agree on every tree iff the path does not start at a root name with more components behind it |
| CatalogAgreement.AuthzForTool | crates/authz-catalog/src/catalog.rs:57-129 | the request of a tool call, catalogued or not |
| ToolRequests.KnownToolRequest | crates/authz-catalog/src/catalog.rs:57-104 | the request of a catalogued call has the action and resource kind of the first mapping of that name, and the id that the mapped argument holds as a string |
| ToolRequests.KnownToolAttributes | crates/authz-catalog/src/catalog.rs:64-82 | each attribute is the catalogued resource's own, else its sensitivity or department, else the tool's default; without a resource of that id or kind the defaults remain |
| ToolRequests.ToolContext | crates/authz-catalog/src/catalog.rs:83-94 | a mapped context key holds what its path leads to; otherwise `tool_name` holds the name and each argument's key its text |
| ToolRequests.UnknownToolRequestIs | crates/authz-catalog/src/catalog.rs:111-129 | the request of a call outside the catalog, member by member |
| ToolRequests.ScalarTexts | crates/authz-catalog/src/catalog.rs:217-253 | the texts that argument values are given as, flattened and looked up |
| Rendering.RenderRoundTrip | crates/authz-catalog/src/catalog.rs:230-252 | the compact text of any tree is a JSON document that reads as that tree |
| Rendering.ArrayTextReads | crates/authz-catalog/src/catalog.rs:230-233 | the text an array is flattened to reads back as its items |
| CatalogAgreement.ToolRequestAcceptable | crates/authz-catalog/src/catalog.rs:85-96 | whatever its arguments are, a tool call's context keys are distinct and use no name of the context document, unless the catalog maps one |
| Drafts.DraftPoliciesFromGroups | crates/authz-identity/src/adapters.rs:360-395 | the LDAP generator's text |
| Drafts.DefaultDraftsFromGroups | crates/authz-identity/src/idp.rs:22-58 | the identity-provider generator's text |
| Drafts.GenerateAutoDiscoveredDraftPolicies | crates/authz-identity/src/idp.rs:596-631 | the auto-discovery generator's text |
| Drafts.LdapDrafts | crates/authz-identity/src/adapters.rs:360-395 | the policies drafted for a group: the own profile for its role, and the two denials iff `EXECUTIVE` or `PAYROLL` occurs in its upper-cased name |
| Drafts.IdpDrafts | crates/authz-identity/src/idp.rs:22-58 | the same for an identity provider, with `EXEC` or `FINANCE`, and underscores for blanks |
| Drafts.AutoDiscoveredDrafts | crates/authz-identity/src/idp.rs:596-631 | the same for discovered groups |
| Drafts.DraftsParse | crates/authz-identity/src/idp.rs:22-58 | each generator's text parses to exactly the intended policies in group order |
| Drafts.DraftsAllow | crates/authz-identity/src/adapters.rs:360-395 | compiled alone, the intended policies allow a request iff it reads the principal's own profile and the principal holds a role equal to a group id |
| Drafts.DraftTextAllows | crates/authz-identity/src/idp.rs:596-631 | the same from the generated text to the decision |
| Suggest.CountDenials | crates/authz-suggest/src/lib.rs:45-54 | the exact number of denials of every upper-cased pair |
| Suggest.DenyCountIs | crates/authz-suggest/src/lib.rs:45-54 | a pair's count is the number of records that deny it, compared in upper case |
| Suggest.SuggestFromAudit | crates/authz-suggest/src/lib.rs:42-75 | one suggestion per pair with at least two denials, with the exact count, and no other |
| Suggest.SuggestionSays | crates/authz-suggest/src/lib.rs:59-69 | name, rationale and text of a suggestion |
| Suggest.NatTextReads | crates/authz-suggest/src/lib.rs:65-69 | counts are written in decimal without leading zeros |
| Suggest.SuggestionParses | crates/authz-suggest/src/lib.rs:59-66 | a suggestion's text parses to one unconditional deny of the pair |
| Suggest.SuggestionDeniesPair | crates/authz-suggest/src/lib.rs:42-75 | adding it denies all requests of the pair and changes no other decision |
| Suggest.SuggestionTextDenies | crates/authz-suggest/src/lib.rs:59-66 | the same for the policies parsed from the suggestion's text |
| Suggest.SuggestionCompilable | crates/authz-suggest/src/lib.rs:59-66 | a plain suggestion compiles along with any plain policies |
| Board.BuildMatrix | crates/authz-board/src/lib.rs:23-78 | roles and resources without repetition, `*` only when no role is mentioned, cells the full row-major product, each listing its policies |
| Board.MatrixRows | crates/authz-board/src/lib.rs:23-43 | rows are the roles that `when` or `unless` lines name, or `*`, and columns the resources of the policies |
| Board.CellLists | crates/authz-board/src/lib.rs:45-71 | a cell lists the policies on its resource that are for all roles or name its role |
| Board.SummaryNames | crates/authz-board/src/lib.rs:56-64 | a policy is summed up by its effect and its id |
| Board.BlankMeansDenied | crates/authz-board/src/lib.rs:45-71 | if all of a principal's roles are rows and their cells for a resource list nothing, every request on that resource is denied |
| Sign.SignedVerifies | crates/authz-policy/src/sign.rs:85-127 | a signed bundle verifies under its signer's key |
| Sign.TamperingIsRejected | crates/authz-policy/src/sign.rs:105-112 | with Cedar text of another digest no key verifies it |
| Sign.VerifiesIff | crates/authz-policy/src/sign.rs:85-127 | with another revision or Cedar text a bundle verifies iff revision and digest are the signed ones |
| Sign.DslIsNotSigned | crates/authz-policy/src/sign.rs:91-102 | the DSL text and the key id of a bundle are outside the signature |
| Store.PolicyStore.WriteActiveDsl | crates/authz-policy/src/store.rs:50-53 | overwrites the active text only |
| Store.PolicyStore.WriteDraftDsl | crates/authz-policy/src/store.rs:159-163 | overwrites one draft only |
| Store.PolicyStore.CommitActive | crates/authz-policy/src/store.rs:74-95 | stores the validated active text with its translation under a new id and moves HEAD, or fails and changes nothing |
| Store.PolicyStore.SignHeadRevision | crates/authz-policy/src/store.rs:97-107 | attaches a bundle to the head revision, or fails and changes nothing |
| Store.PolicyStore.DeployHeadRevision | crates/authz-policy/src/store.rs:109-124 | copies a signed head revision to the deployed record, or fails and changes nothing |
| Store.ValidIff | crates/authz-policy/src/store.rs:63-72 | a text is valid iff it parses to some policies whose Cedar text is read and accepted |
| Store.ApplyKeepsInvariant | crates/authz-policy/src/store.rs:50-163 | every operation keeps the lifecycle invariant, for any revision id |
| Store.EveryRunIsSound | crates/authz-policy/src/store.rs:50-163 | in every run HEAD names a stored revision, every revision's Cedar translates its own valid non-empty DSL, bundles match their revision, and the deployed record carries one |
| Store.RunLeaves | crates/authz-policy/src/store.rs:50-163 | after any run the active text is the last one written, the head the last commit of a valid text with its last signature, and the deployed record the last signed head that was deployed |
| Store.PublishingDeploys | crates/authz-policy/src/store.rs:50-124 | from any files, writing a valid text, committing, signing and deploying leaves it deployed under the new id with its message and a bundle of the signer |
| Store.WritesTouchNothingProtected | crates/authz-policy/src/store.rs:159-163 | active and plain-named draft writes never change HEAD, revisions or the deployed record |
| Store.OnlyDeployDeploys | crates/authz-policy/src/store.rs:109-124 | no other operation, in any number, changes what is deployed |
| Store.DeployedPolicies | crates/authz-policy/src/store.rs:151-157 | the deployed policy set is the compilation of the deployed DSL text |
| Store.DeployedMeansCommitted | crates/authz-policy/src/store.rs:151-157 | the decisions of the deployed set are the meaning of the deployed DSL text in every reachable state |
| Store.StoredBundlesVerify | crates/authz-policy/src/store.rs:97-107 | every bundle stored or deployed on any run verifies under the key of a signer of that run, and not with Cedar text of another digest |
| AuditLog.AuditDatabase.EnqueueAudit | crates/authz-store/src/db.rs:207-210 | appends to the queue |
| AuditLog.AuditDatabase.Drain | crates/authz-store/src/db.rs:54-61 | takes 1 to 64 writes in order and stops short of 64 only on an empty channel |
| AuditLog.AuditDatabase.WriteBatch | crates/authz-store/src/db.rs:62-91 | one transaction equals one-at-a-time replace-insertion of the batch after everything written before |
| AuditLog.AuditDatabase.Write | crates/authz-store/src/db.rs:53-92 | for every schedule of arrivals the writer thread inserts everything sent, in order, in batches of 1 to 64 |
| AuditLog.AuditDatabase.RecentAudit | crates/authz-store/src/db.rs:213-242 | the last write of each decision ever written, newest first, up to the limit |
| AuditLog.AuditDatabase.GetEvidence | crates/authz-store/src/db.rs:244-257 | the evidence of the decision's last write, or none if it was never written |
| AuditLog.InsertedRows | crates/authz-store/src/migrations.rs:26-39 | after any insertions the log holds exactly the last write of each decision id, with keys in send order |
| AuditLog.InsertedIds | crates/authz-store/src/db.rs:63-88 | both tables hold the same decision ids with equal evidence and time |
| AuditLog.RecentIsNewestFirst | crates/authz-store/src/db.rs:217-241 | the listing is the last writes, latest first, all of them unless the limit is reached |
| AuditLog.NewestFirstDistinct | crates/authz-store/src/db.rs:217-241 | no decision is listed twice |
| AuditLog.EveryDecisionListed | crates/authz-store/src/db.rs:217-241 | a listing below its limit has every decision sent |
| AuditLog.EvidenceIsLastWrite | crates/authz-store/src/db.rs:82-88 | the evidence kept is that of the decision's last write |
| AuditLog.EvidenceKept | crates/authz-store/src/db.rs:82-88 | after any insertions evidence is kept for exactly the decisions written, and is that of the last write |
| AuditLog.CommittedIsPrefix | crates/authz-store/src/db.rs:45-97 | in every interleaving of producers and writer, what readers see is one-at-a-time insertion of a prefix of the send order, cut into batches of 1 to 64, with both tables agreeing |
| AuditLog.DrainedListsNewest | crates/authz-store/src/db.rs:183-242 | once drained, the tables hold everything sent and the listing is newest last write first |
| AuditLog.WriterCatchesUp | crates/authz-store/src/db.rs:53-92 | from every reachable state the writer alone drains the queue in a bounded number of steps |
| IdentityCache.FindIsLookup | crates/authz-identity/src/cache.rs:29-65 | after any run on a monotone clock a lookup is the last un-invalidated put within its time to live |
| IdentityCache.LookupIs | crates/authz-identity/src/cache.rs:29-65 | that lookup finds an identity iff it is of the last put of its key, nothing invalidated it since and its time to live has not passed |
| IdentityCache.ClearingIsUnobservable | crates/authz-identity/src/cache.rs:61-64 | erasing every `clear_expired` from a run changes no later lookup |
| IdentityCache.Cache.Get | crates/authz-identity/src/cache.rs:29-36 | the identity of the last put in the history, which has no trace of clearing |
| IdentityCache.Cache.GetWithProvenance | crates/authz-identity/src/cache.rs:38-45 | the same with its provenance |
| IdentityCache.Cache.PutEntry | crates/authz-identity/src/cache.rs:47-56 | records a put in the history |
| IdentityCache.Cache.InvalidateKey | crates/authz-identity/src/cache.rs:58-60 | records an invalidation in the history |
| IdentityCache.Cache.RetainFresh | crates/authz-identity/src/cache.rs:62-65 | leaves the history as it is and keeps fresh entries only |
| Engine.AuthzEngine.Check | crates/authz-llm-proxy/src/engine.rs:121-137 | the verdict of the one loaded bundle, audited once under its key when it is a decision |
| Engine.AuthzEngine.IsReady | crates/authz-llm-proxy/src/engine.rs:139-145 | ready iff the bundle is signed enough |
| Engine.AuthzEngine.AllowOrForbid | crates/authz-llm-proxy/src/engine.rs:147-160 | an allowing decision, or a forbidden error that carries the decision, audited either way |
| Engine.ReadyMeansChecksRun | crates/authz-llm-proxy/src/engine.rs:121-145 | readiness is exactly that no check is turned away as not ready |
| Engine.VerdictNamesItsBundle | crates/authz-core/src/hot_cache.rs:21-29 | a verdict carries its bundle's revision and signature, its audit entry the bundle's revision and key |
| Engine.VerdictMeansPermitted | crates/authz-llm-proxy/src/engine.rs:121-137 | on compiled policies a check errs exactly when unsigned or not evaluable, and otherwise answers by the policies' meaning |
| ToolFilter.Proxy.JudgeCall | crates/authz-llm-proxy/src/routes.rs:169-199 | one call: request, counters, verdict, audit entry, and execution only when allowed |
| ToolFilter.CallReads | crates/authz-llm-proxy/src/routes.rs:169-193 | a call is judged and run by the strings at `function/name`, `function/arguments` and `id`, with the defaults for what is absent, no string or unreadable |
| ToolFilter.CallIsAsWritten | crates/authz-llm-proxy/src/routes.rs:169-193 | a call with three such strings and readable arguments is judged and run by exactly those |
| ToolFilter.Proxy.FilterToolCalls | crates/authz-llm-proxy/src/routes.rs:159-202 | result, counters, audit entries and executed calls of the loop, also when a check errs half-way |
| ToolFilter.FilterIsExact | crates/authz-llm-proxy/src/routes.rs:168-201 | the filter succeeds iff no check errs, and then keeps exactly the allowed calls in order |
| ToolFilter.UnknownAllowedIff | crates/authz-catalog/src/catalog.rs:111-128 | the exact condition: a call outside the catalog is allowed iff its check comes to a decision, some allow policy on unknown tools without `where` lines holds for the roles, and no deny or review policy does |
| ToolFilter.KnownAllowedIff | crates/authz-catalog/src/catalog.rs:57-104 | the same for a catalogued call, with the policies on the action and resource kind of its mapping |
| ToolFilter.UnknownToolAllowed | crates/authz-catalog/src/catalog.rs:111-128 | one unrestricted allow policy lets an unknown tool through |
| ToolFilter.UnknownToolsNeverAllowed | crates/authz-catalog/src/catalog.rs:111-128 | where the policies do not let the roles in, no call outside the catalog is allowed, whatever its name and arguments |
| ToolFilter.Proxy.FilterReply | crates/authz-llm-proxy/src/routes.rs:131-151 | every choice is edited, the executed calls and audit entries are those of the calls judged before the first error, and each counter rises by the entries of its outcome |
| ToolFilter.Proxy.ClearText | crates/authz-llm-proxy/src/routes.rs:61-93 | the check of the user text, its audit entry and its counters; it stops the turn unless the text is empty or allowed |
| ToolFilter.ForwardedIff | crates/authz-llm-proxy/src/routes.rs:61-93 | a turn is forwarded iff its text is empty or the request bound from it is allowed |
| ToolFilter.ReplyCarriesExactlyAllowed | crates/authz-llm-proxy/src/routes.rs:131-151 | in the edited reply each of the `choices` holds under `message/tool_calls` exactly its allowed calls, or the notice under `message/content` when there is none, and the rest of the reply is unchanged |
| ToolFilter.RestOfChoiceKept | crates/authz-llm-proxy/src/routes.rs:134-147 | filtering touches nothing of a choice but the calls and, when none is left, the content |
| ToolFilter.ContentReplacedIff | crates/authz-llm-proxy/src/routes.rs:134-147 | the content is replaced by the notice iff `tool_calls` is present, in any shape, and none of its calls is allowed |
| ToolFilter.Proxy.ChatCompletions | crates/authz-llm-proxy/src/routes.rs:53-157 | one turn: the first reason to stop it, nothing forwarded or run before the text is allowed or found empty, streamed replies unfiltered, executed calls and audit entries exactly those of its checks, and each counter rising by the entries of its outcome, with one more check when one erred |
| Interleaving.MoveBalances | crates/authz-llm-proxy/src/routes.rs:69-95 | each atomic step of a handler keeps its own balance of checks, allowing and denying decisions, and upstream calls |
| Interleaving.CountersConserved | crates/authz-llm-proxy/src/routes.rs:183-234 | in every interleaving checks minus allows minus denies is the number of counted checks in flight or ended in an error, allows and denies are the numbers of counted decisions of their kind, and upstream calls are counted |
| Interleaving.ChecksAuditedOnce | crates/authz-llm-proxy/src/engine.rs:128-136 | in every interleaving of chats, checks, retrievals and bundle swaps the audit entries sent are, as a multiset, each decided check's own entry once, or none without a store |
| Interleaving.EveryRunIsSound | crates/authz-llm-proxy/src/routes.rs:53-234 | the invariant of handlers, audit queue and stored bundles holds in every interleaving |
| Interleaving.UpstreamFollowsAllowance | crates/authz-llm-proxy/src/routes.rs:62-95 | each upstream call follows an allowance of the user's own text in the same chat, unless that text was empty |
| Interleaving.ChecksUseOneBundle | crates/authz-llm-proxy/src/engine.rs:121-137 | while bundles are swapped, one check uses a single stored bundle for policies, revision, signature and the key of the entry it queues, a signed one when required, and every entry queued is one such check's |
| Interleaving.ToolsRunExactlyWhenAllowed | crates/authz-llm-proxy/src/routes.rs:159-202 | an answered chat judged every call of its reply in order and ran exactly the kept ones, each after its own allowance |
| Interleaving.UnknownToolsNeverSurvive | crates/authz-catalog/src/catalog.rs:111-128 | if no stored bundle lets a chat's principal invoke unknown tools, in every interleaving no uncatalogued call is allowed in that chat and none is run |
| Traces.EveryTraceIsExact | crates/authz-llm-proxy/src/routes.rs:53-234 | in every interleaving the events of a handler are exactly those of its route: one check, a retrieval answered only when allowed, or a chat's text check, its one forward, and each call of the reply checked and then run if allowed; a stopped handler did no more than its refusal allows |
| Traces.EndsOnlySo | crates/authz-llm-proxy/src/routes.rs:53-234 | no handler gets stuck, it errs only when its check does, and it stops only when refused, without a request or without a reply |
| Traces.CallRequestIs | crates/authz-llm-proxy/src/routes.rs:169-182 | a handler asks about a call by the strings at its name and arguments |
| Serving.DeployedIsSigned | crates/authz-policy/src/store.rs:115-119 | a deployed revision is a signed one in every reachable state |
| Serving.ServedMeansCommitted | crates/authz-llm-proxy/src/engine.rs:82-119 | a proxy started on any reachable store with a deployed revision is ready and answers by the meaning of that revision's DSL text |
| Serving.PublishedIsServed | crates/authz-llm-proxy/src/engine.rs:82-137 | publishing a valid text on any reachable store makes a proxy started on it answer by that text's meaning, under its revision id |

## Left out

- Names with a quote, a backslash or a carriage return: the translator writes them into Cedar string literals as they are, and the read-back theorems exclude them.
- Cedar's full grammar, its schema validator and the attribute values of its entity store: the parser covers what the translator can write, the validator is a parameter, and translated policies read only the context; of the entities the model keeps identities, parents and the texts of the attributes.
- Entities.EntitiesAcceptedIff: left to the library are attribute strings in which a backslash undoes the escape of a quote, and strings that end in an open escape ahead of another element of their list, since both can turn what follows into other expressions.
- Order of reasons: the real authorizer returns the reasons of a decision in no fixed order; the model lists them in policy order.
- JSON: duplicate member names of the context document and raw control characters are rejected, and escaped surrogate pairs are not read; the reader of tool arguments is a parameter.
- Unicode case: the upper- and lower-casing functions the code calls change ASCII letters only, and so do the model's.
- Catalog.FlattenJsonArgs: keys with `_` may collide once joined; exactness is stated without them, the insertion order with them.
- Evaluator.SourceMeansPermitted: excludes names as above and requests whose document the JSON reader rejects.
- Drafts.DraftsParse: group names that are empty after trimming, or hold quotes, backslashes, comment signs, commas, line breaks or an outer bracket, are excluded; an empty name gives a policy for any role.
- Suggest.SuggestFromAudit: reading the log file is not part of the model; suggestions come in an arbitrary order, as from a hash map.
- Timestamps, random ids, confidence values and counter overflow.
- `AuthzEngine::from_config` beyond the bundle it builds: it ignores the verdict of `verify_bundle`, so nothing is stated about verification at load time; the dev fallback to the active text is not modelled.
- `resolve_principal` and its cache key, HTTP routing, streaming, connectors' results, and the MCP and A2A routes, which neither audit nor count.
- Store operations that only read (`list_drafts`, `simple_diff`), file-system failures, and concurrent use of one store directory.
- `authz_for_retrieve` (a retrieval is checked with an arbitrary request), `extract_structured`, `bind_extraction`, configuration overrides and catalog loading: short cascades of single tests.
- Database faults, other writers of the same tables, and the sleeps before reads.
- ToolFilter.Proxy.FilterToolCalls: runs on one bundle; swaps between two calls of a reply are part of `Interleaving`.
