/** The fragment of the Cedar language that translated policies use: values, evaluation, decision. */
module Cedar {
  import opened Text

  datatype Value =
    | Bool(b: bool)
    | Str(s: string)
    | Set(elems: set<Value>)
    | Record(attrs: map<string, Value>)

  type Context = map<string, Value>

  datatype Expr =
    | Lit(s: string)
    | ContextVar
    | Attr(e: Expr, name: string)
    | Contains(e: Expr, arg: Expr)
    | Eq(l: Expr, r: Expr)
    | And(l: Expr, r: Expr)
    | Or(l: Expr, r: Expr)
    | Not(e: Expr)

  datatype EvalError = MissingAttribute(name: string) | TypeError

  type EvalResult = Result<Value, EvalError>

  /** `&&` and `||` look at their right operand only when the left one does not decide. */
  function Eval(e: Expr, ctx: Context): EvalResult {
    match e
    case Lit(s) => Ok(Str(s))
    case ContextVar => Ok(Record(ctx))
    case Attr(e1, name) =>
      (match Eval(e1, ctx)
       case Ok(Record(attrs)) => if name in attrs then Ok(attrs[name]) else Err(MissingAttribute(name))
       case Ok(_) => Err(TypeError)
       case Err(x) => Err(x))
    case Contains(e1, arg) =>
      (match Eval(e1, ctx)
       case Ok(Set(elems)) =>
         (match Eval(arg, ctx)
          case Ok(v) => Ok(Bool(v in elems))
          case Err(x) => Err(x))
       case Ok(_) => Err(TypeError)
       case Err(x) => Err(x))
    case Eq(l, r) =>
      (match Eval(l, ctx)
       case Ok(v) =>
         (match Eval(r, ctx)
          case Ok(w) => Ok(Bool(v == w))
          case Err(x) => Err(x))
       case Err(x) => Err(x))
    case And(l, r) =>
      (match Eval(l, ctx)
       case Ok(Bool(b)) => if b then AsBool(Eval(r, ctx)) else Ok(Bool(false))
       case Ok(_) => Err(TypeError)
       case Err(x) => Err(x))
    case Or(l, r) =>
      (match Eval(l, ctx)
       case Ok(Bool(b)) => if b then Ok(Bool(true)) else AsBool(Eval(r, ctx))
       case Ok(_) => Err(TypeError)
       case Err(x) => Err(x))
    case Not(e1) =>
      (match Eval(e1, ctx)
       case Ok(Bool(b)) => Ok(Bool(!b))
       case Ok(_) => Err(TypeError)
       case Err(x) => Err(x))
  }

  function AsBool(r: EvalResult): EvalResult {
    match r
    case Ok(Bool(_)) => r
    case Ok(_) => Err(TypeError)
    case Err(x) => Err(x)
  }

  /** `permit` or `forbid` with the head `action == Action::"..."` and one `when` condition. */
  datatype CedarPolicy = CedarPolicy(id: string, permit: bool, action: string, condition: Expr)

  datatype Request = Request(action: string, context: Context)

  /** Whether the policy applies to the request, or why that cannot be said. */
  function Applies(p: CedarPolicy, req: Request): Result<bool, EvalError> {
    if p.action != req.action then Ok(false)
    else
      match AsBool(Eval(p.condition, req.context))
      case Ok(v) => Ok(v == Bool(true))
      case Err(x) => Err(x)
  }

  /** The policies of one effect that apply, in order; a policy that errs is skipped. */
  function Applicable(ps: seq<CedarPolicy>, permit: bool, req: Request): seq<CedarPolicy> {
    if ps == [] then []
    else (if ps[0].permit == permit && Applies(ps[0], req) == Ok(true) then [ps[0]] else [])
         + Applicable(ps[1..], permit, req)
  }

  function Errors(ps: seq<CedarPolicy>, req: Request): seq<EvalError> {
    if ps == [] then []
    else
      var rest := Errors(ps[1..], req);
      match Applies(ps[0], req) case Ok(_) => rest case Err(x) => [x] + rest
  }

  datatype Response = Response(allow: bool, reasons: seq<CedarPolicy>, errors: seq<EvalError>)

  /** Forbid overrides permit, and nothing that applies means deny. */
  function Authorize(ps: seq<CedarPolicy>, req: Request): Response {
    var forbids, permits := Applicable(ps, false, req), Applicable(ps, true, req);
    if forbids != [] then Response(false, forbids, Errors(ps, req))
    else Response(permits != [], permits, Errors(ps, req))
  }

  lemma {:induction false} ApplicableIff(ps: seq<CedarPolicy>, permit: bool, req: Request)
    ensures forall p :: p in Applicable(ps, permit, req) <==> p in ps && p.permit == permit && Applies(p, req) == Ok(true)
  {
    hide Applies;
    if ps != [] {
      ApplicableIff(ps[1..], permit, req);
      assert forall p :: p in ps <==> p == ps[0] || p in ps[1..];
    }
  }

  /** The decision in terms of single policies. */
  lemma {:induction false} AuthorizeIff(ps: seq<CedarPolicy>, req: Request)
    ensures Authorize(ps, req).allow <==>
      && (exists p :: p in ps && p.permit && Applies(p, req) == Ok(true))
      && !(exists p :: p in ps && !p.permit && Applies(p, req) == Ok(true))
  {
    hide Applies;
    ApplicableIff(ps, false, req);
    ApplicableIff(ps, true, req);
    var forbids, permits := Applicable(ps, false, req), Applicable(ps, true, req);
    assert forbids != [] ==> forbids[0] in forbids;
    assert permits != [] ==> permits[0] in permits;
  }
}
