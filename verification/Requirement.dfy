/**
 The requirement-expression evaluator: recursive descent by splitting strings, with a depth
 cap, short-circuiting and a trace of every object the evaluation looked at.
 */
module Requirement {
  import opened Prelude
  import opened ProjectGraph
  import opened Text
  import opened Scanner

  /** Floating-point values without rounding: reals, infinities and NaN. */
  datatype F64 = Fin(r: real) | Inf(negative: bool) | NaN

  const EPSILON: real := 1.0 / 4503599627370496.0
  const MAX_EXPR_DEPTH := 128

  predicate Less(a: F64, b: F64) {
    match (a, b)
    case (Fin(x), Fin(y)) => x < y
    case (Fin(_), Inf(neg)) => !neg
    case (Inf(neg), Fin(_)) => neg
    case (Inf(n1), Inf(n2)) => n1 && !n2
    case _ => false
  }

  predicate AtLeast(a: F64, b: F64) {
    !a.NaN? && !b.NaN? && !Less(a, b)
  }

  function AbsDiff(a: F64, b: F64): F64 {
    match (a, b)
    case (Fin(x), Fin(y)) => Fin(if x < y then y - x else x - y)
    case (Inf(n1), Inf(n2)) => if n1 == n2 then NaN else Inf(false)
    case (Fin(_), Inf(_)) => Inf(false)
    case (Inf(_), Fin(_)) => Inf(false)
    case _ => NaN
  }

  predicate Compare(op: string, a: F64, b: F64) {
    if op == ">=" then AtLeast(a, b)
    else if op == "<=" then AtLeast(b, a)
    else if op == ">" then Less(b, a)
    else if op == "<" then Less(a, b)
    else if op == "==" then Less(AbsDiff(a, b), Fin(EPSILON))
    else AtLeast(AbsDiff(a, b), Fin(EPSILON))
  }

  /**
   What the evaluator takes from elsewhere: number parsing, the choice `find_by_name` makes
   among equal names, and measuring an object from its components.
   */
  datatype Env = Env(
    number: string -> Option<F64>,
    pick: set<Id> -> Id,
    measures: map<string, Component> -> Option<(F64, F64)>,
    distance: (map<string, Component>, map<string, Component>) -> F64)

  predicate IsFloatChar(c: char) {
    '0' <= c <= '9' || c in "+-.eEinfatyINFATY"
  }

  /** How a literal can look: a digit, a point, a sign, `inf` or `nan` in front, and no other characters. */
  predicate NumberText(t: string) {
    && t != "" && (forall i :: 0 <= i < |t| ==> IsFloatChar(t[i]))
    && ('0' <= t[0] <= '9' || t[0] in "+-.iInN")
  }

  ghost predicate GoodEnv(env: Env) {
    && (forall s :: s != {} ==> env.pick(s) in s)
    && (forall t :: env.number(t).Some? ==> NumberText(t))
  }

  datatype EvalError = NoSuchObject(name: string) | BadInput(message: string)

  datatype Traced<+T> = Traced(result: Result<T, EvalError>, refs: set<Id>)

  type Objects = map<Id, Object>

  // ----- terms ---------------------------------------------------------------

  function Named(objects: Objects, name: string): set<Id> {
    set i | i in objects && objects[i].name == name
  }

  function OfType(objects: Objects, typeId: string): set<Id> {
    set i | i in objects && objects[i].typeId == typeId
  }

  function FindNamed(env: Env, objects: Objects, name: string): Option<Id> {
    var candidates := Named(objects, name);
    if candidates == {} then None else Some(env.pick(candidates))
  }

  function Components(objects: Objects, i: Id): map<string, Component> {
    if i in objects then objects[i].components else map[]
  }

  function Unquote(s: string): string {
    TrimChar(TrimChar(Trim(s), '"'), '\'')
  }

  function CallArgs(term: string, f: string): Option<string> {
    var r := StripPrefix(term, f);
    if r.None? then None else
      var q := StripPrefix(r.value, "(");
      if q.None? then None else StripSuffix(q.value, ")")
  }

  function WalkPath(val: Json, segments: seq<string>): Option<Json> {
    if segments == [] then Some(val)
    else if val.Obj? && segments[0] in val.fields then WalkPath(val.fields[segments[0]], segments[1..])
    else None
  }

  /** The numeric field at `segments`, component name first; `path` is what messages quote. */
  function FieldAt(components: map<string, Component>, segments: seq<string>, path: string): Result<F64, EvalError>
    requires segments != []
  {
    if segments[0] !in components then Err(BadInput("no component " + segments[0])) else
      var val := WalkPath(components[segments[0]].data, segments[1..]);
      if val.None? then Err(BadInput("no path " + path))
      else if val.value.Number? then Ok(Fin(val.value.r))
      else Err(BadInput(path + " is not numeric"))
  }

  function FieldValue(components: map<string, Component>, path: string): Result<F64, EvalError> {
    FieldAt(components, Split(path, '.'), path)
  }

  function Measure(env: Env, objects: Objects, name: string, area: bool): Traced<F64> {
    var obj := FindNamed(env, objects, name);
    if obj.None? then Traced(Err(NoSuchObject(name)), {}) else
      var m := env.measures(Components(objects, obj.value));
      Traced(if m.None? then Err(BadInput("no geometry")) else Ok(if area then m.value.1 else m.value.0), {obj.value})
  }

  function Distance(env: Env, objects: Objects, a: string, b: string): Traced<F64> {
    var oa := FindNamed(env, objects, a);
    if oa.None? then Traced(Err(NoSuchObject(a)), {}) else
      var ob := FindNamed(env, objects, b);
      if ob.None? then Traced(Err(NoSuchObject(b)), {oa.value})
      else Traced(Ok(env.distance(Components(objects, oa.value), Components(objects, ob.value))), {oa.value, ob.value})
  }

  function Field(env: Env, objects: Objects, name: string, path: string): Traced<F64> {
    var obj := FindNamed(env, objects, name);
    if obj.None? then Traced(Err(NoSuchObject(name)), {})
    else Traced(FieldValue(Components(objects, obj.value), path), {obj.value})
  }

  function Exists(objects: Objects, typeId: string): Traced<F64> {
    var found := OfType(objects, typeId);
    Traced(Ok(Fin(if found != {} then 1.0 else 0.0)), found)
  }

  function Count(objects: Objects, typeId: string): Traced<F64> {
    var found := OfType(objects, typeId);
    Traced(Ok(Fin(|found| as real)), found)
  }

  function ExistsNamed(env: Env, objects: Objects, name: string): Traced<F64> {
    var found := FindNamed(env, objects, name);
    if found.None? then Traced(Ok(Fin(0.0)), {}) else Traced(Ok(Fin(1.0)), {found.value})
  }

  /** What a term text asks for, decided by its shape alone. */
  datatype Term =
    | Literal(value: F64)
    | ExistsType(typeId: string)
    | NamedExists(name: string)
    | CountType(typeId: string)
    | Volume(name: string)
    | Area(name: string)
    | DistanceOf(a: string, b: string)
    | FieldOf(name: string, path: string)
    | Malformed(message: string)

  function ParseTerm(env: Env, text: string): Term {
    var term := Trim(text);
    if env.number(term).Some? then Literal(env.number(term).value)
    else if term == "true" then Literal(Fin(1.0))
    else if term == "false" then Literal(Fin(0.0))
    else if CallArgs(term, "exists").Some? then ExistsType(Unquote(CallArgs(term, "exists").value))
    else if CallArgs(term, "exists_named").Some? then NamedExists(Unquote(CallArgs(term, "exists_named").value))
    else if CallArgs(term, "count").Some? then CountType(Unquote(CallArgs(term, "count").value))
    else if CallArgs(term, "volume").Some? then Volume(Unquote(CallArgs(term, "volume").value))
    else if CallArgs(term, "area").Some? then Area(Unquote(CallArgs(term, "area").value))
    else if CallArgs(term, "distance").Some? then ParseDistance(CallArgs(term, "distance").value)
    else if StripPrefix(term, "object(").Some? then ParseField(StripPrefix(term, "object(").value)
    else Malformed("unknown term `" + term + "`")
  }

  function ParseDistance(args: string): Term {
    var names := SplitOnce(args, ',');
    if names.None? then Malformed("distance() needs two names")
    else DistanceOf(Unquote(Trim(names.value.0)), Unquote(Trim(names.value.1)))
  }

  function ParseField(inner: string): Term {
    var parts := SplitOnce(inner, ')');
    if parts.None? then Malformed("bad object() term")
    else FieldOf(Unquote(parts.value.0), TrimStartChar(parts.value.1, '.'))
  }

  function TermValue(env: Env, objects: Objects, term: Term): Traced<F64> {
    match term
    case Literal(v) => Traced(Ok(v), {})
    case ExistsType(t) => Exists(objects, t)
    case NamedExists(name) => ExistsNamed(env, objects, name)
    case CountType(t) => Count(objects, t)
    case Volume(name) => Measure(env, objects, name, false)
    case Area(name) => Measure(env, objects, name, true)
    case DistanceOf(a, b) => Distance(env, objects, a, b)
    case FieldOf(name, path) => Field(env, objects, name, path)
    case Malformed(message) => Traced(Err(BadInput(message)), {})
  }

  function EvalTerm(env: Env, objects: Objects, text: string): Traced<F64> {
    TermValue(env, objects, ParseTerm(env, text))
  }

  // ----- the grammar ---------------------------------------------------------

  function CompareTraced(op: string, l: Traced<F64>, r: Traced<F64>): Traced<bool> {
    if l.result.Err? then Traced(Err(l.result.error), l.refs)
    else if r.result.Err? then Traced(Err(r.result.error), l.refs + r.refs)
    else Traced(Ok(Compare(op, l.result.value, r.result.value)), l.refs + r.refs)
  }

  function Negate(t: Traced<bool>): Traced<bool> {
    if t.result.Err? then t else t.(result := Ok(!t.result.value))
  }

  function EvalCmp(env: Env, objects: Objects, s: string): Traced<bool> {
    var (lhs, op, rhs) := SplitCmp(s);
    CompareTraced(op, EvalTerm(env, objects, Trim(lhs)), EvalTerm(env, objects, Trim(rhs)))
  }

  /** Is `s` wrapped as a whole by `open` … `)`? */
  predicate Wrapped(s: string, open: string) {
    StartsWith(s, open) && |open| < |s| && EndsWith(s, ")") && Balanced(s[|open|..|s| - 1])
  }

  /** How the operand of `and` is read. */
  datatype Shape =
    | NotWord(rest: string)
    | NotGroup(inner: string)
    | Group(inner: string)
    | Comparison(text: string)

  function ShapeOf(text: string): Shape {
    var s := Trim(text);
    if StartsWith(s, "not ") then NotWord(s[4..])
    else if Wrapped(s, "not(") then NotGroup(Trim(s[4..|s| - 1]))
    else if Wrapped(s, "(") then Group(Trim(s[1..|s| - 1]))
    else Comparison(s)
  }

  function EvalShape(env: Env, objects: Objects, shape: Shape, depth: nat): Traced<bool>
    requires depth <= MAX_EXPR_DEPTH
    decreases MAX_EXPR_DEPTH + 1 - depth, 0
  {
    match shape
    case NotWord(rest) => Negate(EvalNot(env, objects, rest, depth + 1))
    case NotGroup(inner) => Negate(EvalOr(env, objects, inner, depth + 1))
    case Group(inner) => EvalOr(env, objects, inner, depth + 1)
    case Comparison(s) => EvalCmp(env, objects, s)
  }

  function EvalNot(env: Env, objects: Objects, text: string, depth: nat): Traced<bool>
    requires depth <= MAX_EXPR_DEPTH + 1
    decreases MAX_EXPR_DEPTH + 1 - depth, 1
  {
    if depth > MAX_EXPR_DEPTH then Traced(Err(BadInput("expression nested too deeply")), {})
    else EvalShape(env, objects, ShapeOf(text), depth)
  }

  function EvalAllOf(env: Env, objects: Objects, parts: seq<string>, depth: nat): Traced<bool>
    requires depth <= MAX_EXPR_DEPTH + 1
    decreases MAX_EXPR_DEPTH + 1 - depth, 2, |parts|
  {
    if parts == [] then Traced(Ok(true), {}) else
      var first := EvalNot(env, objects, parts[0], depth);
      if first.result != Ok(true) then first else
        var rest := EvalAllOf(env, objects, parts[1..], depth);
        Traced(rest.result, first.refs + rest.refs)
  }

  function EvalAnd(env: Env, objects: Objects, s: string, depth: nat): Traced<bool>
    requires depth <= MAX_EXPR_DEPTH + 1
    decreases MAX_EXPR_DEPTH + 1 - depth, 3
  {
    EvalAllOf(env, objects, SplitTop(s, " and "), depth)
  }

  function EvalAnyOf(env: Env, objects: Objects, parts: seq<string>, depth: nat): Traced<bool>
    requires depth <= MAX_EXPR_DEPTH + 1
    decreases MAX_EXPR_DEPTH + 1 - depth, 4, |parts|
  {
    if parts == [] then Traced(Ok(false), {}) else
      var first := EvalAnd(env, objects, parts[0], depth);
      if first.result != Ok(false) then first else
        var rest := EvalAnyOf(env, objects, parts[1..], depth);
        Traced(rest.result, first.refs + rest.refs)
  }

  function EvalOr(env: Env, objects: Objects, s: string, depth: nat): Traced<bool>
    requires depth <= MAX_EXPR_DEPTH + 1
    decreases MAX_EXPR_DEPTH + 1 - depth, 5
  {
    EvalAnyOf(env, objects, SplitTop(s, " or "), depth)
  }

  function EvalExpr(env: Env, objects: Objects, expr: string): Traced<bool> {
    EvalOr(env, objects, Trim(expr), 0)
  }

  datatype Status = Pass | Fail | Unknown | Stale

  function StatusText(s: Status): string {
    match s
    case Pass => "pass"
    case Fail => "fail"
    case Unknown => "unknown"
    case Stale => "stale"
  }

  function ExpressionOf(req: Object): string {
    if REQUIREMENT_EXPR in req.components
      && req.components[REQUIREMENT_EXPR].data.Obj?
      && "expression" in req.components[REQUIREMENT_EXPR].data.fields
      && req.components[REQUIREMENT_EXPR].data.fields["expression"].Str?
    then req.components[REQUIREMENT_EXPR].data.fields["expression"].s
    else ""
  }

  /** Status, verdict text and the ids of every object the expression looked at. */
  datatype Verdict = Verdict(status: Status, text: string, refs: set<Id>)

  function ErrorText(e: EvalError): string {
    match e
    case NoSuchObject(name) => "object not found: " + name
    case BadInput(message) => "invalid input: " + message
  }

  function EvaluateTraced(env: Env, objects: Objects, req: Object): Verdict {
    var expr := ExpressionOf(req);
    if Trim(expr) == "" then Verdict(Unknown, "no expression", {}) else
      var t := EvalExpr(env, objects, Trim(expr));
      match t.result
      case Ok(true) => Verdict(Pass, "`" + expr + "` satisfied", t.refs)
      case Ok(false) => Verdict(Fail, "`" + expr + "` not satisfied", t.refs)
      case Err(e) => Verdict(Unknown, "cannot evaluate `" + expr + "`: " + ErrorText(e), t.refs)
  }
}
