/**
 What a requirement expression says, without reference to the evaluator: which number a term
 stands for, which objects it is about, when a comparison holds and when a formula is true.
 */
module RequirementMeaning {
  import opened Prelude
  import opened ProjectGraph
  import opened Text
  import opened ScannerFacts
  import opened Requirement
  import opened RequirementCommands
  import opened RequirementPrinter
  import opened RequirementRoundTrip

  // ----- comparisons -------------------------------------------------------------------------

  /** Distance from which two numbers count as different, the spacing of doubles at 1. */
  ghost predicate Apart(x: real, y: real) {
    x - y >= 1.0 / 4503599627370496.0 || y - x >= 1.0 / 4503599627370496.0
  }

  /** On finite numbers. */
  ghost predicate HoldsFinite(op: string, x: real, y: real)
    requires IsOp(op)
  {
    && (op == ">=" ==> x >= y)
    && (op == "<=" ==> x <= y)
    && (op == ">" ==> x > y)
    && (op == "<" ==> x < y)
    && (op == "==" ==> !Apart(x, y))
    && (op == "!=" ==> Apart(x, y))
  }

  /**
   With infinities: the order is the usual one, an infinity differs from every number and from
   the opposite infinity, but neither equals nor differs from itself.
   */
  ghost predicate HoldsInfinite(op: string, x: F64, y: F64)
    requires IsOp(op) && !x.NaN? && !y.NaN? && (x.Inf? || y.Inf?)
  {
    var low := x == Inf(true) || y == Inf(false);
    var high := x == Inf(false) || y == Inf(true);
    && (op == ">=" ==> x == y || high)
    && (op == "<=" ==> x == y || low)
    && (op == ">" ==> x != y && high)
    && (op == "<" ==> x != y && low)
    && op != "=="
    && (op == "!=" ==> x != y)
  }

  /** Nothing holds of what is not a number, not even that it differs. */
  ghost predicate Holds(op: string, x: F64, y: F64)
    requires IsOp(op)
  {
    && !x.NaN? && !y.NaN?
    && if x.Fin? && y.Fin? then HoldsFinite(op, x.r, y.r) else HoldsInfinite(op, x, y)
  }

  lemma OpsDiffer()
    ensures ">=" != "<=" && ">=" != ">" && ">=" != "<" && ">=" != "==" && ">=" != "!="
    ensures "<=" != ">" && "<=" != "<" && "<=" != "==" && "<=" != "!="
    ensures ">" != "<" && ">" != "==" && ">" != "!=" && "<" != "==" && "<" != "!=" && "==" != "!="
  {
    assert ">="[0] == '>' && "<="[0] == '<' && "=="[0] == '=' && "!="[0] == '!';
  }

  /** The evaluator's comparison is that one. */
  lemma CompareMeans(op: string, x: F64, y: F64)
    requires IsOp(op)
    ensures Compare(op, x, y) <==> Holds(op, x, y)
  {
    OpsDiffer();
    if x.Fin? && y.Fin? {
      CompareFinite(op, x.r, y.r);
    } else if !x.NaN? && !y.NaN? {
      CompareInfinite(op, x, y);
    }
  }

  lemma CompareFinite(op: string, x: real, y: real)
    requires IsOp(op)
    ensures Compare(op, Fin(x), Fin(y)) <==> HoldsFinite(op, x, y)
  {
    OpsDiffer();
  }

  lemma CompareInfinite(op: string, x: F64, y: F64)
    requires IsOp(op) && !x.NaN? && !y.NaN? && (x.Inf? || y.Inf?)
    ensures Compare(op, x, y) <==> HoldsInfinite(op, x, y)
  {
    OpsDiffer();
  }

  // ----- terms -------------------------------------------------------------------------------------

  /** The object a name leads to: one that bears it, chosen among all that do. */
  ghost predicate Leads(env: Env, objects: Objects, name: string, i: Id) {
    && i in objects && objects[i].name == name
    && i == env.pick(set k | k in objects && objects[k].name == name)
  }

  /** The number at the end of a path of member names. */
  ghost predicate NumberUnder(data: Json, path: seq<string>, x: real)
    decreases |path|
  {
    if path == [] then data == Number(x)
    else data.Obj? && path[0] in data.fields && NumberUnder(data.fields[path[0]], path[1..], x)
  }

  /** The term stands for the number. */
  ghost predicate Says(env: Env, objects: Objects, t: TermTree, x: F64) {
    match t
    case Num(text) => env.number(text) == Some(x)
    case Truth(b) => x == Fin(if b then 1.0 else 0.0)
    case ExistsT(a) => x == Fin(if exists i :: i in objects && objects[i].typeId == a.text then 1.0 else 0.0)
    case NamedT(a) => x == Fin(if exists i :: i in objects && objects[i].name == a.text then 1.0 else 0.0)
    case CountT(a) => x == Fin(|set i | i in objects && objects[i].typeId == a.text| as real)
    case VolumeT(a) => exists i, area :: Leads(env, objects, a.text, i) && env.measures(objects[i].components) == Some((x, area))
    case AreaT(a) => exists i, volume :: Leads(env, objects, a.text, i) && env.measures(objects[i].components) == Some((volume, x))
    case DistanceT(a, b) =>
      exists i, j :: Leads(env, objects, a.text, i) && Leads(env, objects, b.text, j) && x == env.distance(objects[i].components, objects[j].components)
    case FieldT(a, c, path) =>
      exists i, r :: Leads(env, objects, a.text, i) && c in objects[i].components && NumberUnder(objects[i].components[c].data, path, r) && x == Fin(r)
  }

  /** The term is about the object, whether or not it has an answer. */
  ghost predicate About(env: Env, objects: Objects, t: TermTree, i: Id) {
    match t
    case Num(_) => false
    case Truth(_) => false
    case ExistsT(a) => i in objects && objects[i].typeId == a.text
    case CountT(a) => i in objects && objects[i].typeId == a.text
    case DistanceT(a, b) =>
      Leads(env, objects, a.text, i) || (Leads(env, objects, b.text, i) && exists j :: Leads(env, objects, a.text, j))
    case _ => Leads(env, objects, t.arg.text, i)
  }

  lemma FindLeads(env: Env, objects: Objects, name: string)
    requires GoodEnv(env)
    ensures forall i: Id :: Leads(env, objects, name, i) <==> FindNamed(env, objects, name) == Some(i)
    ensures FindNamed(env, objects, name).None? <==> !exists i: Id :: i in objects && objects[i].name == name
  {
    var bearers := Named(objects, name);
    assert bearers == set k | k in objects && objects[k].name == name;
    if bearers == {} {
      forall i: Id
        ensures !(i in objects && objects[i].name == name)
      {
        assert i !in bearers;
      }
    } else {
      assert env.pick(bearers) in bearers;
    }
  }

  lemma {:induction false} WalkNumber(data: Json, path: seq<string>, x: real)
    ensures NumberUnder(data, path, x) <==> WalkPath(data, path) == Some(Number(x))
    decreases |path|
  {
    if path != [] && data.Obj? && path[0] in data.fields {
      WalkNumber(data.fields[path[0]], path[1..], x);
    }
  }

  /** A term answers with the number it stands for, and with no other. */
  lemma TermSays(env: Env, objects: Objects, t: TermTree, x: F64)
    requires GoodEnv(env) && TermOk(env, t)
    ensures MeanTerm(env, objects, t).result == Ok(x) <==> Says(env, objects, t, x)
  {
    match t
    case ExistsT(a) => KindSays(objects, a.text);
    case CountT(a) => KindSays(objects, a.text);
    case NamedT(a) => FindLeads(env, objects, a.text);
    case VolumeT(a) => FindLeads(env, objects, a.text);
    case AreaT(a) => FindLeads(env, objects, a.text);
    case DistanceT(a, b) =>
      FindLeads(env, objects, a.text);
      FindLeads(env, objects, b.text);
    case FieldT(a, c, path) =>
      FindLeads(env, objects, a.text);
      FieldSays(env, objects, a.text, c, path, x);
    case _ =>
  }

  lemma KindSays(objects: Objects, k: string)
    ensures OfType(objects, k) == set i | i in objects && objects[i].typeId == k
    ensures OfType(objects, k) != {} <==> exists i :: i in objects && objects[i].typeId == k
  {
    if i :| i in objects && objects[i].typeId == k {
      assert i in OfType(objects, k);
    }
  }

  lemma FieldSays(env: Env, objects: Objects, name: string, c: string, path: seq<string>, x: F64)
    requires FindNamed(env, objects, name).Some? ==> FindNamed(env, objects, name).value in objects
    ensures FindNamed(env, objects, name).Some? ==>
      var components := objects[FindNamed(env, objects, name).value].components;
      (FieldAt(components, [c] + path, c + PathText(path)) == Ok(x)) ==
      (exists r :: c in components && NumberUnder(components[c].data, path, r) && x == Fin(r))
  {
    if FindNamed(env, objects, name).Some? {
      var components := objects[FindNamed(env, objects, name).value].components;
      assert ([c] + path)[0] == c && ([c] + path)[1..] == path;
      if c in components {
        var found := WalkPath(components[c].data, path);
        if found.Some? && found.value.Number? {
          WalkNumber(components[c].data, path, found.value.r);
        }
        forall r
          ensures NumberUnder(components[c].data, path, r) <==> found == Some(Number(r))
        {
          WalkNumber(components[c].data, path, r);
        }
      }
    }
  }

  /** What a term reports is what it is about. */
  lemma TermAbout(env: Env, objects: Objects, t: TermTree, i: Id)
    requires GoodEnv(env) && TermOk(env, t)
    ensures i in MeanTerm(env, objects, t).refs <==> About(env, objects, t, i)
  {
    match t
    case NamedT(a) => FindLeads(env, objects, a.text);
    case VolumeT(a) => FindLeads(env, objects, a.text);
    case AreaT(a) => FindLeads(env, objects, a.text);
    case DistanceT(a, b) =>
      FindLeads(env, objects, a.text);
      FindLeads(env, objects, b.text);
    case FieldT(a, _, _) => FindLeads(env, objects, a.text);
    case _ =>
  }

  // ----- formulas -----------------------------------------------------------------------------------

  ghost predicate HasAnswer(env: Env, objects: Objects, t: TermTree) {
    exists x :: Says(env, objects, t, x)
  }

  /** Every term in the formula has an answer. */
  ghost predicate NotAnswers(env: Env, objects: Objects, n: NotTree) {
    match n
    case Neg(m) => NotAnswers(env, objects, m)
    case NegGroup(e) => OrAnswers(env, objects, e)
    case Paren(e) => OrAnswers(env, objects, e)
    case Cmp(l, _, r) => HasAnswer(env, objects, l) && HasAnswer(env, objects, r)
    case Alone(t) => HasAnswer(env, objects, t)
  }

  ghost predicate AndAnswers(env: Env, objects: Objects, a: AndTree) {
    match a
    case LastAnd(n) => NotAnswers(env, objects, n)
    case MoreAnd(n, rest) => NotAnswers(env, objects, n) && AndAnswers(env, objects, rest)
  }

  ghost predicate OrAnswers(env: Env, objects: Objects, e: OrTree) {
    match e
    case LastOr(a) => AndAnswers(env, objects, a)
    case MoreOr(a, rest) => AndAnswers(env, objects, a) && OrAnswers(env, objects, rest)
  }

  /** Truth, as in logic: a term on its own is true when it equals 1. */
  ghost predicate NotTrue(env: Env, objects: Objects, n: NotTree)
    requires NotOk(env, n)
  {
    match n
    case Neg(m) => !NotTrue(env, objects, m)
    case NegGroup(e) => !OrTrue(env, objects, e)
    case Paren(e) => OrTrue(env, objects, e)
    case Cmp(l, op, r) => exists x, y :: Says(env, objects, l, x) && Says(env, objects, r, y) && Holds(op, x, y)
    case Alone(t) => exists x :: Says(env, objects, t, x) && Holds("==", x, Fin(1.0))
  }

  ghost predicate AndTrue(env: Env, objects: Objects, a: AndTree)
    requires AndOk(env, a)
  {
    match a
    case LastAnd(n) => NotTrue(env, objects, n)
    case MoreAnd(n, rest) => NotTrue(env, objects, n) && AndTrue(env, objects, rest)
  }

  ghost predicate OrTrue(env: Env, objects: Objects, e: OrTree)
    requires OrOk(env, e)
  {
    match e
    case LastOr(a) => AndTrue(env, objects, a)
    case MoreOr(a, rest) => AndTrue(env, objects, a) || OrTrue(env, objects, rest)
  }

  lemma CmpTruth(env: Env, objects: Objects, l: TermTree, op: string, r: TermTree)
    requires GoodEnv(env) && TermOk(env, l) && TermOk(env, r) && IsOp(op) && HasAnswer(env, objects, l) && HasAnswer(env, objects, r)
    ensures CompareTraced(op, MeanTerm(env, objects, l), MeanTerm(env, objects, r)).result == Ok(NotTrue(env, objects, Cmp(l, op, r)))
  {
    var x :| Says(env, objects, l, x);
    var y :| Says(env, objects, r, y);
    TermSays(env, objects, l, x);
    TermSays(env, objects, r, y);
    CompareMeans(op, x, y);
    OnlyOne(env, objects, l, x);
    OnlyOne(env, objects, r, y);
    assert NotTrue(env, objects, Cmp(l, op, r)) <==> Holds(op, x, y);
  }

  lemma OnlyOne(env: Env, objects: Objects, t: TermTree, x: F64)
    requires GoodEnv(env) && TermOk(env, t) && Says(env, objects, t, x)
    ensures forall y :: Says(env, objects, t, y) ==> y == x
  {
    TermSays(env, objects, t, x);
    forall y | Says(env, objects, t, y)
      ensures y == x
    {
      TermSays(env, objects, t, y);
    }
  }

  lemma AloneTruth(env: Env, objects: Objects, t: TermTree)
    requires GoodEnv(env) && TermOk(env, t) && HasAnswer(env, objects, t)
    ensures CompareTraced("==", MeanTerm(env, objects, t), Traced(Ok(Fin(1.0)), {})).result == Ok(NotTrue(env, objects, Alone(t)))
  {
    var x :| Says(env, objects, t, x);
    TermSays(env, objects, t, x);
    CompareMeans("==", x, Fin(1.0));
    OnlyOne(env, objects, t, x);
  }

  lemma {:induction false} NotTruth(env: Env, objects: Objects, n: NotTree, depth: nat, limit: nat)
    requires GoodEnv(env) && NotOk(env, n) && NotAnswers(env, objects, n) && depth + NotNesting(n) <= limit
    ensures MeanNot(env, objects, n, depth, limit).result == Ok(NotTrue(env, objects, n))
    decreases n
  {
    match n
    case Neg(m) => NotTruth(env, objects, m, depth + 1, limit);
    case NegGroup(e) => OrTruth(env, objects, e, depth + 1, limit);
    case Paren(e) => OrTruth(env, objects, e, depth + 1, limit);
    case Cmp(l, op, r) => CmpTruth(env, objects, l, op, r);
    case Alone(t) => AloneTruth(env, objects, t);
  }

  lemma {:induction false} AndTruth(env: Env, objects: Objects, a: AndTree, depth: nat, limit: nat)
    requires GoodEnv(env) && AndOk(env, a) && AndAnswers(env, objects, a) && depth + AndNesting(a) <= limit
    ensures MeanAnd(env, objects, a, depth, limit).result == Ok(AndTrue(env, objects, a))
    decreases a
  {
    match a
    case LastAnd(n) => NotTruth(env, objects, n, depth, limit);
    case MoreAnd(n, rest) =>
      NotTruth(env, objects, n, depth, limit);
      AndTruth(env, objects, rest, depth, limit);
  }

  lemma {:induction false} OrTruth(env: Env, objects: Objects, e: OrTree, depth: nat, limit: nat)
    requires GoodEnv(env) && OrOk(env, e) && OrAnswers(env, objects, e) && depth + OrNesting(e) <= limit
    ensures MeanOr(env, objects, e, depth, limit).result == Ok(OrTrue(env, objects, e))
    decreases e
  {
    match e
    case LastOr(a) => AndTruth(env, objects, a, depth, limit);
    case MoreOr(a, rest) =>
      AndTruth(env, objects, a, depth, limit);
      OrTruth(env, objects, rest, depth, limit);
  }

  lemma PrintedVerdict(env: Env, objects: Objects, req: Object, e: OrTree)
    requires GoodEnv(env) && OrOk(env, e) && ExpressionOf(req) == OrText(e)
    ensures var v, t := EvaluateTraced(env, objects, req), MeanOr(env, objects, e, 0, MAX_EXPR_DEPTH);
            v.status == (if t.result.Err? then Unknown else if t.result.value then Pass else Fail) && v.refs == t.refs
  {
    OrFits(env, e);
    TrimTight(OrText(e));
    PrintedMeaning(env, objects, e);
  }

  /**
   A requirement whose terms all have answers, nested at most 128 deep, passes if its formula
   is true and fails if it is false.
   */
  lemma VerdictIsTruth(env: Env, objects: Objects, req: Object, e: OrTree)
    requires GoodEnv(env) && OrOk(env, e) && ExpressionOf(req) == OrText(e)
    requires OrAnswers(env, objects, e) && OrNesting(e) <= 128
    ensures EvaluateTraced(env, objects, req).status == if OrTrue(env, objects, e) then Pass else Fail
  {
    OrTruth(env, objects, e, 0, 128);
    PrintedVerdict(env, objects, req, e);
  }

  /** One comparison of terms that stand for `x` and `y`. */
  lemma ComparisonMeans(env: Env, objects: Objects, req: Object, l: TermTree, op: string, r: TermTree, x: F64, y: F64)
    requires GoodEnv(env) && TermOk(env, l) && TermOk(env, r) && IsOp(op)
    requires ExpressionOf(req) == OrText(LastOr(LastAnd(Cmp(l, op, r))))
    requires Says(env, objects, l, x) && Says(env, objects, r, y)
    ensures EvaluateTraced(env, objects, req).status == if Holds(op, x, y) then Pass else Fail
    ensures forall i :: i in EvaluateTraced(env, objects, req).refs <==> About(env, objects, l, i) || About(env, objects, r, i)
  {
    var e := LastOr(LastAnd(Cmp(l, op, r)));
    assert NotOk(env, Cmp(l, op, r)) && AndOk(env, LastAnd(Cmp(l, op, r)));
    PrintedVerdict(env, objects, req, e);
    TermSays(env, objects, l, x);
    TermSays(env, objects, r, y);
    CompareMeans(op, x, y);
    assert MeanNot(env, objects, Cmp(l, op, r), 0, MAX_EXPR_DEPTH) == CompareTraced(op, MeanTerm(env, objects, l), MeanTerm(env, objects, r));
    forall i
      ensures i in MeanTerm(env, objects, l).refs <==> About(env, objects, l, i)
      ensures i in MeanTerm(env, objects, r).refs <==> About(env, objects, r, i)
    {
      TermAbout(env, objects, l, i);
      TermAbout(env, objects, r, i);
    }
  }

  lemma AnswerIs(env: Env, objects: Objects, t: TermTree)
    requires GoodEnv(env) && TermOk(env, t)
    ensures MeanTerm(env, objects, t).result.Ok? <==> HasAnswer(env, objects, t)
  {
    if MeanTerm(env, objects, t).result.Ok? {
      TermSays(env, objects, t, MeanTerm(env, objects, t).result.value);
    }
    if x :| Says(env, objects, t, x) {
      TermSays(env, objects, t, x);
    }
  }

  /** A side without an answer: unknown, and the right side is looked at only if the left one has one. */
  lemma ComparisonUnanswered(env: Env, objects: Objects, req: Object, l: TermTree, op: string, r: TermTree)
    requires GoodEnv(env) && TermOk(env, l) && TermOk(env, r) && IsOp(op)
    requires ExpressionOf(req) == OrText(LastOr(LastAnd(Cmp(l, op, r))))
    requires !HasAnswer(env, objects, l) || !HasAnswer(env, objects, r)
    ensures EvaluateTraced(env, objects, req).status == Unknown
    ensures forall i :: i in EvaluateTraced(env, objects, req).refs <==>
      About(env, objects, l, i) || (HasAnswer(env, objects, l) && About(env, objects, r, i))
  {
    assert NotOk(env, Cmp(l, op, r)) && AndOk(env, LastAnd(Cmp(l, op, r)));
    PrintedVerdict(env, objects, req, LastOr(LastAnd(Cmp(l, op, r))));
    AnswerIs(env, objects, l);
    AnswerIs(env, objects, r);
    assert MeanNot(env, objects, Cmp(l, op, r), 0, MAX_EXPR_DEPTH) == CompareTraced(op, MeanTerm(env, objects, l), MeanTerm(env, objects, r));
    forall i
      ensures i in MeanTerm(env, objects, l).refs <==> About(env, objects, l, i)
      ensures i in MeanTerm(env, objects, r).refs <==> About(env, objects, r, i)
    {
      TermAbout(env, objects, l, i);
      TermAbout(env, objects, r, i);
    }
  }

  /** `count(k) >= n` passes exactly when there are at least `n` objects of type `k`. */
  lemma CountAtLeast(env: Env, objects: Objects, req: Object, k: string, text: string, n: nat)
    requires GoodEnv(env) && ArgOk(Bare(k)) && TermOk(env, Num(text)) && env.number(text) == Some(Fin(n as real))
    requires ExpressionOf(req) == "count(" + k + ")" + " >= " + text
    ensures EvaluateTraced(env, objects, req).status == Pass <==> |set i | i in objects && objects[i].typeId == k| >= n
  {
    var members := set i | i in objects && objects[i].typeId == k;
    OpsDiffer();
    CountText(k, text);
    ComparisonMeans(env, objects, req, CountT(Bare(k)), ">=", Num(text), Fin(|members| as real), Fin(n as real));
  }

  lemma CountText(k: string, text: string)
    ensures "count(" + k + ")" + " >= " + text == OrText(LastOr(LastAnd(Cmp(CountT(Bare(k)), ">=", Num(text)))))
  {
    CallSpells("count", k);
    assert TermText(CountT(Bare(k))) == "count(" + k + ")";
    assert NotText(Cmp(CountT(Bare(k)), ">=", Num(text))) == TermText(CountT(Bare(k))) + (" " + ">=") + (" " + text);
    assert (" " + ">=") + (" " + text) == " >= " + text;
  }

  lemma CallSpells(f: string, args: string)
    ensures CallText(f, args) == f + "(" + args + ")"
  {
  }

  /** What the trees look like as text, so the theorems are about expressions as people write them. */
  lemma TermsSpell(k: string, m: string, c: string, field: string)
    ensures TermText(ExistsT(Bare(k))) == "exists" + "(" + k + ")"
    ensures TermText(NamedT(Quoted('"', m))) == "exists_named" + "(" + ("\"" + m + "\"") + ")"
    ensures TermText(CountT(Bare(k))) == "count" + "(" + k + ")"
    ensures TermText(VolumeT(Quoted('"', m))) == "volume" + "(" + ("\"" + m + "\"") + ")"
    ensures TermText(AreaT(Quoted('"', m))) == "area" + "(" + ("\"" + m + "\"") + ")"
    ensures TermText(DistanceT(Quoted('"', m), Quoted('"', k))) == "distance" + "(" + ("\"" + m + "\"" + "," + ("\"" + k + "\"")) + ")"
    ensures TermText(FieldT(Quoted('"', m), c, [field])) == "object" + "(" + ("\"" + m + "\"") + ")" + ("." + c + ("." + field))
  {
    CallSpells("exists", k);
    CallSpells("exists_named", "\"" + m + "\"");
    CallSpells("count", k);
    CallSpells("volume", "\"" + m + "\"");
    CallSpells("area", "\"" + m + "\"");
    CallSpells("distance", "\"" + m + "\"" + "," + ("\"" + k + "\""));
    CallSpells("object", "\"" + m + "\"");
    PathSpells(c, field);
  }

  /** Either quote character will do, and a quoted name may hold anything but its own quote. */
  lemma EitherQuote(t: string)
    ensures ArgOk(Quoted('"', t)) <==> '"' !in t && (t == "" || (t[0] != '\'' && t[|t| - 1] != '\''))
    ensures ArgOk(Quoted('\'', t)) <==> '\'' !in t
    ensures ArgText(Quoted('"', t)) == "\"" + t + "\"" && ArgText(Quoted('\'', t)) == "'" + t + "'"
  {
  }

  lemma PathSpells(c: string, field: string)
    ensures PathText([c] + [field]) == "." + c + ("." + field)
  {
    assert ([c] + [field])[1..] == [field] && [field][1..] == [];
    assert PathText([field]) == "." + field + "" == "." + field;
  }

  lemma FormulasSpell(n: NotTree, a: AndTree, e: OrTree, l: TermTree, op: string, r: TermTree)
    ensures NotText(Neg(n)) == "not " + NotText(n) && NotText(NegGroup(e)) == "not(" + OrText(e) + ")" && NotText(Paren(e)) == "(" + OrText(e) + ")"
    ensures NotText(Cmp(l, op, r)) == TermText(l) + " " + op + " " + TermText(r)
    ensures AndText(MoreAnd(n, a)) == NotText(n) + " and " + AndText(a) && OrText(MoreOr(a, e)) == AndText(a) + " or " + OrText(e)
  {
    NotSpells(NotText(n));
    NotSpells(OrText(e));
    OpSpells(TermText(l), op, TermText(r));
  }

  lemma NotSpells(t: string)
    ensures "not" + (" " + t) == "not " + t
    ensures "not" + ("(" + t + ")") == "not(" + t + ")"
  {
    assert "not" + " " == "not " && "not" + "(" == "not(";
    assert "not" + (" " + t) == "not" + " " + t;
    assert "not" + ("(" + t + ")") == "not" + "(" + t + ")";
  }

  lemma OpSpells(l: string, op: string, r: string)
    ensures l + (" " + op) + (" " + r) == l + " " + op + " " + r
  {
  }

  // ----- too deep -------------------------------------------------------------------------------------

  function Negations(n: nat, inner: NotTree): NotTree {
    if n == 0 then inner else Neg(Negations(n - 1, inner))
  }

  lemma {:induction false} TooDeep(env: Env, objects: Objects, n: nat, inner: NotTree, depth: nat, limit: nat)
    requires NotOk(env, inner) && depth <= limit < depth + n
    ensures NotOk(env, Negations(n, inner))
    ensures MeanNot(env, objects, Negations(n, inner), depth, limit).result.Err?
    decreases n
  {
    NegationsOk(env, n, inner);
    NegationsOk(env, n - 1, inner);
    if depth < limit {
      TooDeep(env, objects, n - 1, inner, depth + 1, limit);
    }
  }

  lemma {:induction false} NegationsOk(env: Env, n: nat, inner: NotTree)
    requires NotOk(env, inner)
    ensures NotOk(env, Negations(n, inner)) && NotNesting(Negations(n, inner)) == n + NotNesting(inner)
  {
    if n > 0 {
      NegationsOk(env, n - 1, inner);
    }
  }

  /** The cap is 128: with 128 negations a formula is still evaluated, with 129 it is not. */
  lemma CapIs128(env: Env, objects: Objects, req: Object, n: nat, t: TermTree)
    requires GoodEnv(env) && TermOk(env, t) && HasAnswer(env, objects, t)
    requires ExpressionOf(req) == OrText(LastOr(LastAnd(Negations(n, Alone(t)))))
    ensures EvaluateTraced(env, objects, req).status == Unknown <==> n > 128
  {
    var m := Negations(n, Alone(t));
    var e := LastOr(LastAnd(m));
    assert NotOk(env, Alone(t));
    NegationsOk(env, n, Alone(t));
    assert AndOk(env, LastAnd(m)) && OrOk(env, e);
    if n > 128 {
      TooDeep(env, objects, n, Alone(t), 0, 128);
      PrintedVerdict(env, objects, req, e);
    } else {
      NegationsAnswer(env, objects, n, Alone(t));
      assert AndAnswers(env, objects, LastAnd(m));
      VerdictIsTruth(env, objects, req, e);
    }
  }

  lemma {:induction false} NegationsAnswer(env: Env, objects: Objects, n: nat, inner: NotTree)
    requires NotAnswers(env, objects, inner)
    ensures NotAnswers(env, objects, Negations(n, inner))
  {
    if n > 0 {
      NegationsAnswer(env, objects, n - 1, inner);
    }
  }

  // ----- what a verdict says ---------------------------------------------------------------------------

  /** The requirement carries this expression. */
  predicate Carries(req: Object, expr: string) {
    && "core:requirement-expr" in req.components
    && var data := req.components["core:requirement-expr"].data;
       data.Obj? && "expression" in data.fields && data.fields["expression"] == Str(expr)
  }

  /** The text of a verdict goes with its status and quotes the expression as it stands. */
  lemma VerdictSays(env: Env, objects: Objects, req: Object, expr: string)
    requires Carries(req, expr)
    ensures var v := EvaluateTraced(env, objects, req);
            && v.status != Stale
            && (v.status == Pass ==> v.text == "`" + expr + "` satisfied")
            && (v.status == Fail ==> v.text == "`" + expr + "` not satisfied")
            && (v.status == Unknown ==> v.text == "no expression" || "cannot evaluate `" + expr + "`: " <= v.text)
            && (AllSpace(expr) <==> v.text == "no expression")
  {
    TrimMeans(expr);
    var v := EvaluateTraced(env, objects, req);
    if Trim(expr) == "" {
      var a, b :| AllSpace(a) && AllSpace(b) && expr == a + "" + b;
    } else {
      NotAllSpace(expr);
      assert v.text[0] == '`' || v.text[0] == 'c';
    }
  }

  lemma NotAllSpace(s: string)
    requires Trim(s) != ""
    ensures !AllSpace(s)
  {
    TrimMeans(s);
    var a, b :| AllSpace(a) && AllSpace(b) && s == a + Trim(s) + b;
    assert s[|a|] == Trim(s)[0];
  }

  /** What is written on the requirement after an evaluation. */
  lemma VerdictIsWritten(o: Object, v: Verdict)
    requires v.status != Stale
    ensures var written := WithVerdict(o, v);
            && "core:requirement-status" in written.components
            && written.components["core:requirement-status"].data == Json.Obj(map[
                 "status" := Str(if v.status == Pass then "pass" else if v.status == Fail then "fail" else "unknown"),
                 "verdict" := Str(v.text)])
            && written.components - {"core:requirement-status"} == o.components - {"core:requirement-status"}
            && written.(components := o.components) == o
  {
    assert WithVerdict(o, v).components - {"core:requirement-status"} == o.components - {"core:requirement-status"};
  }
}
