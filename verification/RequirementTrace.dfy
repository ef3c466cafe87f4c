/**
 What an evaluation looks at. `Reached` is the set of terms it gets to, short-circuiting and
 early errors included; the reported objects, the names and types it looks up and the verdict
 itself are functions of what those terms answer.
 */
module RequirementTrace {
  import opened Prelude
  import opened ProjectGraph
  import opened Text
  import opened Scanner
  import opened Requirement

  // ----- the terms an evaluation gets to --------------------------------------------

  function ReachedCmp(env: Env, objects: Objects, s: string): set<Term> {
    var (lhs, op, rhs) := SplitCmp(s);
    var l := ParseTerm(env, Trim(lhs));
    {l} + (if TermValue(env, objects, l).result.Ok? then {ParseTerm(env, Trim(rhs))} else {})
  }

  function ReachedShape(env: Env, objects: Objects, shape: Shape, depth: nat): set<Term>
    requires depth <= MAX_EXPR_DEPTH
    decreases MAX_EXPR_DEPTH + 1 - depth, 0
  {
    match shape
    case NotWord(rest) => ReachedNot(env, objects, rest, depth + 1)
    case NotGroup(inner) => ReachedOr(env, objects, inner, depth + 1)
    case Group(inner) => ReachedOr(env, objects, inner, depth + 1)
    case Comparison(s) => ReachedCmp(env, objects, s)
  }

  function ReachedNot(env: Env, objects: Objects, text: string, depth: nat): set<Term>
    requires depth <= MAX_EXPR_DEPTH + 1
    decreases MAX_EXPR_DEPTH + 1 - depth, 1
  {
    if depth > MAX_EXPR_DEPTH then {} else ReachedShape(env, objects, ShapeOf(text), depth)
  }

  function ReachedAllOf(env: Env, objects: Objects, parts: seq<string>, depth: nat): set<Term>
    requires depth <= MAX_EXPR_DEPTH + 1
    decreases MAX_EXPR_DEPTH + 1 - depth, 2, |parts|
  {
    if parts == [] then {} else
      ReachedNot(env, objects, parts[0], depth)
      + (if EvalNot(env, objects, parts[0], depth).result == Ok(true) then ReachedAllOf(env, objects, parts[1..], depth) else {})
  }

  function ReachedAnd(env: Env, objects: Objects, s: string, depth: nat): set<Term>
    requires depth <= MAX_EXPR_DEPTH + 1
    decreases MAX_EXPR_DEPTH + 1 - depth, 3
  {
    ReachedAllOf(env, objects, SplitTop(s, " and "), depth)
  }

  function ReachedAnyOf(env: Env, objects: Objects, parts: seq<string>, depth: nat): set<Term>
    requires depth <= MAX_EXPR_DEPTH + 1
    decreases MAX_EXPR_DEPTH + 1 - depth, 4, |parts|
  {
    if parts == [] then {} else
      ReachedAnd(env, objects, parts[0], depth)
      + (if EvalAnd(env, objects, parts[0], depth).result == Ok(false) then ReachedAnyOf(env, objects, parts[1..], depth) else {})
  }

  function ReachedOr(env: Env, objects: Objects, s: string, depth: nat): set<Term>
    requires depth <= MAX_EXPR_DEPTH + 1
    decreases MAX_EXPR_DEPTH + 1 - depth, 5
  {
    ReachedAnyOf(env, objects, SplitTop(s, " or "), depth)
  }

  /** The terms a requirement's evaluation gets to. */
  function Reached(env: Env, objects: Objects, req: Object): set<Term> {
    if Trim(ExpressionOf(req)) == "" then {} else ReachedOr(env, objects, Trim(Trim(ExpressionOf(req))), 0)
  }

  // ----- the terms that occur at all ---------------------------------------------------

  function TermsCmp(env: Env, s: string): set<Term> {
    var (lhs, op, rhs) := SplitCmp(s);
    {ParseTerm(env, Trim(lhs)), ParseTerm(env, Trim(rhs))}
  }

  function TermsShape(env: Env, shape: Shape, depth: nat): set<Term>
    requires depth <= MAX_EXPR_DEPTH
    decreases MAX_EXPR_DEPTH + 1 - depth, 0
  {
    match shape
    case NotWord(rest) => TermsNot(env, rest, depth + 1)
    case NotGroup(inner) => TermsOr(env, inner, depth + 1)
    case Group(inner) => TermsOr(env, inner, depth + 1)
    case Comparison(s) => TermsCmp(env, s)
  }

  function TermsNot(env: Env, text: string, depth: nat): set<Term>
    requires depth <= MAX_EXPR_DEPTH + 1
    decreases MAX_EXPR_DEPTH + 1 - depth, 1
  {
    if depth > MAX_EXPR_DEPTH then {} else TermsShape(env, ShapeOf(text), depth)
  }

  function TermsAllOf(env: Env, parts: seq<string>, depth: nat): set<Term>
    requires depth <= MAX_EXPR_DEPTH + 1
    decreases MAX_EXPR_DEPTH + 1 - depth, 2, |parts|
  {
    if parts == [] then {} else TermsNot(env, parts[0], depth) + TermsAllOf(env, parts[1..], depth)
  }

  function TermsAnyOf(env: Env, parts: seq<string>, depth: nat): set<Term>
    requires depth <= MAX_EXPR_DEPTH + 1
    decreases MAX_EXPR_DEPTH + 1 - depth, 4, |parts|
  {
    if parts == [] then {} else TermsAllOf(env, SplitTop(parts[0], " and "), depth) + TermsAnyOf(env, parts[1..], depth)
  }

  function TermsOr(env: Env, s: string, depth: nat): set<Term>
    requires depth <= MAX_EXPR_DEPTH + 1
    decreases MAX_EXPR_DEPTH + 1 - depth, 5
  {
    TermsAnyOf(env, SplitTop(s, " or "), depth)
  }

  /** Every term that occurs in an expression, whatever the project holds. */
  function TermsOf(env: Env, expr: string): set<Term> {
    TermsOr(env, Trim(Trim(expr)), 0)
  }

  // ----- one evaluation ------------------------------------------------------------------

  ghost function RefsOf(env: Env, objects: Objects, terms: set<Term>): set<Id> {
    set t, i | t in terms && i in TermValue(env, objects, t).refs :: i
  }

  ghost predicate AllOk(env: Env, objects: Objects, terms: set<Term>) {
    forall t :: t in terms ==> TermValue(env, objects, t).result.Ok?
  }

  /** The reported objects are those of the reached terms, and an answer needs an answer from each of them. */
  ghost predicate Traces<T>(env: Env, objects: Objects, terms: set<Term>, t: Traced<T>) {
    t.refs == RefsOf(env, objects, terms) && (t.result.Ok? ==> AllOk(env, objects, terms))
  }

  lemma RefsOfUnion(env: Env, objects: Objects, a: set<Term>, b: set<Term>)
    ensures RefsOf(env, objects, a + b) == RefsOf(env, objects, a) + RefsOf(env, objects, b)
  {
  }

  lemma RefsOfOne(env: Env, objects: Objects, t: Term)
    ensures RefsOf(env, objects, {t}) == TermValue(env, objects, t).refs
  {
  }

  lemma CmpTraces(env: Env, objects: Objects, s: string)
    ensures Traces(env, objects, ReachedCmp(env, objects, s), EvalCmp(env, objects, s))
    ensures ReachedCmp(env, objects, s) <= TermsCmp(env, s)
  {
    var (lhs, op, rhs) := SplitCmp(s);
    var l, r := ParseTerm(env, Trim(lhs)), ParseTerm(env, Trim(rhs));
    RefsOfOne(env, objects, l);
    RefsOfOne(env, objects, r);
    RefsOfUnion(env, objects, {l}, {r});
    if TermValue(env, objects, l).result.Err? {
      assert {l} + {} == {l};
    }
  }

  lemma {:induction false} ShapeTraces(env: Env, objects: Objects, shape: Shape, depth: nat)
    requires depth <= MAX_EXPR_DEPTH
    ensures Traces(env, objects, ReachedShape(env, objects, shape, depth), EvalShape(env, objects, shape, depth))
    ensures ReachedShape(env, objects, shape, depth) <= TermsShape(env, shape, depth)
    decreases MAX_EXPR_DEPTH + 1 - depth, 0
  {
    match shape
    case NotWord(rest) =>
      NotTraces(env, objects, rest, depth + 1);
      NegateTraces(env, objects, ReachedNot(env, objects, rest, depth + 1), EvalNot(env, objects, rest, depth + 1));
    case NotGroup(inner) =>
      OrTraces(env, objects, inner, depth + 1);
      NegateTraces(env, objects, ReachedOr(env, objects, inner, depth + 1), EvalOr(env, objects, inner, depth + 1));
    case Group(inner) => OrTraces(env, objects, inner, depth + 1);
    case Comparison(s) => CmpTraces(env, objects, s);
  }

  lemma NegateTraces(env: Env, objects: Objects, terms: set<Term>, t: Traced<bool>)
    requires Traces(env, objects, terms, t)
    ensures Traces(env, objects, terms, Negate(t))
  {
  }

  lemma {:induction false} NotTraces(env: Env, objects: Objects, text: string, depth: nat)
    requires depth <= MAX_EXPR_DEPTH + 1
    ensures Traces(env, objects, ReachedNot(env, objects, text, depth), EvalNot(env, objects, text, depth))
    ensures ReachedNot(env, objects, text, depth) <= TermsNot(env, text, depth)
    decreases MAX_EXPR_DEPTH + 1 - depth, 1
  {
    if depth <= MAX_EXPR_DEPTH {
      ShapeTraces(env, objects, ShapeOf(text), depth);
    }
  }

  /** Going on behind a first operand, or stopping there. */
  lemma TracesOn(env: Env, objects: Objects, a: set<Term>, first: Traced<bool>, b: set<Term>, rest: Traced<bool>)
    requires Traces(env, objects, a, first) && Traces(env, objects, b, rest) && first.result.Ok?
    ensures Traces(env, objects, a + b, Traced(rest.result, first.refs + rest.refs))
  {
    RefsOfUnion(env, objects, a, b);
  }

  lemma {:induction false} AllOfTraces(env: Env, objects: Objects, parts: seq<string>, depth: nat)
    requires depth <= MAX_EXPR_DEPTH + 1
    ensures Traces(env, objects, ReachedAllOf(env, objects, parts, depth), EvalAllOf(env, objects, parts, depth))
    ensures ReachedAllOf(env, objects, parts, depth) <= TermsAllOf(env, parts, depth)
    decreases MAX_EXPR_DEPTH + 1 - depth, 2, |parts|
  {
    if parts != [] {
      var first, terms := EvalNot(env, objects, parts[0], depth), ReachedNot(env, objects, parts[0], depth);
      NotTraces(env, objects, parts[0], depth);
      if first.result == Ok(true) {
        AllOfTraces(env, objects, parts[1..], depth);
        TracesOn(env, objects, terms, first, ReachedAllOf(env, objects, parts[1..], depth), EvalAllOf(env, objects, parts[1..], depth));
      } else {
        assert terms + {} == terms;
      }
    }
  }

  lemma {:induction false} AnyOfTraces(env: Env, objects: Objects, parts: seq<string>, depth: nat)
    requires depth <= MAX_EXPR_DEPTH + 1
    ensures Traces(env, objects, ReachedAnyOf(env, objects, parts, depth), EvalAnyOf(env, objects, parts, depth))
    ensures ReachedAnyOf(env, objects, parts, depth) <= TermsAnyOf(env, parts, depth)
    decreases MAX_EXPR_DEPTH + 1 - depth, 4, |parts|
  {
    if parts != [] {
      var first, terms := EvalAnd(env, objects, parts[0], depth), ReachedAnd(env, objects, parts[0], depth);
      AllOfTraces(env, objects, SplitTop(parts[0], " and "), depth);
      if first.result == Ok(false) {
        AnyOfTraces(env, objects, parts[1..], depth);
        TracesOn(env, objects, terms, first, ReachedAnyOf(env, objects, parts[1..], depth), EvalAnyOf(env, objects, parts[1..], depth));
      } else {
        assert terms + {} == terms;
      }
    }
  }

  lemma {:induction false} OrTraces(env: Env, objects: Objects, s: string, depth: nat)
    requires depth <= MAX_EXPR_DEPTH + 1
    ensures Traces(env, objects, ReachedOr(env, objects, s, depth), EvalOr(env, objects, s, depth))
    ensures ReachedOr(env, objects, s, depth) <= TermsOr(env, s, depth)
    decreases MAX_EXPR_DEPTH + 1 - depth, 5
  {
    AnyOfTraces(env, objects, SplitTop(s, " or "), depth);
  }

  /** What a verdict reports is what its reached terms report; pass or fail needs an answer from all of them. */
  lemma VerdictTraces(env: Env, objects: Objects, req: Object)
    ensures var v := EvaluateTraced(env, objects, req);
            && v.refs == RefsOf(env, objects, Reached(env, objects, req))
            && (v.status != Unknown ==> AllOk(env, objects, Reached(env, objects, req)))
    ensures Reached(env, objects, req) <= TermsOf(env, ExpressionOf(req))
  {
    if Trim(ExpressionOf(req)) != "" {
      OrTraces(env, objects, Trim(Trim(ExpressionOf(req))), 0);
    }
  }

  // ----- two evaluations -------------------------------------------------------------------

  ghost predicate Same(env: Env, a: Objects, b: Objects, terms: set<Term>) {
    forall t :: t in terms ==> TermValue(env, a, t) == TermValue(env, b, t)
  }

  /**
   If all reached terms answer alike, so does the whole; if one does not, then one that both
   evaluations get to does not.
   */
  ghost predicate Follows(env: Env, a: Objects, b: Objects, reachedA: set<Term>, reachedB: set<Term>, ta: Traced<bool>, tb: Traced<bool>) {
    if Same(env, a, b, reachedA) then ta == tb && reachedA == reachedB else !Same(env, a, b, reachedA * reachedB)
  }

  lemma SameUnion(env: Env, a: Objects, b: Objects, x: set<Term>, y: set<Term>)
    ensures Same(env, a, b, x + y) <==> Same(env, a, b, x) && Same(env, a, b, y)
  {
  }

  lemma SameLess(env: Env, a: Objects, b: Objects, x: set<Term>, y: set<Term>)
    requires x <= y && Same(env, a, b, y)
    ensures Same(env, a, b, x)
  {
  }

  lemma CmpFollows(env: Env, a: Objects, b: Objects, s: string)
    ensures Follows(env, a, b, ReachedCmp(env, a, s), ReachedCmp(env, b, s), EvalCmp(env, a, s), EvalCmp(env, b, s))
  {
    var (lhs, op, rhs) := SplitCmp(s);
    var l, r := ParseTerm(env, Trim(lhs)), ParseTerm(env, Trim(rhs));
    var both := ReachedCmp(env, a, s) * ReachedCmp(env, b, s);
    assert l in both;
    if TermValue(env, a, l) == TermValue(env, b, l) && TermValue(env, a, l).result.Ok? {
      assert r in both;
    }
  }

  lemma {:induction false} ShapeFollows(env: Env, a: Objects, b: Objects, shape: Shape, depth: nat)
    requires depth <= MAX_EXPR_DEPTH
    ensures Follows(env, a, b, ReachedShape(env, a, shape, depth), ReachedShape(env, b, shape, depth),
                    EvalShape(env, a, shape, depth), EvalShape(env, b, shape, depth))
    decreases MAX_EXPR_DEPTH + 1 - depth, 0
  {
    match shape
    case NotWord(rest) => NotFollows(env, a, b, rest, depth + 1);
    case NotGroup(inner) => OrFollows(env, a, b, inner, depth + 1);
    case Group(inner) => OrFollows(env, a, b, inner, depth + 1);
    case Comparison(s) => CmpFollows(env, a, b, s);
  }

  lemma {:induction false} NotFollows(env: Env, a: Objects, b: Objects, text: string, depth: nat)
    requires depth <= MAX_EXPR_DEPTH + 1
    ensures Follows(env, a, b, ReachedNot(env, a, text, depth), ReachedNot(env, b, text, depth),
                    EvalNot(env, a, text, depth), EvalNot(env, b, text, depth))
    decreases MAX_EXPR_DEPTH + 1 - depth, 1
  {
    if depth <= MAX_EXPR_DEPTH {
      ShapeFollows(env, a, b, ShapeOf(text), depth);
    }
  }

  /** One operand and the rest behind it, which is reached when the operand answers `go`. */
  lemma FollowsOn(env: Env, a: Objects, b: Objects, go: bool,
                  firstA: set<Term>, firstB: set<Term>, fa: Traced<bool>, fb: Traced<bool>,
                  restA: set<Term>, restB: set<Term>, ra: Traced<bool>, rb: Traced<bool>)
    requires Follows(env, a, b, firstA, firstB, fa, fb)
    requires fa.result == fb.result == Ok(go) ==> Follows(env, a, b, restA, restB, ra, rb)
    ensures Follows(env, a, b,
      firstA + (if fa.result == Ok(go) then restA else {}), firstB + (if fb.result == Ok(go) then restB else {}),
      if fa.result != Ok(go) then fa else Traced(ra.result, fa.refs + ra.refs),
      if fb.result != Ok(go) then fb else Traced(rb.result, fb.refs + rb.refs))
  {
    var wholeA := firstA + (if fa.result == Ok(go) then restA else {});
    var wholeB := firstB + (if fb.result == Ok(go) then restB else {});
    if !Same(env, a, b, firstA) {
      if Same(env, a, b, wholeA * wholeB) {
        SameLess(env, a, b, firstA * firstB, wholeA * wholeB);
      }
    } else if fa.result == Ok(go) {
      SameUnion(env, a, b, firstA, restA);
      if !Same(env, a, b, restA) && Same(env, a, b, wholeA * wholeB) {
        SameLess(env, a, b, restA * restB, wholeA * wholeB);
      }
    } else {
      assert wholeA == firstA && wholeB == firstB;
    }
  }

  lemma {:induction false} AllOfFollows(env: Env, a: Objects, b: Objects, parts: seq<string>, depth: nat)
    requires depth <= MAX_EXPR_DEPTH + 1
    ensures Follows(env, a, b, ReachedAllOf(env, a, parts, depth), ReachedAllOf(env, b, parts, depth),
                    EvalAllOf(env, a, parts, depth), EvalAllOf(env, b, parts, depth))
    decreases MAX_EXPR_DEPTH + 1 - depth, 2, |parts|
  {
    if parts != [] {
      NotFollows(env, a, b, parts[0], depth);
      AllOfFollows(env, a, b, parts[1..], depth);
      FollowsOn(env, a, b, true,
        ReachedNot(env, a, parts[0], depth), ReachedNot(env, b, parts[0], depth),
        EvalNot(env, a, parts[0], depth), EvalNot(env, b, parts[0], depth),
        ReachedAllOf(env, a, parts[1..], depth), ReachedAllOf(env, b, parts[1..], depth),
        EvalAllOf(env, a, parts[1..], depth), EvalAllOf(env, b, parts[1..], depth));
    }
  }

  lemma {:induction false} AnyOfFollows(env: Env, a: Objects, b: Objects, parts: seq<string>, depth: nat)
    requires depth <= MAX_EXPR_DEPTH + 1
    ensures Follows(env, a, b, ReachedAnyOf(env, a, parts, depth), ReachedAnyOf(env, b, parts, depth),
                    EvalAnyOf(env, a, parts, depth), EvalAnyOf(env, b, parts, depth))
    decreases MAX_EXPR_DEPTH + 1 - depth, 4, |parts|
  {
    if parts != [] {
      AllOfFollows(env, a, b, SplitTop(parts[0], " and "), depth);
      AnyOfFollows(env, a, b, parts[1..], depth);
      FollowsOn(env, a, b, false,
        ReachedAnd(env, a, parts[0], depth), ReachedAnd(env, b, parts[0], depth),
        EvalAnd(env, a, parts[0], depth), EvalAnd(env, b, parts[0], depth),
        ReachedAnyOf(env, a, parts[1..], depth), ReachedAnyOf(env, b, parts[1..], depth),
        EvalAnyOf(env, a, parts[1..], depth), EvalAnyOf(env, b, parts[1..], depth));
    }
  }

  lemma {:induction false} OrFollows(env: Env, a: Objects, b: Objects, s: string, depth: nat)
    requires depth <= MAX_EXPR_DEPTH + 1
    ensures Follows(env, a, b, ReachedOr(env, a, s, depth), ReachedOr(env, b, s, depth),
                    EvalOr(env, a, s, depth), EvalOr(env, b, s, depth))
    decreases MAX_EXPR_DEPTH + 1 - depth, 5
  {
    AnyOfFollows(env, a, b, SplitTop(s, " or "), depth);
  }

  /**
   Two projects in which the reached terms answer alike give the same verdict. If a reached
   term does not answer alike, then neither does some term that both evaluations get to.
   */
  lemma VerdictFollows(env: Env, a: Objects, b: Objects, reqA: Object, reqB: Object)
    requires ExpressionOf(reqA) == ExpressionOf(reqB)
    ensures Same(env, a, b, Reached(env, a, reqA)) ==>
      EvaluateTraced(env, a, reqA) == EvaluateTraced(env, b, reqB) && Reached(env, a, reqA) == Reached(env, b, reqB)
    ensures !Same(env, a, b, Reached(env, a, reqA)) ==> !Same(env, a, b, Reached(env, a, reqA) * Reached(env, b, reqB))
  {
    if Trim(ExpressionOf(reqA)) != "" {
      OrFollows(env, a, b, Trim(Trim(ExpressionOf(reqA))), 0);
    }
  }

  // ----- names, types and components -----------------------------------------------------------

  /** One question to the (id, name, type) table. */
  datatype Lookup = OfKind(typeId: string) | OfName(name: string)

  function TermLookups(env: Env, objects: Objects, t: Term): set<Lookup> {
    match t
    case ExistsType(typeId) => {OfKind(typeId)}
    case CountType(typeId) => {OfKind(typeId)}
    case NamedExists(name) => {OfName(name)}
    case Volume(name) => {OfName(name)}
    case Area(name) => {OfName(name)}
    case FieldOf(name, _) => {OfName(name)}
    case DistanceOf(a, b) => {OfName(a)} + (if FindNamed(env, objects, a).Some? then {OfName(b)} else {})
    case _ => {}
  }

  /** The lookup trace: every name and type an evaluation asks for. */
  ghost function Lookups(env: Env, objects: Objects, req: Object): set<Lookup> {
    set t, l | t in Reached(env, objects, req) && l in TermLookups(env, objects, t) :: l
  }

  predicate SameAnswer(env: Env, a: Objects, b: Objects, l: Lookup) {
    match l
    case OfKind(typeId) => OfType(a, typeId) == OfType(b, typeId)
    case OfName(name) => FindNamed(env, a, name) == FindNamed(env, b, name)
  }

  ghost predicate SameAnswers(env: Env, a: Objects, b: Objects, lookups: set<Lookup>) {
    forall l :: l in lookups ==> SameAnswer(env, a, b, l)
  }

  ghost predicate AgreeOn(a: Objects, b: Objects, refs: set<Id>) {
    forall i :: i in refs ==> Components(a, i) == Components(b, i)
  }

  /** What measuring an object may look at. */
  function GeometryOf(components: map<string, Component>): map<string, Component> {
    map k | k in components && (k == MESH || k == GEOMETRY || k == TRANSFORM) :: components[k]
  }

  ghost predicate Geometric(env: Env) {
    && (forall a, b :: GeometryOf(a) == GeometryOf(b) ==> env.measures(a) == env.measures(b))
    && (forall a, b, c, d :: GeometryOf(a) == GeometryOf(c) && GeometryOf(b) == GeometryOf(d) ==> env.distance(a, b) == env.distance(c, d))
  }

  /** Does the term read the component of type `component` of object `id`? */
  predicate Reads(env: Env, objects: Objects, t: Term, id: Id, component: string) {
    t.FieldOf? && FindNamed(env, objects, t.name) == Some(id) && Split(t.path, '.')[0] == component
  }

  /** Equal but for one component that is not geometry. */
  predicate AlikeBut(a: map<string, Component>, b: map<string, Component>, component: string) {
    a - {component} == b - {component}
  }

  lemma AlikeGeometry(a: map<string, Component>, b: map<string, Component>, component: string)
    requires AlikeBut(a, b, component) && component != MESH && component != GEOMETRY && component != TRANSFORM
    ensures GeometryOf(a) == GeometryOf(b)
  {
    forall k | k != component
      ensures k in a <==> k in b
      ensures k in a ==> a[k] == b[k]
    {
      assert k in a - {component} <==> k in b - {component};
      if k in a {
        assert (a - {component})[k] == (b - {component})[k];
      }
    }
  }

  lemma AlikeField(a: map<string, Component>, b: map<string, Component>, component: string, path: string)
    requires AlikeBut(a, b, component) && Split(path, '.')[0] != component
    ensures FieldValue(a, path) == FieldValue(b, path)
  {
    var k := Split(path, '.')[0];
    assert k in a - {component} <==> k in b - {component};
    if k in a {
      assert (a - {component})[k] == (b - {component})[k];
    }
  }

  /**
   A term answers alike where its lookups do, where the objects it finds differ at most in one
   component that is not geometry, and where a field of that component which it reads is still the same.
   */
  lemma TermFrame(env: Env, a: Objects, b: Objects, t: Term, component: string)
    requires Geometric(env) && component != MESH && component != GEOMETRY && component != TRANSFORM
    requires SameAnswers(env, a, b, TermLookups(env, a, t))
    requires forall i :: i in TermValue(env, a, t).refs ==> AlikeBut(Components(a, i), Components(b, i), component)
    requires forall i :: Reads(env, a, t, i, component) ==> FieldValue(Components(a, i), t.path) == FieldValue(Components(b, i), t.path)
    ensures TermValue(env, a, t) == TermValue(env, b, t)
  {
    forall l | l in TermLookups(env, a, t)
      ensures SameAnswer(env, a, b, l)
    {
    }
    match t
    case Volume(name) => MeasureFrame(env, a, b, name, component);
    case Area(name) => MeasureFrame(env, a, b, name, component);
    case DistanceOf(x, y) => DistanceFrame(env, a, b, x, y, component);
    case FieldOf(name, path) =>
      assert SameAnswer(env, a, b, OfName(name));
      var found := FindNamed(env, a, name);
      if found.Some? && Split(path, '.')[0] == component {
        assert Reads(env, a, t, found.value, component);
      } else if found.Some? {
        AlikeField(Components(a, found.value), Components(b, found.value), component, path);
      }
    case ExistsType(typeId) => assert SameAnswer(env, a, b, OfKind(typeId));
    case CountType(typeId) => assert SameAnswer(env, a, b, OfKind(typeId));
    case NamedExists(name) => assert SameAnswer(env, a, b, OfName(name));
    case _ =>
  }

  lemma MeasureFrame(env: Env, a: Objects, b: Objects, name: string, component: string)
    requires Geometric(env) && component != MESH && component != GEOMETRY && component != TRANSFORM
    requires FindNamed(env, a, name) == FindNamed(env, b, name)
    requires FindNamed(env, a, name).Some? ==>
      AlikeBut(Components(a, FindNamed(env, a, name).value), Components(b, FindNamed(env, a, name).value), component)
    ensures Measure(env, a, name, false) == Measure(env, b, name, false) && Measure(env, a, name, true) == Measure(env, b, name, true)
  {
    var found := FindNamed(env, a, name);
    if found.Some? {
      AlikeGeometry(Components(a, found.value), Components(b, found.value), component);
    }
  }

  lemma DistanceFrame(env: Env, a: Objects, b: Objects, x: string, y: string, component: string)
    requires Geometric(env) && component != MESH && component != GEOMETRY && component != TRANSFORM
    requires SameAnswers(env, a, b, TermLookups(env, a, DistanceOf(x, y)))
    requires forall i :: i in Distance(env, a, x, y).refs ==> AlikeBut(Components(a, i), Components(b, i), component)
    ensures Distance(env, a, x, y) == Distance(env, b, x, y)
  {
    assert SameAnswer(env, a, b, OfName(x));
    var i, j := FindNamed(env, a, x), FindNamed(env, a, y);
    if i.Some? {
      assert SameAnswer(env, a, b, OfName(y));
      if j.Some? {
        AlikeGeometry(Components(a, i.value), Components(b, i.value), component);
        AlikeGeometry(Components(a, j.value), Components(b, j.value), component);
      }
    }
  }

  /**
   Trace soundness. Whenever two projects answer the lookups of one evaluation alike and agree
   on the components of every object it reports, both give the same status, text and trace.
   */
  lemma TraceSound(env: Env, a: Objects, b: Objects, reqA: Object, reqB: Object)
    requires ExpressionOf(reqA) == ExpressionOf(reqB)
    requires SameAnswers(env, a, b, Lookups(env, a, reqA)) && AgreeOn(a, b, EvaluateTraced(env, a, reqA).refs)
    ensures EvaluateTraced(env, a, reqA) == EvaluateTraced(env, b, reqB)
  {
    VerdictTraces(env, a, reqA);
    VerdictFollows(env, a, b, reqA, reqB);
    forall t | t in Reached(env, a, reqA)
      ensures TermValue(env, a, t) == TermValue(env, b, t)
    {
      forall l | l in TermLookups(env, a, t)
        ensures l in Lookups(env, a, reqA)
      {
      }
      assert TermValue(env, a, t).refs <= EvaluateTraced(env, a, reqA).refs;
      TermSame(env, a, b, t);
    }
  }

  lemma TermSame(env: Env, a: Objects, b: Objects, t: Term)
    requires SameAnswers(env, a, b, TermLookups(env, a, t)) && AgreeOn(a, b, TermValue(env, a, t).refs)
    ensures TermValue(env, a, t) == TermValue(env, b, t)
  {
    forall l | l in TermLookups(env, a, t)
      ensures SameAnswer(env, a, b, l)
    {
    }
    match t
    case ExistsType(typeId) => assert SameAnswer(env, a, b, OfKind(typeId));
    case CountType(typeId) => assert SameAnswer(env, a, b, OfKind(typeId));
    case NamedExists(name) => assert SameAnswer(env, a, b, OfName(name));
    case Volume(name) => assert SameAnswer(env, a, b, OfName(name));
    case Area(name) => assert SameAnswer(env, a, b, OfName(name));
    case FieldOf(name, _) => assert SameAnswer(env, a, b, OfName(name));
    case DistanceOf(x, y) =>
      assert SameAnswer(env, a, b, OfName(x));
      if FindNamed(env, a, x).Some? {
        assert SameAnswer(env, a, b, OfName(y));
      }
    case _ =>
  }

  // ----- the trace names existing objects only ---------------------------------

  lemma FoundExists(env: Env, objects: Objects, name: string)
    requires GoodEnv(env)
    ensures FindNamed(env, objects, name).Some? ==> FindNamed(env, objects, name).value in objects
  {
    var candidates := Named(objects, name);
    assert candidates != {} ==> env.pick(candidates) in candidates;
  }

  lemma TermRefsExist(env: Env, objects: Objects, term: Term)
    requires GoodEnv(env)
    ensures TermValue(env, objects, term).refs <= objects.Keys
  {
    match term
    case NamedExists(name) => FoundExists(env, objects, name);
    case Volume(name) => FoundExists(env, objects, name);
    case Area(name) => FoundExists(env, objects, name);
    case DistanceOf(a, b) => FoundExists(env, objects, a); FoundExists(env, objects, b);
    case FieldOf(name, _) => FoundExists(env, objects, name);
    case _ =>
  }

  lemma RefsExist(env: Env, objects: Objects, req: Object)
    requires GoodEnv(env)
    ensures EvaluateTraced(env, objects, req).refs <= objects.Keys
  {
    VerdictTraces(env, objects, req);
    forall t | t in Reached(env, objects, req)
      ensures TermValue(env, objects, t).refs <= objects.Keys
    {
      TermRefsExist(env, objects, t);
    }
  }
}
