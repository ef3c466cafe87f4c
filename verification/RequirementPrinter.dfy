/**
 Requirement expressions as trees: how a tree is written down, what it means, and the proof
 that the string-splitting evaluator gives a printed tree exactly that meaning.
 */
module RequirementPrinter {
  import opened Prelude
  import opened Text
  import opened Scanner
  import opened ScannerFacts
  import opened Requirement

  // ----- trees -----------------------------------------------------------------

  /** A name or type: bare, or between a pair of quote characters. */
  datatype Arg = Bare(text: string) | Quoted(quote: char, text: string)

  datatype TermTree =
    | Num(text: string)
    | Truth(value: bool)
    | ExistsT(arg: Arg)
    | NamedT(arg: Arg)
    | CountT(arg: Arg)
    | VolumeT(arg: Arg)
    | AreaT(arg: Arg)
    | DistanceT(a: Arg, b: Arg)
    | FieldT(arg: Arg, component: string, segments: seq<string>)

  datatype NotTree =
    | Neg(n: NotTree)
    | NegGroup(e: OrTree)
    | Paren(e: OrTree)
    | Cmp(l: TermTree, op: string, r: TermTree)
    | Alone(t: TermTree)

  datatype AndTree = LastAnd(n: NotTree) | MoreAnd(n: NotTree, rest: AndTree)

  datatype OrTree = LastOr(a: AndTree) | MoreOr(a: AndTree, rest: OrTree)

  // ----- printing --------------------------------------------------------------

  function ArgText(a: Arg): string {
    match a
    case Bare(t) => t
    case Quoted(q, t) => [q] + t + [q]
  }

  function CallText(f: string, args: string): string {
    f + ("(" + args + ")")
  }

  function PathText(segments: seq<string>): string {
    if segments == [] then "" else "." + segments[0] + PathText(segments[1..])
  }

  function TermText(t: TermTree): string {
    match t
    case Num(text) => text
    case Truth(b) => if b then "true" else "false"
    case ExistsT(a) => CallText("exists", ArgText(a))
    case NamedT(a) => CallText("exists_named", ArgText(a))
    case CountT(a) => CallText("count", ArgText(a))
    case VolumeT(a) => CallText("volume", ArgText(a))
    case AreaT(a) => CallText("area", ArgText(a))
    case DistanceT(a, b) => CallText("distance", ArgText(a) + "," + ArgText(b))
    case FieldT(a, c, segments) => CallText("object", ArgText(a)) + PathText([c] + segments)
  }

  function NotText(n: NotTree): string {
    match n
    case Neg(m) => "not" + (" " + NotText(m))
    case NegGroup(e) => "not" + ("(" + OrText(e) + ")")
    case Paren(e) => "(" + OrText(e) + ")"
    case Cmp(l, op, r) => TermText(l) + (" " + op) + (" " + TermText(r))
    case Alone(t) => TermText(t)
  }

  function AndText(a: AndTree): string {
    match a
    case LastAnd(n) => NotText(n)
    case MoreAnd(n, rest) => NotText(n) + " and " + AndText(rest)
  }

  function OrText(e: OrTree): string {
    match e
    case LastOr(a) => AndText(a)
    case MoreOr(a, rest) => AndText(a) + " or " + OrText(rest)
  }

  // ----- which trees can be written down ----------------------------------------

  /** Nothing at either end that trimming `c` would take away. */
  predicate EndsFree(t: string, c: char) {
    t == "" || (t[0] != c && t[|t| - 1] != c)
  }

  /**
   A bare argument balances on its own, quotes included, and survives trimming. A quoted one
   does not contain its own quote character; the other one is trimmed after double quotes.
   */
  predicate ArgOk(a: Arg) {
    match a
    case Bare(t) => Balanced(t) && (t == "" || Tight(t)) && EndsFree(t, '"') && EndsFree(t, '\'')
    case Quoted(q, t) => IsQuote(q) && q !in t && (q == '"' ==> EndsFree(t, '\''))
  }

  /** Path pieces contain nothing that ends a term, and no dot. */
  predicate SegmentOk(s: string) {
    Word(s) && '.' !in s
  }

  predicate TermOk(env: Env, t: TermTree) {
    match t
    case Num(text) => NumberText(text) && env.number(text).Some?
    case Truth(_) => true
    case DistanceT(a, b) => ArgOk(a) && ArgOk(b) && ',' !in a.text
    case FieldT(a, c, segments) => ArgOk(a) && ')' !in a.text && c != "" && SegmentOk(c) && (forall i :: 0 <= i < |segments| ==> SegmentOk(segments[i]))
    case _ => ArgOk(t.arg)
  }

  predicate NotOk(env: Env, n: NotTree) {
    match n
    case Neg(m) => NotOk(env, m)
    case NegGroup(e) => OrOk(env, e)
    case Paren(e) => OrOk(env, e)
    case Cmp(l, op, r) => TermOk(env, l) && IsOp(op) && TermOk(env, r)
    case Alone(t) => TermOk(env, t)
  }

  predicate AndOk(env: Env, a: AndTree) {
    match a
    case LastAnd(n) => NotOk(env, n)
    case MoreAnd(n, rest) => NotOk(env, n) && AndOk(env, rest)
  }

  predicate OrOk(env: Env, e: OrTree) {
    match e
    case LastOr(a) => AndOk(env, a)
    case MoreOr(a, rest) => AndOk(env, a) && OrOk(env, rest)
  }

  // ----- meaning -----------------------------------------------------------------

  function MeanTerm(env: Env, objects: Objects, t: TermTree): Traced<F64>
    requires TermOk(env, t)
  {
    match t
    case Num(text) => Traced(Ok(env.number(text).value), {})
    case Truth(b) => Traced(Ok(Fin(if b then 1.0 else 0.0)), {})
    case ExistsT(a) => Exists(objects, a.text)
    case NamedT(a) => ExistsNamed(env, objects, a.text)
    case CountT(a) => Count(objects, a.text)
    case VolumeT(a) => Measure(env, objects, a.text, false)
    case AreaT(a) => Measure(env, objects, a.text, true)
    case DistanceT(a, b) => Distance(env, objects, a.text, b.text)
    case FieldT(a, c, segments) =>
      var obj := FindNamed(env, objects, a.text);
      if obj.None? then Traced(Err(NoSuchObject(a.text)), {})
      else Traced(FieldAt(Components(objects, obj.value), [c] + segments, c + PathText(segments)), {obj.value})
  }

  /** Short-circuit meaning; a node more than `limit` negations and groups deep is an error. */
  function MeanNot(env: Env, objects: Objects, n: NotTree, depth: nat, limit: nat): Traced<bool>
    requires NotOk(env, n)
    decreases n
  {
    if depth > limit then Traced(Err(BadInput("expression nested too deeply")), {}) else
      match n
      case Neg(m) => Negate(MeanNot(env, objects, m, depth + 1, limit))
      case NegGroup(e) => Negate(MeanOr(env, objects, e, depth + 1, limit))
      case Paren(e) => MeanOr(env, objects, e, depth + 1, limit)
      case Cmp(l, op, r) => CompareTraced(op, MeanTerm(env, objects, l), MeanTerm(env, objects, r))
      case Alone(t) => CompareTraced("==", MeanTerm(env, objects, t), Traced(Ok(Fin(1.0)), {}))
  }

  function MeanAnd(env: Env, objects: Objects, a: AndTree, depth: nat, limit: nat): Traced<bool>
    requires AndOk(env, a)
    decreases a
  {
    match a
    case LastAnd(n) => MeanNot(env, objects, n, depth, limit)
    case MoreAnd(n, rest) =>
      var first := MeanNot(env, objects, n, depth, limit);
      if first.result != Ok(true) then first else
        var more := MeanAnd(env, objects, rest, depth, limit);
        Traced(more.result, first.refs + more.refs)
  }

  function MeanOr(env: Env, objects: Objects, e: OrTree, depth: nat, limit: nat): Traced<bool>
    requires OrOk(env, e)
    decreases e
  {
    match e
    case LastOr(a) => MeanAnd(env, objects, a, depth, limit)
    case MoreOr(a, rest) =>
      var first := MeanAnd(env, objects, a, depth, limit);
      if first.result != Ok(false) then first else
        var more := MeanOr(env, objects, rest, depth, limit);
        Traced(more.result, first.refs + more.refs)
  }

  // ----- terms --------------------------------------------------------------------

  lemma {:induction false} ScanQuoted(q: char, t: string)
    requires IsQuote(q) && q !in t
    ensures BalancedFrom(t + [q], Scan(0, Some(q)))
    decreases |t|
  {
    if t == "" {
      assert t + [q] == [q] && [q][1..] == "";
      assert Next(Scan(0, Some(q)), q) == TOP;
      assert BalancedFrom([q][1..], TOP);
    } else {
      assert (t + [q])[0] == t[0] && (t + [q])[1..] == t[1..] + [q];
      assert t[0] in t;
      assert Next(Scan(0, Some(q)), t[0]) == Scan(0, Some(q));
      ScanQuoted(q, t[1..]);
    }
  }

  lemma ArgBalanced(a: Arg)
    requires ArgOk(a)
    ensures Balanced(ArgText(a))
  {
    if a.Quoted? {
      var q, t := a.quote, a.text;
      ScanQuoted(q, t);
      var s := [q] + t + [q];
      assert s[0] == q && s[1..] == t + [q];
      assert Next(TOP, q) == Scan(0, Some(q));
    }
  }

  lemma TrimOff(t: string, c: char)
    requires EndsFree(t, c)
    ensures TrimStartChar(t, c) == t && TrimEndChar(t, c) == t && TrimChar(t, c) == t
  {
  }

  /** Trimming both quote characters gives back the text, wherever the argument stands. */
  lemma ArgUnquotes(a: Arg)
    requires ArgOk(a)
    ensures Unquote(ArgText(a)) == a.text && Unquote(Trim(ArgText(a))) == a.text
  {
    var s := ArgText(a);
    match a
    case Bare(t) =>
      if t != "" {
        TrimTight(t);
      }
      TrimOff(t, '"');
      TrimOff(t, '\'');
    case Quoted(q, t) =>
      assert s[0] == q && s[|s| - 1] == q;
      TrimTight(s);
      QuotesOff(q, t);
      if q == '"' {
        TrimOff(t, '\'');
      } else {
        TrimOff(s, '"');
      }
  }

  lemma QuotesOff(q: char, t: string)
    requires q !in t
    ensures TrimChar([q] + t + [q], q) == t
  {
    var s := [q] + t + [q];
    assert s[0] == q && s[1..] == t + [q];
    if t == "" {
      assert t + [q] == [q] && [q][1..] == "";
      assert TrimStartChar([q], q) == "";
    } else {
      assert (t + [q])[0] == t[0] && t[0] in t;
      assert TrimStartChar(s, q) == t + [q];
      assert (t + [q])[..|t + [q]| - 1] == t;
      assert t[|t| - 1] in t;
      TrimOff(t, q);
    }
  }

  lemma CallArgsOf(f: string, args: string)
    ensures CallArgs(CallText(f, args), f) == Some(args)
  {
    var s := CallText(f, args);
    assert s[..|f|] == f && s[|f|..] == "(" + args + ")";
    var r := "(" + args + ")";
    assert r[..1] == "(" && r[1..] == args + ")";
    var q := args + ")";
    assert q[|q| - 1..] == ")" && q[..|q| - 1] == args;
  }

  /** A text with another head, or with another character where `f` would end, is no call of `f`. */
  lemma NotCall(s: string, f: string, j: nat)
    requires j <= |f| && j < |s| && s[j] != (f + "(")[j]
    ensures CallArgs(s, f) == None
  {
    if StartsWith(s, f) {
      assert forall k :: 0 <= k < |f| ==> s[k] == s[..|f|][k];
      assert s[|f|..][0] == s[|f|];
    }
  }

  lemma NotNumber(env: Env, s: string, j: nat)
    requires GoodEnv(env) && j < |s| && !IsFloatChar(s[j])
    ensures env.number(s).None?
  {
  }

  lemma SplitsOnceAt(a: string, b: string, c: char)
    requires c !in a
    ensures SplitOnce(a + [c] + b, c) == Some((a, b))
  {
    FindAfter(a, c, b);
    var s := a + [c] + b;
    assert s[..|a|] == a && s[|a| + 1..] == b;
  }

  lemma ArgWithout(a: Arg, c: char)
    requires ArgOk(a) && c !in a.text && !IsQuote(c)
    ensures c !in ArgText(a)
  {
  }

  lemma {:induction false} NoChar(s: string, c: char)
    requires c !in s
    ensures Find(s, c) == None
  {
  }

  /** The dotted path splits back into its pieces. */
  lemma {:induction false} PathSplits(c: string, segments: seq<string>)
    requires '.' !in c && forall i :: 0 <= i < |segments| ==> '.' !in segments[i]
    ensures Split(c + PathText(segments), '.') == [c] + segments
    decreases |segments|
  {
    if segments == [] {
      assert c + PathText(segments) == c;
      NoChar(c, '.');
    } else {
      var more := segments[0] + PathText(segments[1..]);
      assert PathText(segments) == ['.'] + more;
      assert c + PathText(segments) == c + ['.'] + more;
      hide Split, PathText;
      SplitsBefore(c, '.', more);
      PathSplits(segments[0], segments[1..]);
      assert [c] + ([segments[0]] + segments[1..]) == [c] + segments;
    }
  }

  lemma SplitsBefore(head: string, c: char, rest: string)
    requires c !in head
    ensures Split(head + [c] + rest, c) == [head] + Split(rest, c)
  {
    FindAfter(head, c, rest);
    var s := head + [c] + rest;
    assert s[..|head|] == head && s[|head| + 1..] == rest;
  }

  // ----- printed terms ---------------------------------------------------------------

  /** What every printed piece offers to the text around it. */
  ghost predicate Piece(t: string) {
    && Tight(t) && Starter(t) && Balanced(t) && ScanAll(t, TOP) == TOP
    && Clear(t, OrWord, TOP) && Clear(t, AndWord, TOP)
  }

  lemma CallClear(f: string, args: string, n: Needle)
    requires Word(f) && f != "" && Balanced(args)
    ensures var s := CallText(f, args);
            && Balanced(s) && ScanAll(s, TOP) == TOP && Clear(s, n, TOP)
            && |s| > |f| && s[..|f|] == f && s[|s| - 1] == ')'
  {
    var g := "(" + args + ")";
    WordFacts(f, n);
    BalancedGroup(args);
    ClearGroup(args, n);
    BalancedConcat(f, g);
    ClearConcat(f, g, n, TOP);
    ScanConcat(f, g, TOP);
  }

  lemma {:induction false} PathWord(segments: seq<string>)
    requires forall i :: 0 <= i < |segments| ==> SegmentOk(segments[i])
    ensures Word(PathText(segments))
    decreases |segments|
  {
    if segments != [] {
      assert SegmentOk(segments[0]);
      PathWord(segments[1..]);
    }
  }

  lemma FieldClear(args: string, path: string, n: Needle)
    requires Balanced(args) && Word(path)
    ensures var s := CallText("object", args) + path;
            && Balanced(s) && ScanAll(s, TOP) == TOP && Clear(s, n, TOP)
  {
    CallClear("object", args, n);
    WordFacts(path, n);
    BalancedConcat(CallText("object", args), path);
    ClearConcat(CallText("object", args), path, n, TOP);
    ScanConcat(CallText("object", args), path, TOP);
  }

  /** The function name and the arguments of a term that is a call. */
  function CallName(t: TermTree): string {
    match t
    case ExistsT(_) => "exists"
    case NamedT(_) => "exists_named"
    case CountT(_) => "count"
    case VolumeT(_) => "volume"
    case AreaT(_) => "area"
    case DistanceT(_, _) => "distance"
    case _ => "object"
  }

  function CallArguments(t: TermTree): string
    requires !t.Num? && !t.Truth?
  {
    if t.DistanceT? then ArgText(t.a) + "," + ArgText(t.b) else ArgText(t.arg)
  }

  lemma ArgumentsBalanced(env: Env, t: TermTree)
    requires TermOk(env, t) && !t.Num? && !t.Truth?
    ensures Balanced(CallArguments(t))
  {
    if t.DistanceT? {
      ArgBalanced(t.a);
      ArgBalanced(t.b);
      WordFacts(",", OrWord);
      BalancedConcat(ArgText(t.a), ",");
      BalancedConcat(ArgText(t.a) + ",", ArgText(t.b));
    } else {
      ArgBalanced(t.arg);
    }
  }

  predicate Letters(f: string) {
    f != "" && forall i :: 0 <= i < |f| ==> 'a' <= f[i] <= 'z' || f[i] == '_'
  }

  lemma LettersWord(f: string)
    requires Letters(f)
    ensures Word(f)
  {
  }

  lemma CallNameLetters(t: TermTree)
    ensures Letters(CallName(t)) && Starter(CallName(t)) && CallName(t)[0] != 'n'
  {
  }

  lemma CallTermText(t: TermTree)
    requires !t.Num? && !t.Truth? && !t.FieldT?
    ensures TermText(t) == CallText(CallName(t), CallArguments(t))
  {
  }

  lemma CallTermClear(env: Env, t: TermTree, n: Needle)
    requires TermOk(env, t) && !t.Num? && !t.Truth? && !t.FieldT?
    ensures Balanced(TermText(t)) && ScanAll(TermText(t), TOP) == TOP && Clear(TermText(t), n, TOP)
  {
    ArgumentsBalanced(env, t);
    CallNameLetters(t);
    LettersWord(CallName(t));
    CallTermText(t);
    CallClear(CallName(t), CallArguments(t), n);
  }

  lemma FieldPathWord(env: Env, t: TermTree)
    requires TermOk(env, t) && t.FieldT?
    ensures Word(PathText([t.component] + t.segments)) && PathText([t.component] + t.segments) != ""
  {
    var all := [t.component] + t.segments;
    forall i | 0 <= i < |all| ensures SegmentOk(all[i]) {
    }
    PathWord(all);
  }

  lemma TermClear(env: Env, t: TermTree, n: Needle)
    requires TermOk(env, t)
    ensures Balanced(TermText(t)) && ScanAll(TermText(t), TOP) == TOP && Clear(TermText(t), n, TOP)
  {
    if t.Num? || t.Truth? {
      if t.Num? {
        NumberFacts(t.text);
      }
      WordFacts(TermText(t), n);
    } else if t.FieldT? {
      ArgumentsBalanced(env, t);
      FieldPathWord(env, t);
      FieldClear(ArgText(t.arg), PathText([t.component] + t.segments), n);
    } else {
      CallTermClear(env, t, n);
    }
  }

  /** Does the text begin as `not` does? */
  predicate LooksNegated(s: string) {
    |s| > 1 && s[0] == 'n' && s[1] == 'o'
  }

  /** A term begins neither as `not` nor as a group does, and its ends are not white space. */
  predicate TermLike(s: string) {
    Tight(s) && Starter(s) && !LooksNegated(s) && s[0] != '(' && s[0] != '='
  }

  /** Every literal the number parser takes is one plain word: exponents, `inf` and `nan` included. */
  lemma NumberFacts(s: string)
    requires NumberText(s)
    ensures Word(s) && TermLike(s)
  {
    hide IsFloatChar, Plain;
    forall i | 0 <= i < |s|
      ensures Plain(s[i]) && s[i] != 'o' && !IsSpace(s[i])
    {
      FloatChar(s[i]);
    }
  }

  lemma FloatChar(c: char)
    requires IsFloatChar(c)
    ensures Plain(c) && c != 'o' && !IsSpace(c)
  {
  }

  /** Nothing that parses as a number is left out. */
  lemma EveryNumberIsOk(env: Env, text: string)
    requires GoodEnv(env)
    ensures TermOk(env, Num(text)) <==> env.number(text).Some?
  {
  }

  /** A call, with or without a path behind it, looks like its name on the left. */
  lemma CallEnds(f: string, args: string, path: string)
    requires Letters(f) && Starter(f) && f[0] != 'n' && Word(path)
    ensures TermLike(CallText(f, args) + path)
  {
    var head := CallText(f, args);
    var s := head + path;
    assert head[0] == f[0] && (|f| > 1 ==> head[1] == f[1]) && head[|head| - 1] == ')';
    assert s[0] == head[0] && s[1] == head[1];
    if |f| == 1 {
      assert f[0] != 'o' && f[0] != 'a';
    }
    if path != "" {
      assert s[|s| - 1] == path[|path| - 1];
      assert Plain(path[|path| - 1]);
    }
  }

  lemma TermEnds(env: Env, t: TermTree)
    requires TermOk(env, t)
    ensures TermLike(TermText(t))
  {
    if t.Num? {
      NumberFacts(t.text);
    } else if t.Truth? {
    } else if t.FieldT? {
      FieldPathWord(env, t);
      CallEnds("object", ArgText(t.arg), PathText([t.component] + t.segments));
    } else {
      CallTermText(t);
      CallNameLetters(t);
      var s := CallText(CallName(t), CallArguments(t));
      assert s + "" == s;
      CallEnds(CallName(t), CallArguments(t), "");
    }
  }

  lemma TermPiece(env: Env, t: TermTree)
    requires TermOk(env, t)
    ensures Piece(TermText(t))
  {
    TermEnds(env, t);
    TermClear(env, t, OrWord);
    TermClear(env, t, AndWord);
  }

  // ----- a printed term is read as what it says -----------------------------------

  /** A text whose head differs from that of `f` is no call of `f`. */
  lemma OtherHead(s: string, f: string)
    requires s != "" && f != "" && s[0] != f[0]
    ensures CallArgs(s, f) == None
  {
    NotCall(s, f, 0);
  }

  lemma ParseNum(env: Env, t: TermTree)
    requires TermOk(env, t) && t.Num?
    ensures ParseTerm(env, TermText(t)) == Literal(env.number(t.text).value)
  {
    TermEnds(env, t);
    TrimTight(t.text);
  }

  lemma ParseTruth(env: Env, t: TermTree)
    requires GoodEnv(env) && TermOk(env, t) && t.Truth?
    ensures ParseTerm(env, TermText(t)) == Literal(Fin(if t.value then 1.0 else 0.0))
  {
    TermEnds(env, t);
    TrimTight(TermText(t));
    NotNumber(env, "true", 1);
    NotNumber(env, "false", 2);
  }

  /** A text with a letter no number contains, and more than a truth value. */
  lemma NeitherNumberNorTruth(env: Env, s: string, j: nat)
    requires GoodEnv(env) && j < |s| && !IsFloatChar(s[j]) && |s| > 5
    requires Tight(s)
    ensures Trim(s) == s && env.number(s).None? && s != "true" && s != "false"
  {
    TrimTight(s);
    NotNumber(env, s, j);
  }

  lemma ParseExists(env: Env, a: Arg)
    requires GoodEnv(env) && ArgOk(a)
    ensures ParseTerm(env, CallText("exists", ArgText(a))) == ExistsType(a.text)
  {
    var s := CallText("exists", ArgText(a));
    TermEnds(env, ExistsT(a));
    NeitherNumberNorTruth(env, s, 1);
    CallArgsOf("exists", ArgText(a));
    ArgUnquotes(a);
  }

  lemma NamedIsNotExists(args: string)
    ensures CallArgs(CallText("exists_named", args), "exists") == None
  {
    var s := CallText("exists_named", args);
    assert "exists_named"[6] == '_' && ("exists" + "(")[6] == '(';
    assert s[6] == "exists_named"[6];
    NotCall(s, "exists", 6);
  }

  lemma ParseNamed(env: Env, a: Arg)
    requires GoodEnv(env) && ArgOk(a)
    ensures ParseTerm(env, CallText("exists_named", ArgText(a))) == NamedExists(a.text)
  {
    var s := CallText("exists_named", ArgText(a));
    TermEnds(env, NamedT(a));
    NeitherNumberNorTruth(env, s, 1);
    NamedIsNotExists(ArgText(a));
    CallArgsOf("exists_named", ArgText(a));
    ArgUnquotes(a);
  }

  lemma ParseCount(env: Env, a: Arg)
    requires GoodEnv(env) && ArgOk(a)
    ensures ParseTerm(env, CallText("count", ArgText(a))) == CountType(a.text)
  {
    var s := CallText("count", ArgText(a));
    TermEnds(env, CountT(a));
    NeitherNumberNorTruth(env, s, 0);
    OtherHead(s, "exists");
    OtherHead(s, "exists_named");
    CallArgsOf("count", ArgText(a));
    ArgUnquotes(a);
  }

  lemma ParseVolume(env: Env, a: Arg)
    requires GoodEnv(env) && ArgOk(a)
    ensures ParseTerm(env, CallText("volume", ArgText(a))) == Volume(a.text)
  {
    var s := CallText("volume", ArgText(a));
    TermEnds(env, VolumeT(a));
    NeitherNumberNorTruth(env, s, 0);
    OtherHead(s, "exists");
    OtherHead(s, "exists_named");
    OtherHead(s, "count");
    CallArgsOf("volume", ArgText(a));
    ArgUnquotes(a);
  }

  lemma ParseArea(env: Env, a: Arg)
    requires GoodEnv(env) && ArgOk(a)
    ensures ParseTerm(env, CallText("area", ArgText(a))) == Area(a.text)
  {
    var s := CallText("area", ArgText(a));
    TermEnds(env, AreaT(a));
    NeitherNumberNorTruth(env, s, 1);
    OtherHead(s, "exists");
    OtherHead(s, "exists_named");
    OtherHead(s, "count");
    OtherHead(s, "volume");
    CallArgsOf("area", ArgText(a));
    ArgUnquotes(a);
  }

  lemma DistanceArgs(a: Arg, b: Arg)
    requires ArgOk(a) && ArgOk(b) && ',' !in a.text
    ensures ParseDistance(ArgText(a) + "," + ArgText(b)) == DistanceOf(a.text, b.text)
  {
    ArgWithout(a, ',');
    SplitsOnceAt(ArgText(a), ArgText(b), ',');
    ArgUnquotes(a);
    ArgUnquotes(b);
  }

  lemma ParseDistanceCall(env: Env, a: Arg, b: Arg)
    requires GoodEnv(env) && ArgOk(a) && ArgOk(b) && ',' !in a.text
    ensures ParseTerm(env, CallText("distance", ArgText(a) + "," + ArgText(b))) == DistanceOf(a.text, b.text)
  {
    var s := CallText("distance", ArgText(a) + "," + ArgText(b));
    TermEnds(env, DistanceT(a, b));
    NeitherNumberNorTruth(env, s, 0);
    OtherHead(s, "exists");
    OtherHead(s, "exists_named");
    OtherHead(s, "count");
    OtherHead(s, "volume");
    OtherHead(s, "area");
    CallArgsOf("distance", ArgText(a) + "," + ArgText(b));
    DistanceArgs(a, b);
  }

  lemma FieldArgs(a: Arg, path: string)
    requires ArgOk(a) && ')' !in a.text && path != "" && path[0] != '.'
    ensures ParseField(ArgText(a) + ")" + ("." + path)) == FieldOf(a.text, path)
  {
    ArgWithout(a, ')');
    SplitsOnceAt(ArgText(a), "." + path, ')');
    ArgUnquotes(a);
    var s := "." + path;
    assert s[0] == '.' && s[1..] == path;
    assert TrimStartChar(s, '.') == TrimStartChar(path, '.') == path;
  }

  /** The text of a field term, cut where the evaluator cuts it. */
  lemma FieldText(env: Env, t: TermTree)
    requires TermOk(env, t) && t.FieldT?
    ensures var path := t.component + PathText(t.segments);
            && TermText(t) == "object(" + (ArgText(t.arg) + ")" + ("." + path))
            && path != "" && path[0] != '.'
  {
    var path := t.component + PathText(t.segments);
    var all := [t.component] + t.segments;
    assert all[0] == t.component && all[1..] == t.segments;
    assert PathText(all) == "." + path;
    assert t.component[0] in t.component && path[0] == t.component[0];
    assert CallText("object", ArgText(t.arg)) == "object(" + ArgText(t.arg) + ")";
  }

  lemma NoOtherCall(s: string)
    requires s != "" && s[0] == 'o'
    ensures CallArgs(s, "exists").None? && CallArgs(s, "exists_named").None? && CallArgs(s, "count").None?
    ensures CallArgs(s, "volume").None? && CallArgs(s, "area").None? && CallArgs(s, "distance").None?
  {
    OtherHead(s, "exists");
    OtherHead(s, "exists_named");
    OtherHead(s, "count");
    OtherHead(s, "volume");
    OtherHead(s, "area");
    OtherHead(s, "distance");
  }

  lemma StripObject(inner: string)
    ensures StripPrefix("object(" + inner, "object(") == Some(inner)
  {
    var s := "object(" + inner;
    assert s[..|"object("|] == "object(" && s[|"object("|..] == inner;
  }

  lemma ParseFieldCall(env: Env, t: TermTree)
    requires GoodEnv(env) && TermOk(env, t) && t.FieldT?
    ensures ParseTerm(env, TermText(t)) == FieldOf(t.arg.text, t.component + PathText(t.segments))
  {
    var s := TermText(t);
    var path := t.component + PathText(t.segments);
    var inner := ArgText(t.arg) + ")" + ("." + path);
    FieldText(env, t);
    TermEnds(env, t);
    assert s[0] == "object("[0] == 'o';
    NeitherNumberNorTruth(env, s, 0);
    NoOtherCall(s);
    StripObject(inner);
    FieldArgs(t.arg, path);
  }

  /** What the evaluator reads a printed term as. */
  function Reading(env: Env, t: TermTree): Term
    requires TermOk(env, t)
  {
    match t
    case Num(text) => Literal(env.number(text).value)
    case Truth(v) => Literal(Fin(if v then 1.0 else 0.0))
    case ExistsT(a) => ExistsType(a.text)
    case NamedT(a) => NamedExists(a.text)
    case CountT(a) => CountType(a.text)
    case VolumeT(a) => Volume(a.text)
    case AreaT(a) => Area(a.text)
    case DistanceT(a, b) => DistanceOf(a.text, b.text)
    case FieldT(a, c, segments) => FieldOf(a.text, c + PathText(segments))
  }

  lemma TermParses(env: Env, t: TermTree)
    requires GoodEnv(env) && TermOk(env, t)
    ensures ParseTerm(env, TermText(t)) == Reading(env, t)
  {
    match t
    case Num(_) => ParseNum(env, t);
    case Truth(_) => ParseTruth(env, t);
    case ExistsT(a) => ParseExists(env, a);
    case NamedT(a) => ParseNamed(env, a);
    case CountT(a) => ParseCount(env, a);
    case VolumeT(a) => ParseVolume(env, a);
    case AreaT(a) => ParseArea(env, a);
    case DistanceT(a, b) => ParseDistanceCall(env, a, b);
    case FieldT(_, _, _) => ParseFieldCall(env, t);
  }

  lemma ReadingMeans(env: Env, objects: Objects, t: TermTree)
    requires TermOk(env, t)
    ensures TermValue(env, objects, Reading(env, t)) == MeanTerm(env, objects, t)
  {
    if t.FieldT? {
      FieldMeans(env, objects, t);
    }
  }

  lemma FieldMeans(env: Env, objects: Objects, t: TermTree)
    requires TermOk(env, t) && t.FieldT?
    ensures TermValue(env, objects, Reading(env, t)) == MeanTerm(env, objects, t)
  {
    hide Field, FieldAt, Split, PathText, FindNamed;
    PathSplits(t.component, t.segments);
    FieldOfPath(env, objects, t.arg.text, t.component + PathText(t.segments), [t.component] + t.segments);
  }

  lemma FieldOfPath(env: Env, objects: Objects, name: string, path: string, parts: seq<string>)
    requires Split(path, '.') == parts && parts != []
    ensures FindNamed(env, objects, name).None? ==> Field(env, objects, name, path) == Traced(Err(NoSuchObject(name)), {})
    ensures FindNamed(env, objects, name).Some? ==>
      var id := FindNamed(env, objects, name).value;
      Field(env, objects, name, path) == Traced(FieldAt(Components(objects, id), parts, path), {id})
  {
  }

  lemma TermMeaning(env: Env, objects: Objects, t: TermTree)
    requires GoodEnv(env) && TermOk(env, t)
    ensures EvalTerm(env, objects, TermText(t)) == MeanTerm(env, objects, t)
  {
    TermParses(env, t);
    ReadingMeans(env, objects, t);
  }
}
