/** Evaluating a printed expression gives the meaning of the tree it was printed from. */
module RequirementRoundTrip {
  import opened Prelude
  import opened Scanner
  import opened ScannerFacts
  import opened Requirement
  import opened RequirementPrinter

  // ----- printed pieces fit next to each other -----------------------------------

  /** What a conjunction offers: only its own separator may show. */
  ghost predicate AndPiece(t: string) {
    Tight(t) && Starter(t) && Balanced(t) && ScanAll(t, TOP) == TOP && Clear(t, OrWord, TOP)
  }

  ghost predicate OrPiece(t: string) {
    Tight(t) && Starter(t) && Balanced(t)
  }

  lemma SpaceThenPiece(a: string, t: string, n: Needle)
    requires Balanced(a) && ScanAll(a, TOP) == TOP && Clear(a, n, TOP)
    requires Starter(t) && Balanced(t) && Clear(t, n, TOP)
    ensures Balanced(a + (" " + t)) && ScanAll(a + (" " + t), TOP) == TOP && Clear(a + (" " + t), n, TOP)
  {
    SpaceThen(t, n);
    BalancedScans(t, TOP);
    BalancedConcat(a, " " + t);
    ScanConcat(a, " " + t, TOP);
    ClearConcat(a, " " + t, n, TOP);
  }

  lemma NegText(t: string, n: Needle)
    requires Starter(t) && Balanced(t) && Clear(t, n, TOP)
    ensures var s := "not" + (" " + t); Balanced(s) && ScanAll(s, TOP) == TOP && Clear(s, n, TOP)
  {
    assert Letters("not");
    LettersWord("not");
    WordFacts("not", n);
    SpaceThenPiece("not", t, n);
  }

  lemma GroupText(word: string, t: string, n: Needle)
    requires Word(word) && Balanced(t)
    ensures var s := word + ("(" + t + ")"); Balanced(s) && ScanAll(s, TOP) == TOP && Clear(s, n, TOP)
  {
    var g := "(" + t + ")";
    WordFacts(word, n);
    BalancedGroup(t);
    ClearGroup(t, n);
    BalancedConcat(word, g);
    ScanConcat(word, g, TOP);
    ClearConcat(word, g, n, TOP);
  }

  lemma CmpText(l: string, op: string, r: string, n: Needle)
    requires Piece(l) && Piece(r) && IsOp(op) && n != Operator
    ensures var s := l + (" " + op) + (" " + r); Balanced(s) && ScanAll(s, TOP) == TOP && Clear(s, n, TOP)
  {
    SpacedOpFacts(op, n);
    BalancedConcat(l, " " + op);
    ScanConcat(l, " " + op, TOP);
    ClearConcat(l, " " + op, n, TOP);
    SpaceThenPiece(l + (" " + op), r, n);
  }

  lemma NegPiece(t: string)
    requires Piece(t)
    ensures Piece("not" + (" " + t))
  {
    var s := "not" + (" " + t);
    NegText(t, OrWord);
    NegText(t, AndWord);
    assert s[|s| - 1] == t[|t| - 1];
  }

  lemma GroupPiece(word: string, t: string)
    requires (word == "" || word == "not") && Balanced(t)
    ensures Piece(word + ("(" + t + ")"))
  {
    var s := word + ("(" + t + ")");
    if word == "not" {
      LettersWord("not");
    }
    GroupText(word, t, OrWord);
    GroupText(word, t, AndWord);
    assert s[0] == if word == "" then '(' else 'n';
    assert s[|s| - 1] == ')';
  }

  lemma CmpPiece(l: string, op: string, r: string)
    requires Piece(l) && Piece(r) && IsOp(op)
    ensures Piece(l + (" " + op) + (" " + r))
  {
    CmpText(l, op, r, OrWord);
    CmpText(l, op, r, AndWord);
    CmpEnds(l, op, r);
  }

  lemma {:induction false} NotPiece(env: Env, n: NotTree)
    requires NotOk(env, n)
    ensures Piece(NotText(n))
    decreases n
  {
    match n
    case Neg(m) =>
      NotPiece(env, m);
      NegPiece(NotText(m));
    case NegGroup(e) =>
      OrFits(env, e);
      GroupPiece("not", OrText(e));
    case Paren(e) =>
      OrFits(env, e);
      GroupPiece("", OrText(e));
      assert "" + NotText(n) == NotText(n);
    case Cmp(l, op, r) =>
      TermPiece(env, l);
      TermPiece(env, r);
      CmpPiece(TermText(l), op, TermText(r));
    case Alone(t) => TermPiece(env, t);
  }

  lemma CmpEnds(l: string, op: string, r: string)
    requires Tight(l) && Starter(l) && Tight(r) && IsOp(op)
    ensures var s := l + (" " + op) + (" " + r); Tight(s) && Starter(s) && s[0] == l[0]
  {
    var s := l + (" " + op) + (" " + r);
    assert s[0] == l[0] && s[|s| - 1] == r[|r| - 1];
    if |l| > 1 {
      assert s[1] == l[1];
    }
  }

  /** Pasting a separator between two tight texts gives a tight text with the same head. */
  lemma JoinEnds(a: string, sep: string, b: string)
    requires Tight(a) && Starter(a) && Tight(b) && |sep| > 0
    ensures Tight(a + sep + b) && Starter(a + sep + b)
  {
    var s := a + sep + b;
    assert s[0] == a[0] && s[|s| - 1] == b[|b| - 1];
    if |a| > 1 {
      assert s[1] == a[1];
    }
  }

  lemma AndWordClear()
    ensures Balanced(" and") && ScanAll(" and", TOP) == TOP && Clear(" and", OrWord, TOP)
    ensures Balanced(" or")
  {
    assert Letters("and") && Letters("or");
    LettersWord("and");
    LettersWord("or");
    WordFacts("and", OrWord);
    WordFacts("or", OrWord);
    var s := " and";
    assert s[0] == ' ' && s[1..] == "and" && s[1] != " or "[1];
    assert Next(TOP, ' ') == TOP;
    assert " or"[0] == ' ' && " or"[1..] == "or";
  }

  lemma JoinAnd(x: string, y: string)
    requires Piece(x) && AndPiece(y)
    ensures AndPiece(x + " and " + y)
  {
    AndWordClear();
    BalancedConcat(x, " and");
    ScanConcat(x, " and", TOP);
    ClearConcat(x, " and", OrWord, TOP);
    SpaceThenPiece(x + " and", y, OrWord);
    JoinEnds(x, " and ", y);
    assert x + " and" + (" " + y) == x + " and " + y;
  }

  lemma JoinOr(x: string, y: string)
    requires AndPiece(x) && OrPiece(y)
    ensures OrPiece(x + " or " + y)
  {
    AndWordClear();
    BalancedConcat(x, " or");
    assert Balanced(" " + y) by {
      var s := " " + y;
      assert s[0] == ' ' && s[1..] == y && Next(TOP, ' ') == TOP;
    }
    BalancedConcat(x + " or", " " + y);
    JoinEnds(x, " or ", y);
    assert x + " or" + (" " + y) == x + " or " + y;
  }

  lemma {:induction false} AndFits(env: Env, a: AndTree)
    requires AndOk(env, a)
    ensures AndPiece(AndText(a))
    decreases a
  {
    match a
    case LastAnd(n) => NotPiece(env, n);
    case MoreAnd(n, rest) =>
      NotPiece(env, n);
      AndFits(env, rest);
      JoinAnd(NotText(n), AndText(rest));
  }

  lemma {:induction false} OrFits(env: Env, e: OrTree)
    requires OrOk(env, e)
    ensures OrPiece(OrText(e))
    decreases e
  {
    match e
    case LastOr(a) => AndFits(env, a);
    case MoreOr(a, rest) =>
      AndFits(env, a);
      OrFits(env, rest);
      JoinOr(AndText(a), OrText(rest));
  }

  // ----- a printed operand is read as what it is ------------------------------------

  lemma ShapeNeg(t: string)
    requires Tight(t)
    ensures ShapeOf("not" + (" " + t)) == NotWord(t)
  {
    var s := "not" + (" " + t);
    assert s[|s| - 1] == t[|t| - 1];
    TrimTight(s);
    assert s[..4] == "not " && s[4..] == t;
  }

  lemma ShapeNegGroup(t: string)
    requires Tight(t) && Balanced(t)
    ensures ShapeOf("not" + ("(" + t + ")")) == NotGroup(t)
  {
    var s := "not" + ("(" + t + ")");
    TrimTight(s);
    assert s[3] == '(';
    assert s[..4][3] == '(' && "not "[3] == ' ';
    assert s[..4] == "not(" && s[|s| - 1..] == ")" && s[4..|s| - 1] == t;
    TrimTight(t);
  }

  lemma ShapeGroup(t: string)
    requires Tight(t) && Balanced(t)
    ensures ShapeOf("(" + t + ")") == Group(t)
  {
    var s := "(" + t + ")";
    TrimTight(s);
    assert s[0] == '(';
    if |s| >= 4 {
      assert s[..4][0] == '(';
    }
    assert s[..1] == "(" && s[|s| - 1..] == ")" && s[1..|s| - 1] == t;
    TrimTight(t);
  }

  lemma ShapeComparison(s: string)
    requires Tight(s) && !LooksNegated(s) && s[0] != '('
    ensures ShapeOf(s) == Comparison(s)
  {
    TrimTight(s);
    if |s| >= 4 {
      assert s[..4][0] == s[0] && s[..4][1] == s[1];
    }
    assert s[..1][0] == s[0];
  }

  /** Cutting a text at the operator that was found. */
  lemma CutAtOp(head: string, op: string, rest: string)
    requires FirstOp(head + (op + rest), TOP) == Some(|head|) && OpAt(op + rest) == Some(op)
    ensures SplitCmp(head + (op + rest)) == (head, op, rest)
  {
    var s := head + (op + rest);
    assert s[..|head|] == head && s[|head|..] == op + rest && s[|head| + |op|..] == rest;
  }

  lemma OpFound(head: string, op: string, rest: string)
    requires Clear(head, Operator, TOP) && ScanAll(head, TOP) == TOP && IsOp(op) && rest != "" && rest[0] == ' '
    ensures FirstOp(head + (op + rest), TOP) == Some(|head|) && OpAt(op + rest) == Some(op)
  {
    OpAtHead(op, rest);
    assert (op + rest)[0] == op[0] && !Structural(op[0]);
    OpFoundAfter(head, op + rest, TOP);
  }

  /** The operator scanner stops at the printed operator and nowhere before it. */
  lemma SplitsAtOp(x: string, op: string, y: string)
    requires Clear(x, Operator, TOP) && ScanAll(x, TOP) == TOP && IsOp(op)
    ensures SplitCmp(x + (" " + op) + (" " + y)) == (x + " ", op, " " + y)
  {
    var head, rest := x + " ", " " + y;
    assert rest[0] == ' ';
    SpaceAfterClear(x);
    OpFound(head, op, rest);
    CutAtOp(head, op, rest);
    SpacesMove(x, op, y);
  }

  lemma SpacesMove(x: string, op: string, y: string)
    ensures x + (" " + op) + (" " + y) == (x + " ") + (op + (" " + y))
  {
  }

  lemma SpaceAfterClear(x: string)
    requires Clear(x, Operator, TOP) && ScanAll(x, TOP) == TOP
    ensures Clear(x + " ", Operator, TOP) && ScanAll(x + " ", TOP) == TOP
  {
    assert " "[1..] == "" && Next(TOP, ' ') == TOP;
    assert Clear(" ", Operator, TOP) && ScanAll(" ", TOP) == TOP;
    ClearConcat(x, " ", Operator, TOP);
    ScanConcat(x, " ", TOP);
  }

  lemma ShapeCmp(env: Env, n: NotTree)
    requires NotOk(env, n) && (n.Cmp? || n.Alone?)
    ensures ShapeOf(NotText(n)) == Comparison(NotText(n))
  {
    if n.Cmp? {
      TermEnds(env, n.l);
      TermEnds(env, n.r);
      CmpEnds(TermText(n.l), n.op, TermText(n.r));
    } else {
      TermEnds(env, n.t);
    }
    ShapeComparison(NotText(n));
  }

  lemma CmpMeaning(env: Env, objects: Objects, l: TermTree, op: string, r: TermTree)
    requires GoodEnv(env) && TermOk(env, l) && TermOk(env, r) && IsOp(op)
    ensures EvalCmp(env, objects, TermText(l) + (" " + op) + (" " + TermText(r)))
         == CompareTraced(op, MeanTerm(env, objects, l), MeanTerm(env, objects, r))
  {
    TermClear(env, l, Operator);
    SplitsAtOp(TermText(l), op, TermText(r));
    TermEnds(env, l);
    TermEnds(env, r);
    TrimSpaceAfter(TermText(l));
    TrimSpaceBefore(TermText(r));
    TermMeaning(env, objects, l);
    TermMeaning(env, objects, r);
  }

  /** A term on its own is compared with `true`. */
  lemma AloneMeaning(env: Env, objects: Objects, t: TermTree)
    requires GoodEnv(env) && TermOk(env, t)
    ensures EvalCmp(env, objects, TermText(t)) == CompareTraced("==", MeanTerm(env, objects, t), Traced(Ok(Fin(1.0)), {}))
  {
    TermClear(env, t, Operator);
    NoOpFound(TermText(t), TOP);
    TermEnds(env, t);
    TrimTight(TermText(t));
    TermMeaning(env, objects, t);
    TermEnds(env, Truth(true));
    TrimTight("true");
    TermMeaning(env, objects, Truth(true));
    assert TermText(Truth(true)) == "true";
  }

  // ----- the theorem ----------------------------------------------------------------

  lemma EvalOfShape(env: Env, objects: Objects, text: string, shape: Shape, depth: nat)
    requires ShapeOf(text) == shape && depth <= MAX_EXPR_DEPTH
    ensures EvalNot(env, objects, text, depth) == EvalShape(env, objects, shape, depth)
  {
  }

  /** The printed text evaluates to the meaning of the tree. */
  ghost predicate NotAgrees(env: Env, objects: Objects, n: NotTree, depth: nat)
    requires NotOk(env, n) && depth <= MAX_EXPR_DEPTH + 1
  {
    EvalNot(env, objects, NotText(n), depth) == MeanNot(env, objects, n, depth, MAX_EXPR_DEPTH)
  }

  ghost predicate OrAgrees(env: Env, objects: Objects, e: OrTree, depth: nat)
    requires OrOk(env, e) && depth <= MAX_EXPR_DEPTH + 1
  {
    EvalOr(env, objects, OrText(e), depth) == MeanOr(env, objects, e, depth, MAX_EXPR_DEPTH)
  }

  lemma NegMeaning(env: Env, objects: Objects, m: NotTree, depth: nat)
    requires GoodEnv(env) && NotOk(env, m) && depth <= MAX_EXPR_DEPTH && NotAgrees(env, objects, m, depth + 1)
    ensures NotAgrees(env, objects, Neg(m), depth)
  {
    var t := NotText(m);
    NotPiece(env, m);
    ShapeNeg(t);
    EvalOfShape(env, objects, "not" + (" " + t), NotWord(t), depth);
  }

  lemma NegGroupMeaning(env: Env, objects: Objects, e: OrTree, depth: nat)
    requires GoodEnv(env) && OrOk(env, e) && depth <= MAX_EXPR_DEPTH && OrAgrees(env, objects, e, depth + 1)
    ensures NotAgrees(env, objects, NegGroup(e), depth)
  {
    var t := OrText(e);
    OrFits(env, e);
    ShapeNegGroup(t);
    EvalOfShape(env, objects, "not" + ("(" + t + ")"), NotGroup(t), depth);
  }

  lemma ParenMeaning(env: Env, objects: Objects, e: OrTree, depth: nat)
    requires GoodEnv(env) && OrOk(env, e) && depth <= MAX_EXPR_DEPTH && OrAgrees(env, objects, e, depth + 1)
    ensures NotAgrees(env, objects, Paren(e), depth)
  {
    var t := OrText(e);
    OrFits(env, e);
    ShapeGroup(t);
    EvalOfShape(env, objects, "(" + t + ")", Group(t), depth);
  }

  lemma CmpAgrees(env: Env, objects: Objects, n: NotTree, depth: nat)
    requires GoodEnv(env) && NotOk(env, n) && depth <= MAX_EXPR_DEPTH && n.Cmp?
    ensures NotAgrees(env, objects, n, depth)
  {
    ShapeCmp(env, n);
    EvalOfShape(env, objects, NotText(n), Comparison(NotText(n)), depth);
    CmpMeaning(env, objects, n.l, n.op, n.r);
  }

  lemma AloneAgrees(env: Env, objects: Objects, n: NotTree, depth: nat)
    requires GoodEnv(env) && NotOk(env, n) && depth <= MAX_EXPR_DEPTH && n.Alone?
    ensures NotAgrees(env, objects, n, depth)
  {
    ShapeCmp(env, n);
    EvalOfShape(env, objects, NotText(n), Comparison(NotText(n)), depth);
    AloneMeaning(env, objects, n.t);
  }

  lemma {:induction false} NotMeaning(env: Env, objects: Objects, n: NotTree, depth: nat)
    requires GoodEnv(env) && NotOk(env, n) && depth <= MAX_EXPR_DEPTH + 1
    ensures NotAgrees(env, objects, n, depth)
    decreases n
  {
    if depth <= MAX_EXPR_DEPTH {
      match n
      case Neg(m) =>
        NotMeaning(env, objects, m, depth + 1);
        NegMeaning(env, objects, m, depth);
      case NegGroup(e) =>
        OrMeaning(env, objects, e, depth + 1);
        NegGroupMeaning(env, objects, e, depth);
      case Paren(e) =>
        OrMeaning(env, objects, e, depth + 1);
        ParenMeaning(env, objects, e, depth);
      case Cmp(_, _, _) => CmpAgrees(env, objects, n, depth);
      case Alone(_) => AloneAgrees(env, objects, n, depth);
    }
  }

  lemma {:induction false} AndMeaning(env: Env, objects: Objects, a: AndTree, depth: nat)
    requires GoodEnv(env) && AndOk(env, a) && depth <= MAX_EXPR_DEPTH + 1
    ensures EvalAnd(env, objects, AndText(a), depth) == MeanAnd(env, objects, a, depth, MAX_EXPR_DEPTH)
    decreases a
  {
    match a
    case LastAnd(n) =>
      NotPiece(env, n);
      SplitOne(NotText(n), AndWord);
      NotMeaning(env, objects, n, depth);
      AllOfOne(env, objects, NotText(n), depth);
    case MoreAnd(n, rest) =>
      NotPiece(env, n);
      SplitMore(NotText(n), AndText(rest), AndWord);
      NotMeaning(env, objects, n, depth);
      AndMeaning(env, objects, rest, depth);
      AllOfMore(env, objects, NotText(n), SplitTop(AndText(rest), " and "), depth);
  }

  lemma {:induction false} OrMeaning(env: Env, objects: Objects, e: OrTree, depth: nat)
    requires GoodEnv(env) && OrOk(env, e) && depth <= MAX_EXPR_DEPTH + 1
    ensures OrAgrees(env, objects, e, depth)
    decreases e
  {
    match e
    case LastOr(a) =>
      AndFits(env, a);
      SplitOne(AndText(a), OrWord);
      AndMeaning(env, objects, a, depth);
      AnyOfOne(env, objects, AndText(a), depth);
    case MoreOr(a, rest) =>
      AndFits(env, a);
      SplitMore(AndText(a), OrText(rest), OrWord);
      AndMeaning(env, objects, a, depth);
      OrMeaning(env, objects, rest, depth);
      AnyOfMore(env, objects, AndText(a), SplitTop(OrText(rest), " or "), depth);
  }

  lemma AllOfOne(env: Env, objects: Objects, part: string, depth: nat)
    requires depth <= MAX_EXPR_DEPTH + 1
    ensures EvalAllOf(env, objects, [part], depth) == EvalNot(env, objects, part, depth)
  {
    assert [part][1..] == [];
    assert EvalAllOf(env, objects, [], depth) == Traced(Ok(true), {});
  }

  lemma AllOfMore(env: Env, objects: Objects, part: string, parts: seq<string>, depth: nat)
    requires depth <= MAX_EXPR_DEPTH + 1
    ensures var first := EvalNot(env, objects, part, depth);
            var more := EvalAllOf(env, objects, parts, depth);
            EvalAllOf(env, objects, [part] + parts, depth)
              == if first.result != Ok(true) then first else Traced(more.result, first.refs + more.refs)
  {
    assert ([part] + parts)[1..] == parts;
  }

  lemma AnyOfOne(env: Env, objects: Objects, part: string, depth: nat)
    requires depth <= MAX_EXPR_DEPTH + 1
    ensures EvalAnyOf(env, objects, [part], depth) == EvalAnd(env, objects, part, depth)
  {
    assert [part][1..] == [];
    assert EvalAnyOf(env, objects, [], depth) == Traced(Ok(false), {});
  }

  lemma AnyOfMore(env: Env, objects: Objects, part: string, parts: seq<string>, depth: nat)
    requires depth <= MAX_EXPR_DEPTH + 1
    ensures var first := EvalAnd(env, objects, part, depth);
            var more := EvalAnyOf(env, objects, parts, depth);
            EvalAnyOf(env, objects, [part] + parts, depth)
              == if first.result != Ok(false) then first else Traced(more.result, first.refs + more.refs)
  {
    assert ([part] + parts)[1..] == parts;
  }

  /** Negations and groups on the longest way down. */
  function NotNesting(n: NotTree): nat {
    match n
    case Neg(m) => 1 + NotNesting(m)
    case NegGroup(e) => 1 + OrNesting(e)
    case Paren(e) => 1 + OrNesting(e)
    case _ => 0
  }

  function AndNesting(a: AndTree): nat {
    match a
    case LastAnd(n) => NotNesting(n)
    case MoreAnd(n, rest) => var x, y := NotNesting(n), AndNesting(rest); if x < y then y else x
  }

  function OrNesting(e: OrTree): nat {
    match e
    case LastOr(a) => AndNesting(a)
    case MoreOr(a, rest) => var x, y := AndNesting(a), OrNesting(rest); if x < y then y else x
  }

  lemma {:induction false} NotLimit(env: Env, objects: Objects, n: NotTree, depth: nat, k: nat, m: nat)
    requires NotOk(env, n) && depth + NotNesting(n) <= k && depth + NotNesting(n) <= m
    ensures MeanNot(env, objects, n, depth, k) == MeanNot(env, objects, n, depth, m)
    decreases n
  {
    match n
    case Neg(x) => NotLimit(env, objects, x, depth + 1, k, m);
    case NegGroup(e) => OrLimit(env, objects, e, depth + 1, k, m);
    case Paren(e) => OrLimit(env, objects, e, depth + 1, k, m);
    case _ =>
  }

  lemma {:induction false} AndLimit(env: Env, objects: Objects, a: AndTree, depth: nat, k: nat, m: nat)
    requires AndOk(env, a) && depth + AndNesting(a) <= k && depth + AndNesting(a) <= m
    ensures MeanAnd(env, objects, a, depth, k) == MeanAnd(env, objects, a, depth, m)
    decreases a
  {
    match a
    case LastAnd(n) => NotLimit(env, objects, n, depth, k, m);
    case MoreAnd(n, rest) => NotLimit(env, objects, n, depth, k, m); AndLimit(env, objects, rest, depth, k, m);
  }

  lemma {:induction false} OrLimit(env: Env, objects: Objects, e: OrTree, depth: nat, k: nat, m: nat)
    requires OrOk(env, e) && depth + OrNesting(e) <= k && depth + OrNesting(e) <= m
    ensures MeanOr(env, objects, e, depth, k) == MeanOr(env, objects, e, depth, m)
    decreases e
  {
    match e
    case LastOr(a) => AndLimit(env, objects, a, depth, k, m);
    case MoreOr(a, rest) => AndLimit(env, objects, a, depth, k, m); OrLimit(env, objects, rest, depth, k, m);
  }

  /**
   Evaluating the text of any expression tree gives the short-circuit meaning of the tree:
   the same truth value, the same error, the same traced objects. Quoted names may contain
   separators, parentheses and operators. Down to 128 negations and groups the depth cap
   plays no part; below that the meaning is the one with the cap.
   */
  lemma PrintedMeaning(env: Env, objects: Objects, e: OrTree)
    requires GoodEnv(env) && OrOk(env, e)
    ensures EvalExpr(env, objects, OrText(e)) == MeanOr(env, objects, e, 0, MAX_EXPR_DEPTH)
    ensures OrNesting(e) <= MAX_EXPR_DEPTH ==>
              EvalExpr(env, objects, OrText(e)) == MeanOr(env, objects, e, 0, OrNesting(e))
  {
    OrFits(env, e);
    TrimTight(OrText(e));
    OrMeaning(env, objects, e, 0);
    if OrNesting(e) <= MAX_EXPR_DEPTH {
      OrLimit(env, objects, e, 0, MAX_EXPR_DEPTH, OrNesting(e));
    }
  }
}
