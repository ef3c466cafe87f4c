/**
 When a text can be pasted next to another without the scanners noticing: balance, texts
 in which no separator or operator starts at top level, and texts that trimming keeps.
 */
module ScannerFacts {
  import opened Prelude
  import opened Text
  import opened Scanner

  function ScanAll(s: string, st: Scan): Scan
    decreases |s|
  {
    if s == "" then st else ScanAll(s[1..], Next(st, s[0]))
  }

  lemma {:induction false} ScanConcat(a: string, b: string, st: Scan)
    ensures ScanAll(a + b, st) == ScanAll(b, ScanAll(a, st))
    decreases |a|
  {
    if a == "" {
      assert a + b == b;
    } else {
      assert (a + b)[0] == a[0] && (a + b)[1..] == a[1..] + b;
      ScanConcat(a[1..], b, Next(st, a[0]));
    }
  }

  // ----- balance -------------------------------------------------------------

  lemma {:induction false} BalancedConcatFrom(a: string, b: string, st: Scan)
    requires BalancedFrom(a, st) && Balanced(b)
    ensures BalancedFrom(a + b, st)
    decreases |a|
  {
    if a == "" {
      assert a + b == b;
    } else {
      assert (a + b)[0] == a[0] && (a + b)[1..] == a[1..] + b;
      BalancedConcatFrom(a[1..], b, Next(st, a[0]));
    }
  }

  lemma BalancedConcat(a: string, b: string)
    requires Balanced(a) && Balanced(b)
    ensures Balanced(a + b)
  {
    BalancedConcatFrom(a, b, TOP);
  }

  /** Scanning one level deeper: a closing parenthesis then completes the balance. */
  lemma {:induction false} BalancedDeeper(t: string, st: Scan)
    requires BalancedFrom(t, st)
    ensures BalancedFrom(t + ")", Scan(st.depth + 1, st.quote))
    decreases |t|
  {
    if t == "" {
      assert t + ")" == ")";
      assert ")"[1..] == "";
      assert BalancedFrom("", Next(Scan(1, None), ')'));
    } else {
      assert (t + ")")[0] == t[0] && (t + ")")[1..] == t[1..] + ")";
      BalancedDeeper(t[1..], Next(st, t[0]));
    }
  }

  lemma BalancedGroup(t: string)
    requires Balanced(t)
    ensures Balanced("(" + t + ")")
  {
    BalancedDeeper(t, TOP);
    var s := "(" + t + ")";
    assert s[0] == '(' && s[1..] == t + ")";
    assert Next(TOP, '(') == Scan(1, None);
  }

  // ----- nothing starts here ---------------------------------------------------

  datatype Needle = OrWord | AndWord | Operator

  predicate Differs(t: string, sep: string) {
    exists j :: 0 <= j < |sep| && j < |t| && t[j] != sep[j]
  }

  /** However `t` goes on, the needle does not start at its first character. */
  predicate Misses(t: string, n: Needle)
    requires t != ""
  {
    match n
    case OrWord => Differs(t, " or ")
    case AndWord => Differs(t, " and ")
    case Operator => t[0] != '<' && t[0] != '>' && t[0] != '=' && t[0] != '!'
  }

  lemma MissesMore(a: string, b: string, n: Needle)
    requires a != "" && Misses(a, n)
    ensures Misses(a + b, n)
  {
    if n == OrWord {
      var j :| 0 <= j < |" or "| && j < |a| && a[j] != " or "[j];
      assert (a + b)[j] == a[j];
    } else if n == AndWord {
      var j :| 0 <= j < |" and "| && j < |a| && a[j] != " and "[j];
      assert (a + b)[j] == a[j];
    }
  }

  /** The needle starts nowhere at top level, whatever follows `t`. */
  predicate Clear(t: string, n: Needle, st: Scan)
    decreases |t|
  {
    t == "" || ((AtTop(st) && !Structural(t[0]) ==> Misses(t, n)) && Clear(t[1..], n, Next(st, t[0])))
  }

  lemma {:induction false} ClearConcat(a: string, b: string, n: Needle, st: Scan)
    requires Clear(a, n, st) && Clear(b, n, ScanAll(a, st))
    ensures Clear(a + b, n, st)
    decreases |a|
  {
    if a == "" {
      assert a + b == b;
    } else {
      assert (a + b)[0] == a[0] && (a + b)[1..] == a[1..] + b;
      if Misses(a, n) {
        MissesMore(a, b, n);
      }
      ClearConcat(a[1..], b, n, Next(st, a[0]));
    }
  }

  lemma {:induction false} ClearInside(t: string, n: Needle, st: Scan)
    requires st.depth >= 0 && BalancedFrom(t, st)
    ensures Clear(t, n, Scan(st.depth + 1, st.quote)) && ScanAll(t, Scan(st.depth + 1, st.quote)) == Scan(1, None)
    decreases |t|
  {
    if t != "" {
      ClearInside(t[1..], n, Next(st, t[0]));
    }
  }

  /** A parenthesised balanced text hides everything in it and ends at top level. */
  lemma ClearGroup(t: string, n: Needle)
    requires Balanced(t)
    ensures Clear("(" + t + ")", n, TOP) && ScanAll("(" + t + ")", TOP) == TOP
  {
    ClearInside(t, n, TOP);
    assert Clear(")", n, Scan(1, None)) by {
      assert ")"[1..] == "";
    }
    assert ScanAll(")", Scan(1, None)) == TOP by {
      assert ")"[1..] == "";
    }
    ClearConcat(t, ")", n, Scan(1, None));
    ScanConcat(t, ")", Scan(1, None));
    var s := "(" + t + ")";
    assert s[0] == '(' && s[1..] == t + ")";
    assert Next(TOP, '(') == Scan(1, None);
  }

  /** Neither structure, nor spaces, nor operator characters. */
  predicate Plain(c: char) {
    !Structural(c) && !IsSpace(c) && c != '<' && c != '>' && c != '=' && c != '!'
  }

  predicate Word(t: string) {
    forall i :: 0 <= i < |t| ==> Plain(t[i])
  }

  lemma {:induction false} WordFacts(t: string, n: Needle)
    requires Word(t)
    ensures Balanced(t) && Clear(t, n, TOP) && ScanAll(t, TOP) == TOP
    decreases |t|
  {
    if t != "" {
      WordFacts(t[1..], n);
      assert Next(TOP, t[0]) == TOP;
      assert t[0] != ' ';
      assert Misses(t, n) by {
        assert t[0] != " or "[0] && t[0] != " and "[0];
      }
    }
  }

  /** One operator sign between spaces; only the operator scanner may notice it. */
  predicate IsOp(op: string) {
    op == ">=" || op == "<=" || op == "==" || op == "!=" || op == ">" || op == "<"
  }

  predicate OpChar(c: char) {
    c == '<' || c == '>' || c == '=' || c == '!'
  }

  /** Operator characters mean nothing to the splitting at words. */
  lemma {:induction false} OpCharsFacts(t: string, n: Needle)
    requires forall i :: 0 <= i < |t| ==> OpChar(t[i])
    ensures Balanced(t) && ScanAll(t, TOP) == TOP
    ensures n != Operator ==> Clear(t, n, TOP)
    decreases |t|
  {
    if t != "" {
      OpCharsFacts(t[1..], n);
      assert Next(TOP, t[0]) == TOP;
      assert t[0] != ' ';
      if n != Operator {
        assert Misses(t, n) by {
          assert t[0] != " or "[0] && t[0] != " and "[0];
        }
      }
    }
  }

  lemma SpacedOpFacts(op: string, n: Needle)
    requires IsOp(op)
    ensures Balanced(" " + op) && ScanAll(" " + op, TOP) == TOP
    ensures n != Operator ==> Clear(" " + op, n, TOP)
  {
    var s := " " + op;
    assert s[0] == ' ' && s[1..] == op && s[1] == op[0];
    assert OpChar(op[0]);
    OpCharsFacts(op, n);
    assert Next(TOP, ' ') == TOP;
    if n != Operator {
      assert Misses(s, n) by {
        assert s[1] != " or "[1] && s[1] != " and "[1];
      }
    }
  }

  // ----- the searches ----------------------------------------------------------

  function Separator(n: Needle): string
    requires n != Operator
  {
    if n == OrWord then " or " else " and "
  }

  lemma {:induction false} NoneFound(t: string, n: Needle, st: Scan)
    requires n != Operator && Clear(t, n, st)
    ensures FirstTop(t, Separator(n), st) == None
    decreases |t|
  {
    if t != "" {
      NoneFound(t[1..], n, Next(st, t[0]));
    }
  }

  lemma FoundHere(b: string, n: Needle)
    requires n != Operator
    ensures FirstTop(Separator(n) + b, Separator(n), TOP) == Some(0)
  {
    var s := Separator(n) + b;
    assert s[..|Separator(n)|] == Separator(n);
    assert s[0] == ' ';
  }

  lemma NotFoundHere(a: string, b: string, n: Needle, st: Scan)
    requires n != Operator && a != "" && Clear(a, n, st)
    ensures !(AtTop(st) && !Structural(a[0]) && StartsWith(a + b, Separator(n)))
  {
    if AtTop(st) && !Structural(a[0]) {
      MissesMore(a, b, n);
    }
  }

  lemma {:induction false} FoundAfter(a: string, b: string, n: Needle, st: Scan)
    requires n != Operator && Clear(a, n, st) && ScanAll(a, st) == TOP
    ensures FirstTop(a + Separator(n) + b, Separator(n), st) == Some(|a|)
    decreases |a|
  {
    var s := a + Separator(n) + b;
    if a == "" {
      assert s == Separator(n) + b;
      FoundHere(b, n);
    } else {
      assert s == a + (Separator(n) + b);
      NotFoundHere(a, Separator(n) + b, n, st);
      assert s[0] == a[0] && s[1..] == a[1..] + Separator(n) + b;
      FoundAfter(a[1..], b, n, Next(st, a[0]));
    }
  }

  lemma SplitOne(t: string, n: Needle)
    requires n != Operator && Clear(t, n, TOP)
    ensures SplitTop(t, Separator(n)) == [t]
  {
    NoneFound(t, n, TOP);
  }

  lemma SplitMore(a: string, b: string, n: Needle)
    requires n != Operator && Clear(a, n, TOP) && ScanAll(a, TOP) == TOP
    ensures SplitTop(a + Separator(n) + b, Separator(n)) == [a] + SplitTop(b, Separator(n))
  {
    FoundAfter(a, b, n, TOP);
    var s := a + Separator(n) + b;
    assert s[..|a|] == a && s[|a| + |Separator(n)|..] == b;
  }

  lemma {:induction false} NoOpFound(t: string, st: Scan)
    requires Clear(t, Operator, st)
    ensures FirstOp(t, st) == None
    decreases |t|
  {
    if t != "" {
      NoOpFound(t[1..], Next(st, t[0]));
    }
  }

  lemma {:induction false} OpFoundAfter(a: string, tail: string, st: Scan)
    requires Clear(a, Operator, st) && ScanAll(a, st) == TOP
    requires tail != "" && !Structural(tail[0]) && OpAt(tail).Some?
    ensures FirstOp(a + tail, st) == Some(|a|)
    decreases |a|
  {
    var s := a + tail;
    if a == "" {
      assert s == tail;
    } else {
      assert s[0] == a[0] && s[1..] == a[1..] + tail;
      OpFoundAfter(a[1..], tail, Next(st, a[0]));
    }
  }

  lemma OpAtHead(op: string, b: string)
    requires IsOp(op) && b != "" && b[0] != '='
    ensures OpAt(op + b) == Some(op)
  {
    var s := op + b;
    assert s[0] == op[0];
    if |op| == 2 {
      assert s[1] == op[1] && s[..2] == op;
    } else {
      assert s[1] == b[0] && s[..1] == op;
    }
  }

  // ----- trimming ----------------------------------------------------------------

  /** Nonempty, with neither leading nor trailing white space. */
  predicate Tight(t: string) {
    t != "" && !IsSpace(t[0]) && !IsSpace(t[|t| - 1])
  }

  lemma TrimTight(t: string)
    requires Tight(t)
    ensures Trim(t) == t
  {
  }

  lemma TrimSpaceBefore(t: string)
    requires Tight(t)
    ensures Trim(" " + t) == t
  {
    var s := " " + t;
    assert s[0] == ' ' && s[1..] == t;
    assert TrimStart(s) == TrimStart(t) == t;
  }

  lemma TrimSpaceAfter(t: string)
    requires Tight(t)
    ensures Trim(t + " ") == t
  {
    var s := t + " ";
    assert s[0] == t[0];
    assert TrimStart(s) == s;
    assert s[|s| - 1] == ' ' && s[..|s| - 1] == t;
    assert TrimEnd(s) == TrimEnd(t) == t;
  }

  /** Text whose head rules out that a space before it begins " or " or " and ". */
  predicate Starter(t: string) {
    && t != "" && !IsSpace(t[0])
    && (t[0] == 'o' ==> |t| > 1 && t[1] != 'r')
    && (t[0] == 'a' ==> |t| > 1 && t[1] != 'n')
  }

  lemma SpaceThen(t: string, n: Needle)
    requires Starter(t) && Balanced(t) && Clear(t, n, TOP)
    ensures Balanced(" " + t) && Clear(" " + t, n, TOP) && ScanAll(" " + t, TOP) == ScanAll(t, TOP)
  {
    var s := " " + t;
    assert s[0] == ' ' && s[1..] == t && s[1] == t[0];
    assert Next(TOP, ' ') == TOP;
    if t[0] == 'o' {
      assert s[2] == t[1] && s[2] != " or "[2] && s[1] != " and "[1];
    } else if t[0] == 'a' {
      assert s[2] == t[1] && s[2] != " and "[2] && s[1] != " or "[1];
    } else {
      assert s[1] != " or "[1] && s[1] != " and "[1];
    }
  }

  lemma {:induction false} BalancedScans(t: string, st: Scan)
    requires BalancedFrom(t, st)
    ensures ScanAll(t, st) == TOP
    decreases |t|
  {
    if t != "" {
      BalancedScans(t[1..], Next(st, t[0]));
    }
  }
}
