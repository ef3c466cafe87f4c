/**
 The three scanning loops of the requirement language: splitting at a top-level separator,
 checking that parentheses balance, and finding the comparison operator. All track
 parenthesis depth and quotes in the same way. The recursive functions say what the loops
 compute.
 */
module Scanner {
  import opened Prelude
  import opened Text

  datatype Scan = Scan(depth: int, quote: Option<char>)

  const TOP := Scan(0, None)

  predicate IsQuote(c: char) {
    c == '"' || c == '\''
  }

  predicate AtTop(st: Scan) {
    st == TOP
  }

  function Next(st: Scan, c: char): Scan {
    if st.quote.Some? then (if st.quote.value == c then st.(quote := None) else st)
    else if IsQuote(c) then st.(quote := Some(c))
    else if c == '(' then st.(depth := st.depth + 1)
    else if c == ')' then st.(depth := st.depth - 1)
    else st
  }

  /** `c` opens or closes something, so it is never the start of a separator or operator. */
  predicate Structural(c: char) {
    IsQuote(c) || c == '(' || c == ')'
  }

  // ----- split_top -----------------------------------------------------------

  /** Offset of the first occurrence of `sep` outside quotes and parentheses. */
  function FirstTop(s: string, sep: string, st: Scan): (r: Option<nat>)
    requires sep != ""
    ensures r.Some? ==> r.value + |sep| <= |s|
    decreases |s|
  {
    if s == "" then None
    else if AtTop(st) && !Structural(s[0]) && StartsWith(s, sep) then Some(0)
    else
      var rest := FirstTop(s[1..], sep, Next(st, s[0]));
      if rest.None? then None else Some(rest.value + 1)
  }

  function SplitTop(s: string, sep: string): (r: seq<string>)
    requires sep != ""
    ensures r != []
    decreases |s|
  {
    var i := FirstTop(s, sep, TOP);
    if i.None? then [s] else [s[..i.value]] + SplitTop(s[i.value + |sep|..], sep)
  }

  /** What is still to come when the piece begun at `start` has been scanned up to `i`. */
  function SplitRest(s: string, sep: string, start: nat, i: nat, st: Scan): seq<string>
    requires sep != "" && start <= i <= |s|
  {
    var k := FirstTop(s[i..], sep, st);
    if k.None? then [s[start..]] else [s[start..i + k.value]] + SplitTop(s[i + k.value + |sep|..], sep)
  }

  /** One character that does not start the separator. */
  lemma SplitPass(s: string, sep: string, start: nat, i: nat, st: Scan)
    requires sep != "" && start <= i < |s|
    requires !(AtTop(st) && !Structural(s[i]) && StartsWith(s[i..], sep))
    ensures SplitRest(s, sep, start, i, st) == SplitRest(s, sep, start, i + 1, Next(st, s[i]))
  {
    assert s[i..][0] == s[i] && s[i..][1..] == s[i + 1..];
  }

  /** The separator: a piece ends here and the next one begins behind it. */
  lemma SplitHit(s: string, sep: string, start: nat, i: nat)
    requires sep != "" && start <= i < |s|
    requires !Structural(s[i]) && StartsWith(s[i..], sep)
    ensures SplitRest(s, sep, start, i, TOP) == [s[start..i]] + SplitRest(s, sep, i + |sep|, i + |sep|, TOP)
  {
    assert s[i..][0] == s[i];
    assert FirstTop(s[i..], sep, TOP) == Some(0);
    SplitAgain(s, sep, i + |sep|);
  }

  /** Does the separator start here? */
  predicate Hit(s: string, sep: string, i: nat, st: Scan)
    requires i < |s|
  {
    AtTop(st) && !Structural(s[i]) && StartsWith(s[i..], sep)
  }

  /** Past a separator, with the piece it ends, or past one other character. */
  predicate Turned(s: string, sep: string, start: nat, i: nat, st: Scan, start': nat, i': nat, st': Scan, piece: seq<string>)
    requires start <= i < |s|
  {
    if Hit(s, sep, i, st) then piece == [s[start..i]] && start' == i' == i + |sep| && st' == TOP
    else piece == [] && start' == start && i' == i + 1 && st' == Next(st, s[i])
  }

  /** The body of the loop: one character, or one separator. */
  method SplitTurn(s: string, sep: string, start: nat, i: nat, depth: int, quote: Option<char>)
    returns (start': nat, i': nat, depth': int, quote': Option<char>, piece: seq<string>)
    requires sep != "" && start <= i < |s|
    ensures Turned(s, sep, start, i, Scan(depth, quote), start', i', Scan(depth', quote'), piece)
  {
    start', i', depth', quote', piece := start, i + 1, depth, quote, [];
    var c := s[i];
    if quote.Some? {
      if c == quote.value {
        quote' := None;
      }
    } else if IsQuote(c) {
      quote' := Some(c);
    } else if c == '(' {
      depth' := depth + 1;
    } else if c == ')' {
      depth' := depth - 1;
    } else if depth == 0 && StartsWith(s[i..], sep) {
      piece := [s[start..i]];
      start', i' := i + |sep|, i + |sep|;
    }
  }

  method SplitTopLoop(s: string, sep: string) returns (parts: seq<string>)
    requires sep != ""
    ensures parts == SplitTop(s, sep)
  {
    parts := [];
    var depth := 0;
    var quote: Option<char> := None;
    var start, i := 0, 0;
    ghost var whole := SplitTop(s, sep);
    ghost var rest := whole;
    SplitAgain(s, sep, 0);
    assert s[0..] == s;
    while i < |s|
      invariant 0 <= start <= i <= |s|
      invariant rest == SplitRest(s, sep, start, i, Scan(depth, quote))
      invariant whole == parts + rest
    {
      var start', i', depth', quote', piece := SplitTurn(s, sep, start, i, depth, quote);
      ghost var next := SplitStep(s, sep, start, i, Scan(depth, quote), rest, start', i', Scan(depth', quote'), piece);
      Regrouped(parts, piece, next);
      parts := parts + piece;
      start, i, depth, quote, rest := start', i', depth', quote', next;
    }
    SplitEnds(s, sep, start, Scan(depth, quote));
    parts := parts + [s[start..]];
  }

  /** One turn of the loop. */
  lemma SplitStep(s: string, sep: string, start: nat, i: nat, st: Scan, rest: seq<string>,
                  start': nat, i': nat, st': Scan, piece: seq<string>) returns (next: seq<string>)
    requires sep != "" && start <= i < |s| && rest == SplitRest(s, sep, start, i, st)
    requires Turned(s, sep, start, i, st, start', i', st', piece)
    ensures start' <= i' <= |s| && next == SplitRest(s, sep, start', i', st') && rest == piece + next
  {
    if Hit(s, sep, i, st) {
      SplitHit(s, sep, start, i);
    } else {
      SplitPass(s, sep, start, i, st);
    }
    next := SplitRest(s, sep, start', i', st');
  }

  lemma SplitEnds(s: string, sep: string, start: nat, st: Scan)
    requires sep != "" && start <= |s|
    ensures SplitRest(s, sep, start, |s|, st) == [s[start..]]
  {
    assert s[|s|..] == "";
  }

  lemma SplitAgain(s: string, sep: string, i: nat)
    requires sep != "" && i <= |s|
    ensures SplitRest(s, sep, i, i, TOP) == SplitTop(s[i..], sep)
  {
    var k := FirstTop(s[i..], sep, TOP);
    if k.Some? {
      assert s[i..][..k.value] == s[i..i + k.value];
      assert s[i..][k.value + |sep|..] == s[i + k.value + |sep|..];
    }
  }

  // ----- balanced ------------------------------------------------------------

  predicate BalancedFrom(s: string, st: Scan)
    decreases |s|
  {
    if s == "" then st == TOP
    else if st.quote.None? && s[0] == ')' && st.depth < 1 then false
    else BalancedFrom(s[1..], Next(st, s[0]))
  }

  predicate Balanced(s: string) {
    BalancedFrom(s, TOP)
  }

  method BalancedLoop(s: string) returns (r: bool)
    ensures r == Balanced(s)
  {
    var depth := 0;
    var quote: Option<char> := None;
    var i := 0;
    assert s[0..] == s;
    while i < |s|
      invariant 0 <= i <= |s|
      invariant Balanced(s) == BalancedFrom(s[i..], Scan(depth, quote))
    {
      var c := s[i];
      assert s[i..][0] == c && s[i..][1..] == s[i + 1..];
      if quote.Some? {
        if c == quote.value {
          quote := None;
        }
      } else if IsQuote(c) {
        quote := Some(c);
      } else if c == '(' {
        depth := depth + 1;
      } else if c == ')' {
        depth := depth - 1;
        if depth < 0 {
          return false;
        }
      }
      i := i + 1;
    }
    assert s[i..] == "";
    return depth == 0 && quote.None?;
  }

  // ----- split_cmp -----------------------------------------------------------

  /** The operator a text begins with: `>=`, `<=`, `==`, `!=` are tried before `>` and `<`. */
  function OpAt(s: string): Option<string> {
    if |s| >= 2 && (s[0] == '>' || s[0] == '<' || s[0] == '=' || s[0] == '!') && s[1] == '=' then Some(s[..2])
    else if s != "" && (s[0] == '>' || s[0] == '<') then Some(s[..1])
    else None
  }

  function FirstOp(s: string, st: Scan): (r: Option<nat>)
    ensures r.Some? ==> r.value < |s| && OpAt(s[r.value..]).Some?
    decreases |s|
  {
    if s == "" then None
    else if AtTop(st) && !Structural(s[0]) && OpAt(s).Some? then assert s[0..] == s; Some(0)
    else
      var rest := FirstOp(s[1..], Next(st, s[0]));
      if rest.None? then None else
        assert s[1..][rest.value..] == s[rest.value + 1..];
        Some(rest.value + 1)
  }

  /** A bare term compares with `true`. */
  function SplitCmp(s: string): (string, string, string) {
    var i := FirstOp(s, TOP);
    if i.None? then (s, "==", "true") else
      var op := OpAt(s[i.value..]).value;
      (s[..i.value], op, s[i.value + |op|..])
  }

  /** The search result once everything before `i` is known to hold no operator. */
  function FirstOpFrom(s: string, i: nat, st: Scan): Option<nat>
    requires i <= |s|
  {
    var rest := FirstOp(s[i..], st);
    if rest.None? then None else Some(i + rest.value)
  }

  lemma FirstOpPass(s: string, i: nat, st: Scan)
    requires i < |s| && !(AtTop(st) && !Structural(s[i]) && OpAt(s[i..]).Some?)
    ensures FirstOpFrom(s, i, st) == FirstOpFrom(s, i + 1, Next(st, s[i]))
  {
    assert s[i..][0] == s[i] && s[i..][1..] == s[i + 1..];
  }

  lemma FirstOpHit(s: string, i: nat)
    requires i < |s| && !Structural(s[i]) && OpAt(s[i..]).Some?
    ensures FirstOpFrom(s, i, TOP) == Some(i)
  {
    assert s[i..][0] == s[i];
  }

  method FirstOpLoop(s: string) returns (r: Option<nat>)
    ensures r == FirstOp(s, TOP)
  {
    var depth := 0;
    var quote: Option<char> := None;
    var i := 0;
    ghost var found := FirstOp(s, TOP);
    assert s[0..] == s;
    while i < |s|
      invariant 0 <= i <= |s|
      invariant found == FirstOpFrom(s, i, Scan(depth, quote))
    {
      var c := s[i];
      if quote.None? && depth == 0 && !Structural(c) && OpAt(s[i..]).Some? {
        FirstOpHit(s, i);
        return Some(i);
      }
      FirstOpPass(s, i, Scan(depth, quote));
      if quote.Some? {
        if c == quote.value {
          quote := None;
        }
      } else if IsQuote(c) {
        quote := Some(c);
      } else if c == '(' {
        depth := depth + 1;
      } else if c == ')' {
        depth := depth - 1;
      }
      i := i + 1;
    }
    assert s[i..] == "";
    return None;
  }

  method SplitCmpLoop(s: string) returns (lhs: string, op: string, rhs: string)
    ensures (lhs, op, rhs) == SplitCmp(s)
  {
    var i := FirstOpLoop(s);
    if i.None? {
      return s, "==", "true";
    }
    var found := OpAt(s[i.value..]).value;
    return s[..i.value], found, s[i.value + |found|..];
  }
}
