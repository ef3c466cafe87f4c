/** How a planned step refers to what earlier steps returned: `"$N.path"`. */
module AgentInputs {
  import opened Prelude
  import opened Text
  import Requirement
  import Obj

  function TextOf(v: Option<Json>): Option<string> {
    if v.Some? && v.value.Str? then Some(v.value.s) else None
  }

  function Member(v: Json, key: string): Option<Json> {
    if v.Obj? && key in v.fields then Some(v.fields[key]) else None
  }

  /** Indexing by key: anything that is not there is null. */
  function Follow(v: Json, path: seq<string>): Json
    decreases |path|
  {
    if path == [] then v else Follow(if Member(v, path[0]).Some? then Member(v, path[0]).value else Null, path[1..])
  }

  /** `"$N.path"` as a position among the outputs so far and a path into it. */
  function Placeholder(s: string, count: nat): Option<(nat, seq<string>)> {
    var rest := StripPrefix(s, "$");
    if rest.None? then None else
      var parts := SplitOnce(rest.value, '.');
      if parts.None? || StartsWith(parts.value.0, "-") then None else
        var n := Obj.ParseInt(parts.value.0);
        if n.Some? && 0 <= n.value < count then Some((n.value, Split(parts.value.1, '.'))) else None
  }

  function ResolveRefs(input: Json, outputs: seq<Json>): Json
    decreases input
  {
    match input
    case Str(s) =>
      var p := Placeholder(s, |outputs|);
      if p.Some? then Follow(outputs[p.value.0], p.value.1) else input
    case Array(items) => Array(seq(|items|, i requires 0 <= i < |items| => ResolveRefs(items[i], outputs)))
    case Obj(fields) => Json.Obj(map k | k in fields :: ResolveRefs(fields[k], outputs))
    case _ => input
  }

  predicate NoPlaceholder(input: Json, count: nat)
    decreases input
  {
    match input
    case Str(s) => Placeholder(s, count).None?
    case Array(items) => forall i :: 0 <= i < |items| ==> NoPlaceholder(items[i], count)
    case Obj(fields) => forall k :: k in fields ==> NoPlaceholder(fields[k], count)
    case _ => true
  }

  /** An input without placeholders is passed on as it is. */
  lemma {:induction false} ResolvePlain(input: Json, outputs: seq<Json>)
    requires NoPlaceholder(input, |outputs|)
    ensures ResolveRefs(input, outputs) == input
    decreases input
  {
    match input
    case Array(items) =>
      forall i | 0 <= i < |items|
        ensures ResolveRefs(items[i], outputs) == items[i]
      {
        ResolvePlain(items[i], outputs);
      }
    case Obj(fields) =>
      forall k | k in fields
        ensures ResolveRefs(fields[k], outputs) == fields[k]
      {
        ResolvePlain(fields[k], outputs);
      }
    case _ =>
  }

  lemma SplitsAtDot(digits: string, key: string)
    requires '.' !in digits
    ensures SplitOnce(digits + ['.'] + key, '.') == Some((digits, key))
  {
    var rest := digits + ['.'] + key;
    FindAfter(digits, '.', key);
    assert rest[..|digits|] == digits && rest[|digits| + 1..] == key;
  }

  lemma AfterDollar(rest: string)
    ensures StripPrefix("$" + rest, "$") == Some(rest)
  {
    var text := "$" + rest;
    assert text[..1] == "$" && text[1..] == rest;
  }

  lemma NumberText(n: nat)
    requires n <= Obj.MAX_I64
    ensures '.' !in Obj.Decimal(n) && !StartsWith(Obj.Decimal(n), "-") && Obj.ParseInt(Obj.Decimal(n)) == Some(n)
  {
    var digits := Obj.Decimal(n);
    assert forall i :: 0 <= i < |digits| ==> Obj.IsDigit(digits[i]);
    assert Obj.IsDigit(digits[0]) && digits[..1][0] == digits[0];
    Obj.DecimalParses(n);
  }

  /** `"$N.path"` stands for what output `N` holds at that path, null where there is nothing. */
  lemma ResolveAddressed(n: nat, path: string, outputs: seq<Json>)
    requires n < |outputs| <= Obj.MAX_I64
    ensures var found := Requirement.WalkPath(outputs[n], Split(path, '.'));
            ResolveRefs(Str("$" + (Obj.Decimal(n) + ['.'] + path)), outputs) == if found.Some? then found.value else Null
  {
    NumberText(n);
    FollowWalks(outputs[n], Split(path, '.'));
    SpelledIsRead("$" + (Obj.Decimal(n) + ['.'] + path), Obj.Decimal(n), n, path, |outputs|);
  }

  /** Following a path is walking it, and null where the walk ends early. */
  lemma {:induction false} FollowWalks(v: Json, path: seq<string>)
    ensures Follow(v, path) == if Requirement.WalkPath(v, path).Some? then Requirement.WalkPath(v, path).value else Null
    decreases |path|
  {
    if path != [] {
      if v.Obj? && path[0] in v.fields {
        FollowWalks(v.fields[path[0]], path[1..]);
      } else {
        FollowNothing(path[1..]);
      }
    }
  }

  lemma {:induction false} FollowNothing(path: seq<string>)
    ensures Follow(Null, path) == Null
    decreases |path|
  {
    if path != [] {
      FollowNothing(path[1..]);
    }
  }

  // ----- what filling in means --------------------------------------------------------------

  /** `s` is "$", the digits of `n`, a dot and `path`. */
  ghost predicate Spells(s: string, digits: string, n: int, path: string) {
    && s == "$" + (digits + ['.'] + path)
    && '.' !in digits && !StartsWith(digits, "-") && Obj.ParseInt(digits) == Some(n)
  }

  /** What is found at a dotted path: null where there is nothing. */
  function At(v: Json, path: string): Json {
    var found := Requirement.WalkPath(v, Split(path, '.'));
    if found.Some? then found.value else Null
  }

  /** Every string in `result` that stands for an output is what that output holds there; all else is as in `input`. */
  ghost predicate Filled(input: Json, outputs: seq<Json>, result: Json)
    decreases input
  {
    match input
    case Str(s) => FilledText(s, outputs, result)
    case Array(items) =>
      result.Array? && |result.items| == |items| && forall i :: 0 <= i < |items| ==> Filled(items[i], outputs, result.items[i])
    case Obj(fields) =>
      result.Obj? && result.fields.Keys == fields.Keys && forall k :: k in fields ==> Filled(fields[k], outputs, result.fields[k])
    case _ => result == input
  }

  ghost predicate FilledText(s: string, outputs: seq<Json>, result: Json) {
    && (forall digits, n, path :: Spells(s, digits, n, path) && 0 <= n < |outputs| ==> result == At(outputs[n], path))
    && ((forall digits, n, path :: Spells(s, digits, n, path) ==> !(0 <= n < |outputs|)) ==> result == Str(s))
  }

  /** A text spells a reference in one way only, the one that is read. */
  lemma SpelledIsRead(s: string, digits: string, n: int, path: string, count: nat)
    requires Spells(s, digits, n, path)
    ensures Placeholder(s, count) == if 0 <= n < count then Some((n, Split(path, '.'))) else None
  {
    AfterDollar(digits + ['.'] + path);
    SplitsAtDot(digits, path);
  }

  lemma ReadIsSpelled(s: string, count: nat)
    requires Placeholder(s, count).Some?
    ensures exists digits, path :: Spells(s, digits, Placeholder(s, count).value.0, path)
  {
    var rest := StripPrefix(s, "$").value;
    var parts := SplitOnce(rest, '.').value;
    var i := Find(rest, '.').value;
    assert rest == rest[..i] + [rest[i]] + rest[i + 1..];
    assert s == s[..1] + s[1..] == "$" + rest;
    assert Spells(s, parts.0, Placeholder(s, count).value.0, parts.1);
  }

  lemma TextIsFilled(s: string, outputs: seq<Json>)
    ensures FilledText(s, outputs, ResolveRefs(Str(s), outputs))
  {
    var p, r := Placeholder(s, |outputs|), ResolveRefs(Str(s), outputs);
    forall digits, n, path | Spells(s, digits, n, path)
      ensures 0 <= n < |outputs| ==> r == At(outputs[n], path)
    {
      SpelledIsRead(s, digits, n, path, |outputs|);
      if 0 <= n < |outputs| {
        FollowWalks(outputs[n], Split(path, '.'));
      }
    }
    if p.Some? {
      ReadIsSpelled(s, |outputs|);
    }
  }

  /** Resolving references fills in every one of them and touches nothing else. */
  lemma {:induction false} ResolveFills(input: Json, outputs: seq<Json>)
    ensures Filled(input, outputs, ResolveRefs(input, outputs))
    decreases input
  {
    match input
    case Str(s) =>
      TextIsFilled(s, outputs);
    case Array(items) =>
      forall i | 0 <= i < |items|
        ensures Filled(items[i], outputs, ResolveRefs(items[i], outputs))
      {
        ResolveFills(items[i], outputs);
      }
    case Obj(fields) =>
      forall k | k in fields
        ensures Filled(fields[k], outputs, ResolveRefs(fields[k], outputs))
      {
        ResolveFills(fields[k], outputs);
      }
    case _ =>
  }
}
