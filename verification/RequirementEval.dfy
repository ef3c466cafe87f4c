/**
 The evaluator as it runs: splitting loops, early returns out of the loops over the parts,
 and a set of references that is threaded through and only ever grows.
 */
module RequirementEval {
  import opened Prelude
  import opened ProjectGraph
  import opened Text
  import opened Scanner
  import opened Requirement

  class Evaluator {
    const env: Env
    const objects: Objects
    /** The trace, filled while the evaluation runs. */
    var refs: set<Id>

    constructor (env: Env, objects: Objects)
      ensures this.env == env && this.objects == objects && refs == {}
    {
      this.env, this.objects, refs := env, objects, {};
    }

    method Or(s: string, depth: nat) returns (r: Result<bool, EvalError>)
      requires depth <= MAX_EXPR_DEPTH + 1
      modifies this
      ensures Traced(r, refs) == EvalOr(env, objects, s, depth).(refs := old(refs) + EvalOr(env, objects, s, depth).refs)
      decreases MAX_EXPR_DEPTH + 1 - depth, 2
    {
      var parts := SplitTopLoop(s, " or ");
      ghost var whole := EvalAnyOf(env, objects, parts, depth);
      var i := 0;
      assert parts[0..] == parts;
      while i < |parts|
        invariant 0 <= i <= |parts|
        invariant EvalAnyOf(env, objects, parts[i..], depth).result == whole.result
        invariant refs + EvalAnyOf(env, objects, parts[i..], depth).refs == old(refs) + whole.refs
      {
        assert parts[i..][0] == parts[i] && parts[i..][1..] == parts[i + 1..];
        var v := And(parts[i], depth);
        if v != Ok(false) {
          return v;
        }
        i := i + 1;
      }
      assert parts[i..] == [];
      return Ok(false);
    }

    method And(s: string, depth: nat) returns (r: Result<bool, EvalError>)
      requires depth <= MAX_EXPR_DEPTH + 1
      modifies this
      ensures Traced(r, refs) == EvalAnd(env, objects, s, depth).(refs := old(refs) + EvalAnd(env, objects, s, depth).refs)
      decreases MAX_EXPR_DEPTH + 1 - depth, 1
    {
      var parts := SplitTopLoop(s, " and ");
      ghost var whole := EvalAllOf(env, objects, parts, depth);
      var i := 0;
      assert parts[0..] == parts;
      while i < |parts|
        invariant 0 <= i <= |parts|
        invariant EvalAllOf(env, objects, parts[i..], depth).result == whole.result
        invariant refs + EvalAllOf(env, objects, parts[i..], depth).refs == old(refs) + whole.refs
      {
        assert parts[i..][0] == parts[i] && parts[i..][1..] == parts[i + 1..];
        var v := Not(parts[i], depth);
        if v != Ok(true) {
          return v;
        }
        i := i + 1;
      }
      assert parts[i..] == [];
      return Ok(true);
    }

    method Not(text: string, depth: nat) returns (r: Result<bool, EvalError>)
      requires depth <= MAX_EXPR_DEPTH + 1
      modifies this
      ensures Traced(r, refs) == EvalNot(env, objects, text, depth).(refs := old(refs) + EvalNot(env, objects, text, depth).refs)
      decreases MAX_EXPR_DEPTH + 1 - depth, 0
    {
      if depth > MAX_EXPR_DEPTH {
        return Err(BadInput("expression nested too deeply"));
      }
      var s := Trim(text);
      if StartsWith(s, "not ") {
        var v := Not(s[4..], depth + 1);
        return if v.Err? then v else Ok(!v.value);
      }
      if StartsWith(s, "not(") && EndsWith(s[4..], ")") {
        var closed := BalancedLoop(s[4..|s| - 1]);
        if closed {
          assert Wrapped(s, "not(");
          var v := Or(Trim(s[4..|s| - 1]), depth + 1);
          return if v.Err? then v else Ok(!v.value);
        }
      }
      assert !Wrapped(s, "not(");
      if StartsWith(s, "(") && EndsWith(s, ")") {
        assert s[0] != s[|s| - 1];
        var closed := BalancedLoop(s[1..|s| - 1]);
        if closed {
          assert Wrapped(s, "(");
          r := Or(Trim(s[1..|s| - 1]), depth + 1);
          return;
        }
      }
      r := Compare(s);
    }

    method Compare(s: string) returns (r: Result<bool, EvalError>)
      modifies this
      ensures Traced(r, refs) == EvalCmp(env, objects, s).(refs := old(refs) + EvalCmp(env, objects, s).refs)
    {
      var lhs, op, rhs := SplitCmpLoop(s);
      var l := EvalTerm(env, objects, Trim(lhs));
      refs := refs + l.refs;
      if l.result.Err? {
        return Err(l.result.error);
      }
      var r' := EvalTerm(env, objects, Trim(rhs));
      refs := refs + r'.refs;
      if r'.result.Err? {
        return Err(r'.result.error);
      }
      return Ok(Requirement.Compare(op, l.result.value, r'.result.value));
    }
  }

  method Evaluate(env: Env, objects: Objects, req: Object) returns (v: Verdict)
    ensures v == EvaluateTraced(env, objects, req)
  {
    var expr := ExpressionOf(req);
    if Trim(expr) == "" {
      return Verdict(Unknown, "no expression", {});
    }
    var e := new Evaluator(env, objects);
    var r := e.Or(Trim(Trim(expr)), 0);
    match r {
      case Ok(true) => return Verdict(Pass, "`" + expr + "` satisfied", e.refs);
      case Ok(false) => return Verdict(Fail, "`" + expr + "` not satisfied", e.refs);
      case Err(err) => return Verdict(Unknown, "cannot evaluate `" + expr + "`: " + ErrorText(err), e.refs);
    }
  }
}
