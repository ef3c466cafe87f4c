/**
 Theory of op lists: when a recorded list can be taken back exactly, and what every
 intermediate state looks like on the way forward and on the way back.
 */
module Journal {
  import opened ProjectGraph

  /** Reverting `op` right after applying it to `g` gives back `g`. */
  ghost predicate Inverts(g: Graph, op: StateOp) {
    Apply(Apply(g, op, true), op, false) == g
  }

  /** From `g` on, every op inverts in the state it was recorded in and every state is sound. */
  ghost predicate Trail(g: Graph, ops: seq<StateOp>)
    decreases |ops|
  {
    && Sound(g)
    && (ops == [] || (Inverts(g, ops[0]) && Trail(Apply(g, ops[0], true), ops[1..])))
  }

  lemma {:induction false} ForwardConcat(g: Graph, a: seq<StateOp>, b: seq<StateOp>)
    ensures Forward(g, a + b) == Forward(Forward(g, a), b)
    decreases |a|
  {
    if a == [] {
      assert a + b == b;
    } else {
      assert (a + b)[0] == a[0] && (a + b)[1..] == a[1..] + b;
      ForwardConcat(Apply(g, a[0], true), a[1..], b);
    }
  }

  lemma {:induction false} BackwardConcat(g: Graph, a: seq<StateOp>, b: seq<StateOp>)
    ensures Backward(g, a + b) == Backward(Backward(g, b), a)
    decreases |b|
  {
    if b == [] {
      assert a + b == a;
    } else {
      var n := |b| - 1;
      assert (a + b)[|a + b| - 1] == b[n] && (a + b)[..|a + b| - 1] == a + b[..n];
      BackwardConcat(Apply(g, b[n], false), a, b[..n]);
    }
  }

  lemma {:induction false} TrailConcat(g: Graph, a: seq<StateOp>, b: seq<StateOp>)
    ensures Trail(g, a + b) <==> Trail(g, a) && Trail(Forward(g, a), b)
    decreases |a|
  {
    if a == [] {
      assert a + b == b;
    } else {
      assert (a + b)[0] == a[0] && (a + b)[1..] == a[1..] + b;
      TrailConcat(Apply(g, a[0], true), a[1..], b);
    }
  }

  lemma {:induction false} TrailEndsSound(g: Graph, ops: seq<StateOp>)
    requires Trail(g, ops)
    ensures Sound(g) && Sound(Forward(g, ops))
    decreases |ops|
  {
    if ops != [] {
      TrailEndsSound(Apply(g, ops[0], true), ops[1..]);
    }
  }

  /** Taking a whole trail back restores the graph it started from. */
  lemma {:induction false} TrailUndo(g: Graph, ops: seq<StateOp>)
    requires Trail(g, ops)
    ensures Backward(Forward(g, ops), ops) == g
    decreases |ops|
  {
    if ops != [] {
      var g1 := Apply(g, ops[0], true);
      TrailUndo(g1, ops[1..]);
      assert ops == [ops[0]] + ops[1..];
      BackwardConcat(Forward(g, ops), [ops[0]], ops[1..]);
      BackwardOne(g1, ops[0]);
    }
  }

  lemma BackwardOne(g: Graph, op: StateOp)
    ensures Backward(g, [op]) == Apply(g, op, false)
  {
    assert [op][..0] == [];
  }

  /**
   Every state met on the way, forward or backward, is sound, and reverting only the last
   ops of a trail stops in exactly the state the first ones led to.
   */
  lemma TrailStates(g: Graph, ops: seq<StateOp>, k: nat)
    requires Trail(g, ops) && k <= |ops|
    ensures Sound(Forward(g, ops[..k]))
    ensures Backward(Forward(g, ops), ops[k..]) == Forward(g, ops[..k])
  {
    assert ops == ops[..k] + ops[k..];
    TrailConcat(g, ops[..k], ops[k..]);
    ForwardConcat(g, ops[..k], ops[k..]);
    TrailEndsSound(g, ops[..k]);
    TrailUndo(Forward(g, ops[..k]), ops[k..]);
  }

  lemma TrailOne(g: Graph, op: StateOp)
    ensures Forward(g, [op]) == Apply(g, op, true)
    ensures Trail(g, [op]) <==> Sound(g) && Inverts(g, op) && Sound(Apply(g, op, true))
  {
    assert [op][1..] == [];
    assert Forward(Apply(g, op, true), []) == Apply(g, op, true);
  }
}
