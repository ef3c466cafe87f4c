/** How commands look objects up, and the object commands with more than one call: subtree deletion, creation under a parent. */
module ObjectCommands {
  import opened Prelude
  import opened ProjectGraph
  import opened Calls
  import opened Context
  import Requirement

  // ----- looking an object up --------------------------------------------------------

  /** How id texts are read, and how `find_by_name` chooses among equal names. */
  datatype Names = Names(parseId: string -> Option<Id>, pick: set<Id> -> Id)

  ghost predicate GoodNames(n: Names) {
    forall s :: s != {} ==> n.pick(s) in s
  }

  /** The string members `id` and `name` of an input. */
  datatype Query = Query(id: Option<string>, name: Option<string>)

  datatype LookupError = MalformedId(text: string) | NoObject(text: string) | NeitherGiven

  /** Is `i` an object that the query asks for: the one with the given id, or else one that bears the name? */
  predicate AskedFor(objects: map<Id, Object>, n: Names, q: Query, i: Id) {
    && i in objects
    && (if q.id.Some? then n.parseId(q.id.value) == Some(i) else q.name.Some? && objects[i].name == q.name.value)
  }

  /** An id, where one is given, decides alone; else the name does. */
  function ResolveObject(objects: map<Id, Object>, n: Names, q: Query): (r: Result<Id, LookupError>)
    ensures GoodNames(n) && r.Ok? ==> r.value in objects
    ensures q.id.Some? && r.Ok? ==> n.parseId(q.id.value) == Some(r.value)
    ensures GoodNames(n) && q.id.None? && r.Ok? ==> q.name.Some? && objects[r.value].name == q.name.value
    ensures r.Ok? <==> exists i :: AskedFor(objects, n, q, i)
    ensures r.Err? && r.error.MalformedId? <==> q.id.Some? && n.parseId(q.id.value).None?
    ensures r.Err? && r.error.NeitherGiven? <==> q.id.None? && q.name.None?
    ensures q.id.Some? ==> (r.Ok? <==> n.parseId(q.id.value).Some? && n.parseId(q.id.value).value in objects)
    ensures q.id.None? && q.name.Some? ==> (r.Ok? <==> exists i :: i in objects && objects[i].name == q.name.value)
  {
    if q.id.Some? then
      var i := n.parseId(q.id.value);
      if i.None? then Err(MalformedId(q.id.value))
      else if i.value in objects then assert AskedFor(objects, n, q, i.value); Ok(i.value)
      else Err(NoObject(q.id.value))
    else if q.name.Some? then
      var candidates := Requirement.Named(objects, q.name.value);
      assert forall i :: i in candidates <==> i in objects && objects[i].name == q.name.value;
      if candidates == {} then Err(NoObject(q.name.value)) else
        assert forall i :: i in candidates ==> AskedFor(objects, n, q, i);
        Ok(n.pick(candidates))
    else Err(NeitherGiven)
  }

  // ----- containment ---------------------------------------------------------------

  predicate Contains(relations: map<Id, Relation>, k: Id, from: Id, to: Id) {
    k in relations && relations[k].typeId == CONTAINS && relations[k].from == from && relations[k].to == to
  }

  ghost predicate Edge(relations: map<Id, Relation>, from: Id, to: Id) {
    exists k :: Contains(relations, k, from, to)
  }

  /** A path along containment edges, both ends included. */
  ghost predicate Path(relations: map<Id, Relation>, p: seq<Id>) {
    p != [] && forall i :: 0 <= i < |p| - 1 ==> Edge(relations, p[i], p[i + 1])
  }

  ghost predicate Reaches(relations: map<Id, Relation>, root: Id, id: Id) {
    exists p :: Path(relations, p) && p[0] == root && p[|p| - 1] == id
  }

  lemma ReachesSelf(relations: map<Id, Relation>, root: Id)
    ensures Reaches(relations, root, root)
  {
    assert Path(relations, [root]) && [root][0] == root;
  }

  lemma ReachesNext(relations: map<Id, Relation>, root: Id, id: Id, next: Id)
    requires Reaches(relations, root, id) && Edge(relations, id, next)
    ensures Reaches(relations, root, next)
  {
    var p :| Path(relations, p) && p[0] == root && p[|p| - 1] == id;
    var q := p + [next];
    forall i | 0 <= i < |q| - 1
      ensures Edge(relations, q[i], q[i + 1])
    {
      if i < |p| - 1 {
        assert Edge(relations, p[i], p[i + 1]);
      }
    }
    assert Path(relations, q) && q[0] == root && q[|q| - 1] == next;
  }

  /** A set that holds the root and is closed under containment holds everything reachable. */
  lemma ClosedReaches(relations: map<Id, Relation>, root: Id, closed: set<Id>, id: Id)
    requires root in closed && forall a, b :: a in closed && Edge(relations, a, b) ==> b in closed
    requires Reaches(relations, root, id)
    ensures id in closed
  {
    var p :| Path(relations, p) && p[0] == root && p[|p| - 1] == id;
    var i := 0;
    while i < |p| - 1
      invariant 0 <= i <= |p| - 1 && p[i] in closed
    {
      assert Edge(relations, p[i], p[i + 1]);
      i := i + 1;
    }
  }

  /** Everything a traversal from `root` can ever see. */
  function Universe(relations: map<Id, Relation>, root: Id): set<Id> {
    {root} + set k | k in relations :: relations[k].to
  }

  /**
   What the traversal knows: `out` lists the seen objects, each reachable and each done, on the
   stack or `pending`; what the done ones contain has been seen.
   */
  ghost predicate Collected(relations: map<Id, Relation>, root: Id, seen: set<Id>, out: seq<Id>, stack: seq<Id>, done: set<Id>, pending: set<Id>) {
    && Distinct(out) && out != [] && out[0] == root
    && (forall x :: x in out <==> x in seen)
    && (forall x :: x in seen ==> Reaches(relations, root, x))
    && (forall x :: x in seen <==> x in done || x in stack || x in pending)
    && (forall x :: x in stack ==> x !in done && x !in pending)
    && Distinct(stack)
    && (forall a, b :: a in done && Edge(relations, a, b) ==> b in seen)
    && seen <= Universe(relations, root)
  }

  lemma Popped(relations: map<Id, Relation>, root: Id, seen: set<Id>, out: seq<Id>, stack: seq<Id>, done: set<Id>)
    requires stack != [] && Collected(relations, root, seen, out, stack, done, {})
    ensures var n := |stack| - 1;
            stack[n] in seen && stack[n] !in done && Collected(relations, root, seen, out, stack[..n], done, {stack[n]})
  {
    var n := |stack| - 1;
    assert stack == stack[..n] + [stack[n]];
    assert stack[n] in stack;
    DistinctPrefix(stack, n);
  }

  lemma Pushed(relations: map<Id, Relation>, root: Id, seen: set<Id>, out: seq<Id>, stack: seq<Id>, done: set<Id>, id: Id, k: Id, to: Id)
    requires Collected(relations, root, seen, out, stack, done, {id}) && Contains(relations, k, id, to) && to !in seen
    ensures Collected(relations, root, seen + {to}, out + [to], stack + [to], done, {id})
  {
    ReachesNext(relations, root, id, to);
  }

  lemma Finished(relations: map<Id, Relation>, root: Id, seen: set<Id>, out: seq<Id>, stack: seq<Id>, done: set<Id>, id: Id)
    requires Collected(relations, root, seen, out, stack, done, {id})
    requires forall k :: k in relations && relations[k].from == id && relations[k].typeId == CONTAINS ==> relations[k].to in seen
    ensures Collected(relations, root, seen, out, stack, done + {id}, {})
  {
    forall b | Edge(relations, id, b)
      ensures b in seen
    {
      var k :| Contains(relations, k, id, b);
    }
  }

  /**
   The traversal of contained objects: a stack and a set of seen ids. Cycles and self-loops
   are legal in the graph; the seen set keeps the traversal finite.
   */
  method CollectSubtree(relations: map<Id, Relation>, root: Id) returns (out: seq<Id>)
    ensures Distinct(out) && out != [] && out[0] == root
    ensures forall x :: x in out <==> Reaches(relations, root, x)
  {
    var seen := {root};
    out := [root];
    var stack := [root];
    ReachesSelf(relations, root);
    ghost var done: set<Id> := {};
    while stack != []
      invariant Collected(relations, root, seen, out, stack, done, {})
      decreases Universe(relations, root) - done
    {
      Popped(relations, root, seen, out, stack, done);
      var id := stack[|stack| - 1];
      stack := stack[..|stack| - 1];
      seen, out, stack := Expand(relations, root, id, seen, out, stack, done);
      done := done + {id};
    }
    forall x | Reaches(relations, root, x)
      ensures x in out
    {
      ClosedReaches(relations, root, seen, x);
    }
  }

  /** The inner loop, over the relations leaving one object. */
  method Expand(relations: map<Id, Relation>, root: Id, id: Id, seen0: set<Id>, out0: seq<Id>, stack0: seq<Id>, ghost done: set<Id>)
      returns (seen: set<Id>, out: seq<Id>, stack: seq<Id>)
    requires Collected(relations, root, seen0, out0, stack0, done, {id})
    ensures Collected(relations, root, seen, out, stack, done + {id}, {})
  {
    seen, out, stack := seen0, out0, stack0;
    var order := Enumerate(set k | k in relations && relations[k].from == id);
    var i := 0;
    while i < |order|
      invariant 0 <= i <= |order| && Collected(relations, root, seen, out, stack, done, {id})
      invariant forall j :: 0 <= j < i ==> order[j] in relations && (relations[order[j]].typeId == CONTAINS ==> relations[order[j]].to in seen)
    {
      assert order[i] in order;
      var rel := relations[order[i]];
      if rel.typeId == CONTAINS && rel.to !in seen {
        Pushed(relations, root, seen, out, stack, done, id, order[i], rel.to);
        seen, out, stack := seen + {rel.to}, out + [rel.to], stack + [rel.to];
      }
      i := i + 1;
    }
    forall k | k in relations && relations[k].from == id && relations[k].typeId == CONTAINS
      ensures relations[k].to in seen
    {
      assert k in order;
    }
    Finished(relations, root, seen, out, stack, done, id);
  }

  // ----- object.delete -------------------------------------------------------------

  /** The graph without a set of objects and without every relation touching one of them. */
  ghost function WithoutAll(g: Graph, ids: set<Id>): Graph {
    g.(objects := map i | i in g.objects && i !in ids :: g.objects[i],
       relations := map k | k in g.relations && g.relations[k].from !in ids && g.relations[k].to !in ids :: g.relations[k])
  }

  lemma WithoutOneMore(g: Graph, ids: set<Id>, id: Id)
    requires id in g.objects && id !in ids
    ensures WithoutObject(WithoutAll(g, ids), id) == WithoutAll(g, ids + {id})
  {
    var h := WithoutAll(g, ids);
    var a, b := WithoutObject(h, id), WithoutAll(g, ids + {id});
    assert a.objects == b.objects;
    assert a.relations == b.relations;
  }

  /** Nothing dangles, so everything contained in an existing object exists. */
  lemma ReachableExists(g: Graph, root: Id, id: Id)
    requires Sound(g) && root in g.objects && Reaches(g.relations, root, id)
    ensures id in g.objects
  {
    ClosedReaches(g.relations, root, g.objects.Keys, id);
  }

  /** The last one deleted is what was asked for, with the cascade the others are what it contains, without there are none. */
  ghost predicate RightOnesGone(g: Graph, after: Graph, names: Names, q: Query, cascade: bool, deleted: seq<Id>) {
    && deleted != []
    && var root := deleted[|deleted| - 1];
       && AskedFor(g.objects, names, q, root)
       && (!cascade ==> deleted == [root] && after.objects == g.objects - {root})
       && (cascade ==> forall x :: x in deleted <==> Reaches(g.relations, root, x))
  }

  lemma RightOnes(g: Graph, names: Names, q: Query, cascade: bool, targets: seq<Id>, deleted: seq<Id>)
    requires targets != [] && AskedFor(g.objects, names, q, targets[0])
    requires if cascade then forall x :: x in targets <==> Reaches(g.relations, targets[0], x) else targets == [targets[0]]
    requires |deleted| == |targets| && forall i :: 0 <= i < |targets| ==> deleted[i] == targets[|targets| - 1 - i]
    requires forall x :: x in deleted <==> x in targets
    ensures RightOnesGone(g, WithoutAll(g, Members(deleted)), names, q, cascade, deleted)
  {
    var after := WithoutAll(g, Members(deleted));
    assert deleted[|deleted| - 1] == targets[0];
    if !cascade {
      assert deleted == [targets[0]] && Members(deleted) == {targets[0]};
      assert after.objects == g.objects - {targets[0]};
    }
  }

  /**
   `object.delete`: the object that is named goes, with `cascade` everything contained in it
   goes too, and with them exactly the relations touching what went.
   */
  method ObjectDelete(ctx: CommandContext, names: Names, q: Query, cascade: bool) returns (r: Result<seq<Id>, LookupError>)
    requires ctx.Valid() && GoodNames(names)
    modifies ctx.project, ctx.txn, ctx`calls
    ensures ctx.Valid() && old(ctx.calls) <= ctx.calls
    ensures var found := ResolveObject(old(ctx.project.objects), names, q);
            && (found.Err? ==> r == Err(found.error) && ctx.project.State() == old(ctx.project.State()) && ctx.txn.ops == old(ctx.txn.ops))
            && (found.Ok? ==>
                  && r.Ok? && Distinct(r.value)
                  && (forall x :: x in r.value <==> if cascade then Reaches(old(ctx.project.relations), found.value, x) else x == found.value)
                  && ctx.project.State() == WithoutAll(old(ctx.project.State()), Members(r.value)))
    ensures r.Ok? <==> exists i :: AskedFor(old(ctx.project.objects), names, q, i)
    ensures r.Ok? ==> RightOnesGone(old(ctx.project.State()), ctx.project.State(), names, q, cascade, r.value)
    ensures old(ctx.txn.ops) <= ctx.txn.ops
    ensures Backward(ctx.project.State(), ctx.txn.ops[|old(ctx.txn.ops)|..]) == old(ctx.project.State())
  {
    var found := ResolveObject(ctx.project.objects, names, q);
    if found.Err? {
      ctx.SinceInverts();
      return Err(found.error);
    }
    var id := found.value;
    var targets := [id];
    if cascade {
      targets := CollectSubtree(ctx.project.relations, id);
    }
    ghost var g := ctx.project.State();
    ctx.ValidIsSound();
    forall x | x in targets
      ensures x in g.objects
    {
      if cascade {
        ReachableExists(g, id, x);
      }
    }
    var deleted := DeleteLastFirst(ctx, targets);
    RightOnes(g, names, q, cascade, targets, deleted);
    ctx.SinceInverts();
    return Ok(deleted);
  }

  /** Children first, so that undo restores parents last. */
  method DeleteLastFirst(ctx: CommandContext, targets: seq<Id>) returns (deleted: seq<Id>)
    requires ctx.Valid() && Distinct(targets) && forall x :: x in targets ==> x in ctx.project.objects
    modifies ctx.project, ctx.txn, ctx`calls
    ensures ctx.Valid() && old(ctx.calls) <= ctx.calls
    ensures Distinct(deleted) && forall x :: x in deleted <==> x in targets
    ensures |deleted| == |targets| && forall i :: 0 <= i < |targets| ==> deleted[i] == targets[|targets| - 1 - i]
    ensures ctx.project.State() == WithoutAll(old(ctx.project.State()), Members(deleted))
  {
    ghost var g := ctx.project.State();
    deleted := [];
    var i := |targets|;
    assert WithoutAll(g, {}) == g;
    assert Members([]) == {};
    while i > 0
      invariant 0 <= i <= |targets|
      invariant ctx.Valid() && old(ctx.calls) <= ctx.calls
      invariant Distinct(deleted)
      invariant forall x :: x in deleted <==> x in targets[i..]
      invariant |deleted| == |targets| - i && forall j :: 0 <= j < |deleted| ==> deleted[j] == targets[|targets| - 1 - j]
      invariant ctx.project.State() == WithoutAll(g, Members(deleted))
    {
      i := i - 1;
      var id := targets[i];
      assert id in targets;
      assert targets[i..] == [id] + targets[i + 1..];
      assert id !in targets[i + 1..];
      WithoutOneMore(g, Members(deleted), id);
      assert Members(deleted + [id]) == Members(deleted) + {id};
      var gone := ctx.RemoveObject(id);
      if gone.Ok? {
        deleted := deleted + [id];
      }
    }
    assert targets[0..] == targets;
  }

  // ----- object.create -------------------------------------------------------------

  /** The strings among the tags; anything else is passed over. */
  function Tags(items: seq<Json>): seq<string> {
    if items == [] then []
    else (if items[0].Str? then [items[0].s] else []) + Tags(items[1..])
  }

  lemma {:induction false} TagsAreStrings(items: seq<Json>, t: string)
    ensures t in Tags(items) <==> Str(t) in items
  {
    if items != [] {
      TagsAreStrings(items[1..], t);
      assert items == [items[0]] + items[1..];
    }
  }

  /** What `object.create` is asked for. */
  datatype Creation = Creation(typeId: string, name: string, components: map<string, Json>, tags: seq<Json>, parent: Option<string>)

  function Built(c: Creation, id: Id, actor: string, now: int): Object {
    Object(id, c.typeId, c.name, map k | k in c.components :: Component(k, 1, c.components[k]), Tags(c.tags),
           Meta(now, actor, now, actor, None, 0))
  }

  /** The object with that id, or where there is none an object of that name. */
  predicate NamesParent(objects: map<Id, Object>, n: Names, text: string, i: Id) {
    && i in objects
    && (if n.parseId(text).Some? && n.parseId(text).value in objects then n.parseId(text) == Some(i) else objects[i].name == text)
  }

  /** By id, or failing that by name; the error is that of the second attempt. */
  function ResolveParent(objects: map<Id, Object>, n: Names, text: string): (r: Result<Id, LookupError>)
    ensures GoodNames(n) && r.Ok? ==> NamesParent(objects, n, text, r.value)
    ensures r.Ok? <==> exists i :: NamesParent(objects, n, text, i)
  {
    var byId := ResolveObject(objects, n, Query(Some(text), None));
    if byId.Ok? then assert NamesParent(objects, n, text, byId.value); byId else
      assert forall i :: NamesParent(objects, n, text, i) <==> AskedFor(objects, n, Query(None, Some(text)), i);
      ResolveObject(objects, n, Query(None, Some(text)))
  }

  function Containment(rid: Id, parent: Id, child: Id, actor: string, now: int): Relation {
    Relation(rid, CONTAINS, parent, child, map[], Some(Meta(now, actor, now, actor, None, 0)))
  }

  /** What is asked for is what the object is: each component with its data, each string among the tags. */
  ghost predicate Fulfils(o: Object, c: Creation) {
    && o.typeId == c.typeId && o.name == c.name
    && o.components.Keys == c.components.Keys
    && (forall k :: k in c.components ==> o.components[k].typeId == k && o.components[k].version == 1 && o.components[k].data == c.components[k])
    && (forall t :: t in o.tags <==> Str(t) in c.tags)
  }

  lemma BuiltFulfils(c: Creation, id: Id, actor: string, now: int)
    ensures Fulfils(Built(c, id, actor, now), c)
  {
    forall t
      ensures t in Built(c, id, actor, now).tags <==> Str(t) in c.tags
    {
      TagsAreStrings(c.tags, t);
    }
  }

  /**
   `object.create`: the object is inserted before the parent is looked up, among objects that
   include it. An unknown parent fails the command with the insertion already made; the engine
   takes that back.
   */
  method ObjectCreate(ctx: CommandContext, names: Names, c: Creation, id: Id, rid: Id, now: int) returns (r: Result<Id, LookupError>)
    requires ctx.Valid() && GoodNames(names) && id !in ctx.project.objects && rid !in ctx.project.relations
    modifies ctx.project, ctx.txn, ctx`calls
    ensures ctx.Valid() && old(ctx.calls) <= ctx.calls
    ensures var more := old(ctx.project.objects)[id := Built(c, id, ctx.actor, now)];
            var parent := if c.parent.Some? then ResolveParent(more, names, c.parent.value) else Ok(id);
            && r == (if parent.Ok? then Ok(id) else Err(parent.error))
            && ctx.project.State() == old(ctx.project.State()).(objects := more,
                 relations := if c.parent.None? || parent.Err? then old(ctx.project.relations)
                   else old(ctx.project.relations)[rid := Containment(rid, parent.value, id, ctx.actor, now)])
    ensures id in ctx.project.objects && ctx.project.objects[id].id == id && Fulfils(ctx.project.objects[id], c)
    ensures ctx.project.objects[id].meta == Meta(now, ctx.actor, now, ctx.actor, None, 0)
    ensures r.Ok? && c.parent.Some? ==>
      && rid in ctx.project.relations
      && var edge := ctx.project.relations[rid];
         edge.typeId == "core:contains" && edge.to == id && NamesParent(ctx.project.objects, names, c.parent.value, edge.from)
    ensures old(ctx.txn.ops) <= ctx.txn.ops
    ensures Backward(ctx.project.State(), ctx.txn.ops[|old(ctx.txn.ops)|..]) == old(ctx.project.State())
  {
    BuiltFulfils(c, id, ctx.actor, now);
    var _ := ctx.InsertObject(Built(c, id, ctx.actor, now));
    if c.parent.Some? {
      var parent := ResolveParent(ctx.project.objects, names, c.parent.value);
      if parent.Err? {
        ctx.SinceInverts();
        return Err(parent.error);
      }
      var _ := ctx.PutRelation(Containment(rid, parent.value, id, ctx.actor, now));
    }
    ctx.SinceInverts();
    return Ok(id);
  }
}
