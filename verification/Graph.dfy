/**
 The project graph and its one mutation primitive: applying one side of a recorded
 `StateOp`. `Graph` is the value of a project; `Project` is the object that holds it.
 */
module ProjectGraph {
  import opened Prelude

  const CONTAINS := "core:contains"
  const DEPENDS_ON := "core:depends-on"
  const REQUIREMENT_STATUS := "core:requirement-status"
  const REQUIREMENT_EXPR := "core:requirement-expr"
  const REQUIREMENT := "core:requirement"
  const TRANSFORM := "core:transform"
  const GEOMETRY := "geom:geometry"
  const MESH := "geom:mesh"
  const PROJECT_NAME_META_KEY := "__name"
  const PROJECT_SCHEMA_VERSION: nat := 1

  datatype Component = Component(typeId: string, version: nat, data: Json)

  datatype Meta = Meta(
    createdAt: int, createdBy: string, updatedAt: int, updatedBy: string,
    provenance: Option<Json>, revision: nat)

  datatype Object = Object(
    id: Id, typeId: string, name: string,
    components: map<string, Component>, tags: seq<string>, meta: Meta)
  {
    /** What an update does to the object after the caller's edit. */
    function Touch(actor: string, now: int): Object {
      this.(meta := meta.(updatedAt := now, updatedBy := actor, revision := meta.revision + 1))
    }
  }

  datatype Relation = Relation(
    id: Id, typeId: string, from: Id, to: Id,
    properties: map<string, Json>, meta: Option<Meta>)

  datatype StateOp =
    | SetObject(objBefore: Option<Object>, objAfter: Option<Object>)
    | SetRelation(relBefore: Option<Relation>, relAfter: Option<Relation>)
    | SetProjectMeta(key: string, metaBefore: Option<Json>, metaAfter: Option<Json>)

  datatype Graph = Graph(
    id: Id, schemaVersion: nat, createdAt: int, name: string,
    objects: map<Id, Object>, relations: map<Id, Relation>, settings: map<string, Json>)

  // ----- applying ops ------------------------------------------------------

  /** Write `target`, or when it is absent remove the entity the other side carries. */
  function ApplyObject(objects: map<Id, Object>, target: Option<Object>, other: Option<Object>): map<Id, Object> {
    match target
    case Some(o) => objects[o.id := o]
    case None => if other.Some? then objects - {other.value.id} else objects
  }

  function ApplyRelation(relations: map<Id, Relation>, target: Option<Relation>, other: Option<Relation>): map<Id, Relation> {
    match target
    case Some(r) => relations[r.id := r]
    case None => if other.Some? then relations - {other.value.id} else relations
  }

  /** The reserved key addresses the project name; a value that is not a string changes nothing. */
  function ApplyName(name: string, key: string, target: Option<Json>): string {
    if key == PROJECT_NAME_META_KEY && target.Some? && target.value.Str? then target.value.s else name
  }

  function ApplySettings(settings: map<string, Json>, key: string, target: Option<Json>): map<string, Json> {
    if key == PROJECT_NAME_META_KEY then settings
    else if target.Some? then settings[key := target.value]
    else settings - {key}
  }

  function Apply(g: Graph, op: StateOp, forward: bool): Graph {
    match op
    case SetObject(before, after) =>
      g.(objects := if forward then ApplyObject(g.objects, after, before) else ApplyObject(g.objects, before, after))
    case SetRelation(before, after) =>
      g.(relations := if forward then ApplyRelation(g.relations, after, before) else ApplyRelation(g.relations, before, after))
    case SetProjectMeta(key, before, after) =>
      var target := if forward then after else before;
      g.(name := ApplyName(g.name, key, target), settings := ApplySettings(g.settings, key, target))
  }

  /** Apply a list of ops in recording order. */
  function Forward(g: Graph, ops: seq<StateOp>): Graph
    decreases |ops|
  {
    if ops == [] then g else Forward(Apply(g, ops[0], true), ops[1..])
  }

  /** Revert a list of ops, last recorded first. */
  function Backward(g: Graph, ops: seq<StateOp>): Graph
    decreases |ops|
  {
    if ops == [] then g else Backward(Apply(g, ops[|ops| - 1], false), ops[..|ops| - 1])
  }

  // ----- soundness of a graph ----------------------------------------------

  /** Map keys are entity ids and every relation endpoint exists. */
  ghost predicate Sound(g: Graph) {
    && (forall i :: i in g.objects ==> g.objects[i].id == i)
    && (forall r :: r in g.relations ==> g.relations[r].id == r)
    && (forall r :: r in g.relations ==> g.relations[r].from in g.objects && g.relations[r].to in g.objects)
  }

  predicate Touches(r: Relation, id: Id) {
    r.from == id || r.to == id
  }

  /** The live project: every mutation of it is the application of an op. */
  class Project {
    const id: Id
    const schemaVersion: nat
    const createdAt: int
    var name: string
    var objects: map<Id, Object>
    var relations: map<Id, Relation>
    var settings: map<string, Json>

    function State(): Graph
      reads this
    {
      Graph(id, schemaVersion, createdAt, name, objects, relations, settings)
    }

    /** A fresh, empty project. */
    constructor (id: Id, name: string, now: int)
      ensures State() == Graph(id, PROJECT_SCHEMA_VERSION, now, name, map[], map[], map[])
    {
      this.id, schemaVersion, createdAt := id, PROJECT_SCHEMA_VERSION, now;
      this.name := name;
      objects, relations, settings := map[], map[], map[];
    }

    /** A project read back from a snapshot. */
    constructor FromGraph(g: Graph)
      ensures State() == g
    {
      id, schemaVersion, createdAt := g.id, g.schemaVersion, g.createdAt;
      name := g.name;
      objects, relations, settings := g.objects, g.relations, g.settings;
    }

    method ApplyOp(op: StateOp, forward: bool)
      modifies this
      ensures State() == Apply(old(State()), op, forward)
    {
      match op {
        case SetObject(before, after) =>
          var target := if forward then after else before;
          if target.Some? {
            objects := objects[target.value.id := target.value];
          } else {
            var other := if forward then before else after;
            if other.Some? {
              objects := objects - {other.value.id};
            }
          }
        case SetRelation(before, after) =>
          var target := if forward then after else before;
          if target.Some? {
            relations := relations[target.value.id := target.value];
          } else {
            var other := if forward then before else after;
            if other.Some? {
              relations := relations - {other.value.id};
            }
          }
        case SetProjectMeta(key, before, after) =>
          var target := if forward then after else before;
          if key == PROJECT_NAME_META_KEY {
            if target.Some? && target.value.Str? {
              name := target.value.s;
            }
          } else if target.Some? {
            settings := settings[key := target.value];
          } else {
            settings := settings - {key};
          }
      }
    }
  }
}
