/** `object.set_property`: a value put at a dotted path inside the data of one component. */
module PropertyPath {
  import opened Prelude
  import opened ProjectGraph
  import opened Text
  import opened Requirement

  /**
   What `set_path` makes of `root`. Steps on the way that are no objects are replaced by
   objects; a root that is none is left alone, and where the path goes on below it there is
   no result, the place where the program panics.
   */
  function SetPath(root: Json, segments: seq<string>, value: Json): Option<Json>
    requires segments != []
    decreases |segments|
  {
    if |segments| == 1 then Some(if root.Obj? then Obj(root.fields[segments[0] := value]) else root)
    else if !root.Obj? then None
    else
      var child := if segments[0] in root.fields && root.fields[segments[0]].Obj? then root.fields[segments[0]] else Obj(map[]);
      var deeper := SetPath(child, segments[1..], value);
      if deeper.None? then None else Some(Obj(root.fields[segments[0] := deeper.value]))
  }

  /** Setting works on every object, and walking the same path then finds the value. */
  lemma {:induction false} SetThenWalk(root: Json, segments: seq<string>, value: Json)
    requires segments != [] && root.Obj?
    ensures SetPath(root, segments, value).Some? && SetPath(root, segments, value).value.Obj?
    ensures WalkPath(SetPath(root, segments, value).value, segments) == Some(value)
    decreases |segments|
  {
    var after := SetPath(root, segments, value);
    if |segments| == 1 {
      assert WalkPath(after.value, segments) == WalkPath(value, segments[1..]);
    } else {
      var child := if segments[0] in root.fields && root.fields[segments[0]].Obj? then root.fields[segments[0]] else Obj(map[]);
      SetThenWalk(child, segments[1..], value);
    }
  }

  /** A path that parts from the one that was set leads where it led before. */
  lemma {:induction false} SetElsewhere(root: Json, segments: seq<string>, value: Json, other: seq<string>, i: nat)
    requires i < |segments| && i < |other| && segments[..i] == other[..i] && segments[i] != other[i] && root.Obj?
    ensures SetPath(root, segments, value).Some?
    ensures WalkPath(SetPath(root, segments, value).value, other) == WalkPath(root, other)
    decreases |segments|
  {
    SetThenWalk(root, segments, value);
    if i > 0 {
      var child := if segments[0] in root.fields && root.fields[segments[0]].Obj? then root.fields[segments[0]] else Obj(map[]);
      assert segments[0] == segments[..i][0] == other[..i][0] == other[0];
      assert segments[1..][..i - 1] == segments[..i][1..] == other[..i][1..] == other[1..][..i - 1];
      SetElsewhere(child, segments[1..], value, other[1..], i - 1);
    }
  }

  /** The edit that the command hands to `update_object`; a missing component starts empty. */
  function WithProperty(o: Object, component: string, path: string, value: Json): Option<Object> {
    var was := if component in o.components then o.components[component] else Component(component, 1, Obj(map[]));
    var data := SetPath(was.data, Split(path, '.'), value);
    if data.None? then None else Some(o.(components := o.components[component := was.(data := data.value)]))
  }

  /** The command stores a value that a requirement or a goal then reads back. */
  lemma SetThenRead(o: Object, component: string, path: string, value: real)
    requires component in o.components ==> o.components[component].data.Obj?
    requires '.' !in component
    ensures WithProperty(o, component, path, Number(value)).Some?
    ensures FieldValue(WithProperty(o, component, path, Number(value)).value.components, component + ['.'] + path) == Ok(Fin(value))
  {
    var was := if component in o.components then o.components[component] else Component(component, 1, Obj(map[]));
    SetThenWalk(was.data, Split(path, '.'), Number(value));
    FindAfter(component, '.', path);
    var whole := component + ['.'] + path;
    assert whole[..|component|] == component && whole[|component| + 1..] == path;
    assert Split(whole, '.') == [component] + Split(path, '.');
    assert ([component] + Split(path, '.'))[1..] == Split(path, '.');
  }
}
