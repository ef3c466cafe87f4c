/** Small building blocks shared by every module. */
module Prelude {

  datatype Option<+T> = None | Some(value: T)

  datatype Result<+T, +E> = Ok(value: T) | Err(error: E)

  /** JSON values, as far as components, settings and command inputs need them. */
  datatype Json =
    | Null
    | Bool(b: bool)
    | Number(r: real)
    | Str(s: string)
    | Array(items: seq<Json>)
    | Obj(fields: map<string, Json>)

  datatype Vec3 = Vec3(x: real, y: real, z: real)

  /** Entity ids are opaque; their order is the order of the underlying ULID. */
  type Id = nat

  ghost predicate Distinct<T>(s: seq<T>) {
    forall i, j :: 0 <= i < j < |s| ==> s[i] != s[j]
  }

  lemma DistinctPrefix<T>(s: seq<T>, i: nat)
    requires Distinct(s) && i < |s|
    ensures s[i] !in s[..i]
    ensures forall x :: x in s[..i + 1] <==> x in s[..i] || x == s[i]
  {
    assert forall j :: 0 <= j < i ==> s[..i][j] == s[j] && s[j] != s[i];
    assert s[..i + 1] == s[..i] + [s[i]];
  }

  lemma Regrouped<T>(a: seq<T>, b: seq<T>, c: seq<T>)
    ensures a + (b + c) == a + b + c
  {
  }

  ghost function Members(s: seq<Id>): set<Id> {
    set x | x in s
  }

  lemma MembersNext(s: seq<Id>, i: nat)
    requires i < |s|
    ensures Members(s[..i + 1]) == Members(s[..i]) + {s[i]}
  {
    assert s[..i + 1] == s[..i] + [s[i]];
  }

  lemma MembersHead(s: seq<Id>)
    requires s != []
    ensures Members(s) == {s[0]} + Members(s[1..])
  {
    assert s == [s[0]] + s[1..];
  }

  ghost predicate Increasing(s: seq<Id>) {
    forall i, j :: 0 <= i < j < |s| ==> s[i] < s[j]
  }

  /** The least element of a nonempty set of ids. */
  function Least(s: set<Id>): (m: Id)
    requires s != {}
    ensures m in s && forall x :: x in s ==> m <= x
  {
    LeastExists(s);
    var m :| m in s && forall x :: x in s ==> m <= x;
    m
  }

  lemma LeastExists(s: set<Id>)
    requires s != {}
    ensures exists m :: m in s && forall x :: x in s ==> m <= x
  {
    var m := LeastOf(s);
  }

  lemma LeastOf(s: set<Id>) returns (m: Id)
    requires s != {}
    ensures m in s && forall x :: x in s ==> m <= x
    decreases s
  {
    m :| m in s;
    var rest := s - {m};
    if rest != {} {
      var other := LeastOf(rest);
      assert forall x :: x in s ==> x == m || x in rest;
      if other < m {
        m := other;
      }
    } else {
      assert s == {m};
    }
  }

  /** The elements of a set of ids in ascending order. */
  function Sorted(s: set<Id>): (r: seq<Id>)
    ensures Increasing(r)
    ensures forall x :: x in r <==> x in s
  {
    if s == {} then [] else
      var m := Least(s);
      [m] + Sorted(s - {m})
  }
}
