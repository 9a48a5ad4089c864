/** The participant registry `OPTIONS`: an insertion-ordered dictionary from
    participant id to display name, loaded once and never changed. */
module Registry {
  import opened Wrappers

  datatype Entry = Entry(id: string, name: string)

  /** `list(OPTIONS.items())`, in dictionary order. */
  type Registry = seq<Entry>

  /** No value occurs twice in `ks`. */
  predicate Distinct<T(==)>(ks: seq<T>) {
    forall i, j :: 0 <= i < j < |ks| ==> ks[i] != ks[j]
  }

  /** A dictionary holds each key once. */
  predicate Valid(r: Registry) {
    Distinct(Ids(r))
  }

  /** `list(OPTIONS)`: the ids in dictionary order. */
  function Ids(r: Registry): (ks: seq<string>)
    ensures |ks| == |r| && forall i :: 0 <= i < |r| ==> ks[i] == r[i].id
  {
    seq(|r|, i requires 0 <= i < |r| => r[i].id)
  }

  /** `list(OPTIONS.values())`: the display names in dictionary order. */
  function Names(r: Registry): (vs: seq<string>)
    ensures |vs| == |r| && forall i :: 0 <= i < |r| ==> vs[i] == r[i].name
  {
    seq(|r|, i requires 0 <= i < |r| => r[i].name)
  }

  /** `OPTIONS.get(id)`. */
  function Get(r: Registry, id: string): (o: Option<string>)
    ensures o.None? <==> id !in Ids(r)
    ensures o.Some? ==> exists i :: 0 <= i < |r| && r[i] == Entry(id, o.value)
  {
    if r == [] then None
    else if r[0].id == id then Some(r[0].name)
    else
      var o := Get(r[1..], id);
      assert o.Some? ==> r[1..][0] == r[1];
      assert forall i :: 0 <= i < |r| - 1 ==> r[1..][i] == r[i + 1];
      o
  }

  /** A name found by id is one of `OPTIONS.values()`. */
  lemma GetInNames(r: Registry, id: string)
    requires Get(r, id).Some?
    ensures Get(r, id).value in Names(r)
  {
    var i :| 0 <= i < |r| && r[i] == Entry(id, Get(r, id).value);
    assert Names(r)[i] == r[i].name;
  }

  /** In a valid registry, `Get` finds the name stored at the id's position. */
  lemma {:induction false} GetAt(r: Registry, i: nat)
    requires Valid(r) && i < |r|
    ensures Get(r, r[i].id) == Some(r[i].name)
  {
    if i > 0 {
      assert Valid(r[1..]);
      GetAt(r[1..], i - 1);
    }
  }
}
