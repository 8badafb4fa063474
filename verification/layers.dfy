/** The named layer stack of a form (the `layers` widget): an ordered list,
    back to front. Adding a layer first drops an existing layer of the same
    name; removing and bringing to front act on the first layer with the
    given name. */
module Layers {

  datatype Content =
    | FormContent
    | ModalContent(text: string, buttons: seq<string>)

  datatype Layer = Layer(name: string, overlay: bool, content: Content)

  function Names(ls: seq<Layer>): (names: seq<string>)
    ensures |names| == |ls|
    ensures forall i :: 0 <= i < |ls| ==> names[i] == ls[i].name
  {
    seq(|ls|, i requires 0 <= i < |ls| => ls[i].name)
  }

  /** No two layers share a name, so a name designates one layer. */
  predicate UniqueNames(ls: seq<Layer>) {
    forall i, j :: 0 <= i < j < |ls| ==> ls[i].name != ls[j].name
  }

  /** Position of the first layer called `name`, or -1. */
  function IndexOfName(ls: seq<Layer>, name: string): (i: int)
    ensures i == -1 <==> name !in Names(ls)
    ensures i != -1 ==> 0 <= i < |ls| && ls[i].name == name
    ensures i != -1 ==> forall k :: 0 <= k < i ==> ls[k].name != name
  {
    if ls == [] then -1
    else if ls[0].name == name then 0
    else
      var j := IndexOfName(ls[1..], name);
      assert Names(ls) == [ls[0].name] + Names(ls[1..]);
      if j == -1 then -1 else j + 1
  }

  /** `RemoveLayer`: drop the first layer called `name`, if any. */
  function Remove(ls: seq<Layer>, name: string): (r: seq<Layer>)
    ensures name !in Names(ls) ==> r == ls
    ensures name in Names(ls) ==> |r| == |ls| - 1
    ensures forall l :: l in r ==> l in ls
    ensures forall l :: l in ls && l.name != name ==> l in r
  {
    var i := IndexOfName(ls, name);
    if i == -1 then ls
    else
      RemoveAt(ls, i);
      ls[..i] + ls[i + 1..]
  }

  /** In a stack of distinct names, removing a name keeps the names
      distinct and leaves no layer with that name. */
  lemma RemoveUnique(ls: seq<Layer>, name: string)
    requires UniqueNames(ls)
    ensures UniqueNames(Remove(ls, name)) && name !in Names(Remove(ls, name))
  {
    var i := IndexOfName(ls, name);
    if i != -1 {
      RemoveAt(ls, i);
    }
  }

  /** Dropping the layer at `i` keeps every other layer, in order. */
  lemma RemoveAt(ls: seq<Layer>, i: nat)
    requires i < |ls|
    ensures var r := ls[..i] + ls[i + 1..];
      && (forall l :: l in r ==> l in ls)
      && (forall l :: l in ls && l != ls[i] ==> l in r)
      && (UniqueNames(ls) ==> UniqueNames(r) && ls[i].name !in Names(r))
  {
    var r := ls[..i] + ls[i + 1..];
    assert forall k :: 0 <= k < |r| ==> r[k] == ls[if k < i then k else k + 1];
    forall l | l in ls && l != ls[i]
      ensures l in r
    {
      var k :| 0 <= k < |ls| && ls[k] == l;
      if k < i { assert r[k] == l; } else { assert r[k - 1] == l; }
    }
  }

  /** `AddLayer`: replace any layer of the same name and put the new one in
      front. */
  function Add(ls: seq<Layer>, l: Layer): (r: seq<Layer>)
    ensures |r| >= 1 && r[|r| - 1] == l
    ensures forall m :: m in ls && m.name != l.name ==> m in r
    ensures UniqueNames(ls) ==> UniqueNames(r)
  {
    var rest := Remove(ls, l.name);
    if UniqueNames(ls) then
      RemoveUnique(ls, l.name);
      assert forall k :: 0 <= k < |rest| ==> rest[k].name == Names(rest)[k];
      rest + [l]
    else
      rest + [l]
  }

  /** `SendToFront`: move the first layer called `name` to the front; the
      layers are only reordered. */
  function SendToFront(ls: seq<Layer>, name: string): (r: seq<Layer>)
    ensures multiset(r) == multiset(ls)
    ensures name !in Names(ls) ==> r == ls
    ensures name in Names(ls) ==> r[|r| - 1].name == name
    ensures UniqueNames(ls) ==> UniqueNames(r)
  {
    var i := IndexOfName(ls, name);
    if i == -1 then ls
    else
      MoveToBack(ls, i);
      ls[..i] + ls[i + 1..] + [ls[i]]
  }

  /** Moving the layer at `i` behind all others only reorders the stack. */
  lemma MoveToBack(ls: seq<Layer>, i: nat)
    requires i < |ls|
    ensures var r := ls[..i] + ls[i + 1..] + [ls[i]];
      && multiset(r) == multiset(ls)
      && (UniqueNames(ls) ==> UniqueNames(r))
  {
    var r := ls[..i] + ls[i + 1..] + [ls[i]];
    assert ls == ls[..i] + [ls[i]] + ls[i + 1..];
    assert multiset(ls) == multiset(ls[..i]) + multiset([ls[i]]) + multiset(ls[i + 1..]);
    if UniqueNames(ls) {
      MoveToBackUnique(ls, i);
    }
  }

  lemma MoveToBackUnique(ls: seq<Layer>, i: nat)
    requires i < |ls| && UniqueNames(ls)
    ensures UniqueNames(ls[..i] + ls[i + 1..] + [ls[i]])
  {
    var r := ls[..i] + ls[i + 1..] + [ls[i]];
    forall a, b | 0 <= a < b < |r|
      ensures r[a].name != r[b].name
    {
      var a' := if a < i then a else a + 1;
      var b' := if b == |r| - 1 then i else if b < i then b else b + 1;
      assert r[a] == ls[a'];
      assert r[b] == ls[b'];
    }
  }

  /** Removing a layer that was just added to a stack without that name
      restores the stack. */
  lemma AddThenRemove(ls: seq<Layer>, l: Layer)
    requires l.name !in Names(ls)
    ensures Remove(Add(ls, l), l.name) == ls
  {
    var added := Add(ls, l);
    assert added == ls + [l];
    assert Names(added) == Names(ls) + [l.name];
    assert IndexOfName(added, l.name) == |ls|;
    assert added[..|ls|] == ls;
  }

  /** In a stack of distinct names, a layer just added is already in front,
      so bringing it to the front changes nothing. */
  lemma SendAddedToFront(ls: seq<Layer>, l: Layer)
    requires UniqueNames(ls)
    ensures SendToFront(Add(ls, l), l.name) == Add(ls, l)
  {
    RemoveUnique(ls, l.name);
    AddFresh(Remove(ls, l.name), l);
  }

  /** A layer whose name is new to the stack goes to the front when added,
      and bringing it to the front changes nothing. */
  lemma AddFresh(ls: seq<Layer>, l: Layer)
    requires l.name !in Names(ls)
    ensures Add(ls, l) == ls + [l]
    ensures SendToFront(ls + [l], l.name) == ls + [l]
  {
    var added := ls + [l];
    assert Names(added) == Names(ls) + [l.name];
    assert added[..|ls|] == ls;
    assert IndexOfName(added, l.name) == |ls|;
    assert added[..|ls|] + added[|ls| + 1..] + [added[|ls|]] == added;
  }
}
