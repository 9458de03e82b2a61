/**
 * The grouping engine (`buildTypedEvents`): the flat event bucket becomes one
 * group per placement code, in first-seen order, each group holding the
 * entries of that placement under their `type` key.
 */
module Grouping {
  import opened Events

  /** `{placementCode, [type]: [...]}`; a type absent from `byType` is an
    * undefined key of the source object. */
  datatype Group = Group(placementCode: string, byType: map<Kind, seq<TypedEvent>>)

  /** The list under key `k`, empty where the key is undefined. */
  function Listed(g: Group, k: Kind): seq<TypedEvent>
  {
    if k in g.byType then g.byType[k] else []
  }

  /** The index `findIndex` returns when looking for `code`: the first group
    * with that placement code, or -1. */
  function IndexOf(groups: seq<Group>, code: string): (i: int)
    ensures -1 <= i < |groups|
    ensures 0 <= i ==> groups[i].placementCode == code
    ensures forall j :: 0 <= j < |groups| && (i == -1 || j < i) ==> groups[j].placementCode != code
  {
    if groups == [] then -1
    else if groups[0].placementCode == code then 0
    else
      var k := IndexOf(groups[1..], code);
      if k == -1 then -1 else k + 1
  }

  /** The linear search behind `findIndex(groupedTypedEvents, ...)`. */
  method FindIndex(groups: seq<Group>, code: string) returns (i: int)
    ensures i == IndexOf(groups, code)
  {
    i := 0;
    while i < |groups| && groups[i].placementCode != code
      invariant 0 <= i <= |groups|
      invariant forall j :: 0 <= j < i ==> groups[j].placementCode != code
    {
      i := i + 1;
    }
    if i == |groups| {
      i := -1;
    }
  }

  /** Appending an entry under its own type key, creating the key if needed. */
  function Append(g: Group, t: TypedEvent): Group
  {
    if t.kind in g.byType then g.(byType := g.byType[t.kind := g.byType[t.kind] + [t]])
    else g.(byType := g.byType[t.kind := [t]])
  }

  /** One iteration of the `forEach` in `buildTypedEvents`: find or push the
    * group of the entry's placement, then append the entry to it. A pushed
    * group already holds the entry, so the append stores it a second time. */
  function AddEvent(groups: seq<Group>, t: TypedEvent): seq<Group>
  {
    var code := PlacementOf(t);
    var i := IndexOf(groups, code);
    var grown := if i == -1 then groups + [Group(code, map[t.kind := [t]])] else groups;
    var at := if i == -1 then |groups| else i;
    grown[at := Append(grown[at], t)]
  }

  /** `buildTypedEvents()` over the bucket `b`. */
  function Grouped(b: seq<TypedEvent>): seq<Group>
    decreases |b|
  {
    if b == [] then [] else AddEvent(Grouped(b[..|b| - 1]), b[|b| - 1])
  }

  /** What one step does to the groups: an entry of a known placement extends
    * that group only; an entry of a new placement appends a group that holds
    * the entry twice under its type. */
  lemma AddEventEffect(groups: seq<Group>, t: TypedEvent)
    ensures var r := AddEvent(groups, t); var i := IndexOf(groups, PlacementOf(t));
      if i == -1 then
        r == groups + [Group(PlacementOf(t), map[t.kind := [t, t]])]
      else
        |r| == |groups| && r[i] == Append(groups[i], t) &&
        forall j :: 0 <= j < |groups| && j != i ==> r[j] == groups[j]
  {
    var i := IndexOf(groups, PlacementOf(t));
    if i == -1 {
      var g := Group(PlacementOf(t), map[t.kind := [t]]);
      var m := map[t.kind := [t, t]];
      assert g.byType[t.kind] == [t];
      assert Append(g, t).byType == g.byType[t.kind := [t] + [t]];
      assert Append(g, t).byType.Keys == m.Keys;
      assert [t] + [t] == [t, t];
      assert Append(g, t).byType[t.kind] == m[t.kind];
      assert Append(g, t).byType == m;
      assert Append(g, t) == Group(PlacementOf(t), m);
    }
  }

  /** The entry that creates a group is stored twice at the head of its list. */
  lemma CreatorStoredTwice(groups: seq<Group>, t: TypedEvent)
    requires IndexOf(groups, PlacementOf(t)) == -1
    ensures var r := AddEvent(groups, t);
      |r| == |groups| + 1 && r[|groups|].placementCode == PlacementOf(t) &&
      Listed(r[|groups|], t.kind) == [t, t] &&
      forall k :: k != t.kind ==> k !in r[|groups|].byType
  {
    AddEventEffect(groups, t);
  }

  // ---------------------------------------------------------------------
  // An independent description of the result, in terms of the bucket alone.

  /** The position of the first entry of placement `code` in `b`, or -1. */
  function FirstAt(b: seq<TypedEvent>, code: string): (i: int)
    ensures -1 <= i < |b|
    ensures 0 <= i ==> PlacementOf(b[i]) == code
    decreases |b|
  {
    if b == [] then -1
    else
      var i := FirstAt(b[..|b| - 1], code);
      if 0 <= i then i
      else if PlacementOf(b[|b| - 1]) == code then |b| - 1
      else -1
  }

  /** No entry before `FirstAt(b, code)` has placement `code`, and none at all
    * when it is -1. */
  lemma {:induction false} FirstAtIsFirst(b: seq<TypedEvent>, code: string, j: nat)
    requires j < |b|
    requires FirstAt(b, code) == -1 || j < FirstAt(b, code)
    ensures PlacementOf(b[j]) != code
    decreases |b|
  {
    var b' := b[..|b| - 1];
    if j < |b| - 1 {
      assert b[j] == b'[j];
      FirstAtIsFirst(b', code, j);
    }
  }

  /** The entries of `b` with placement `code` and type `k`, in arrival order. */
  function Filter(b: seq<TypedEvent>, code: string, k: Kind): seq<TypedEvent>
    decreases |b|
  {
    if b == [] then []
    else
      var last := b[|b| - 1];
      Filter(b[..|b| - 1], code, k) + (if PlacementOf(last) == code && last.kind == k then [last] else [])
  }

  /** What the group of `code` should hold under `k`: the filtered entries,
    * with the placement's first entry repeated in front when it has type `k`. */
  function Expected(b: seq<TypedEvent>, code: string, k: Kind): seq<TypedEvent>
    requires 0 <= FirstAt(b, code)
  {
    var first := b[FirstAt(b, code)];
    if first.kind == k then [first] + Filter(b, code, k) else Filter(b, code, k)
  }

  lemma {:induction false} FilterMembers(b: seq<TypedEvent>, code: string, k: Kind)
    ensures forall t :: t in Filter(b, code, k) ==> t in b && PlacementOf(t) == code && t.kind == k
    decreases |b|
  {
    if b != [] {
      FilterMembers(b[..|b| - 1], code, k);
    }
  }

  lemma {:induction false} FilterAbsent(b: seq<TypedEvent>, code: string, k: Kind)
    requires FirstAt(b, code) == -1
    ensures Filter(b, code, k) == []
    decreases |b|
  {
    if b != [] {
      FilterAbsent(b[..|b| - 1], code, k);
    }
  }

  /** The placement codes of the groups, in order. */
  function Codes(gs: seq<Group>): (cs: seq<string>)
    ensures |cs| == |gs| && forall j :: 0 <= j < |gs| ==> cs[j] == gs[j].placementCode
  {
    seq(|gs|, j requires 0 <= j < |gs| => gs[j].placementCode)
  }

  /** The distinct placement codes of `b`, each where it is first seen. */
  function FirstSeen(b: seq<TypedEvent>): seq<string>
    decreases |b|
  {
    if b == [] then []
    else
      var f := FirstSeen(b[..|b| - 1]);
      var c := PlacementOf(b[|b| - 1]);
      if c in f then f else f + [c]
  }

  lemma IndexOfAbsent(gs: seq<Group>, c: string)
    ensures IndexOf(gs, c) == -1 <==> c !in Codes(gs)
  {
    if IndexOf(gs, c) != -1 {
      assert Codes(gs)[IndexOf(gs, c)] == c;
    }
  }

  lemma AddEventCodes(gs: seq<Group>, t: TypedEvent)
    ensures Codes(AddEvent(gs, t)) ==
      if PlacementOf(t) in Codes(gs) then Codes(gs) else Codes(gs) + [PlacementOf(t)]
  {
    AddEventEffect(gs, t);
    IndexOfAbsent(gs, PlacementOf(t));
  }

  /** The groups carry exactly the first-seen placement codes. */
  lemma {:induction false} GroupedCodes(b: seq<TypedEvent>)
    ensures Codes(Grouped(b)) == FirstSeen(b)
    decreases |b|
  {
    if b != [] {
      GroupedCodes(b[..|b| - 1]);
      AddEventCodes(Grouped(b[..|b| - 1]), b[|b| - 1]);
    }
  }

  /** First-seen codes: every code of the bucket is listed, every listed code
    * occurs, and the list follows the position of each code's first entry. */
  lemma {:induction false} FirstSeenOrder(b: seq<TypedEvent>)
    ensures var f := FirstSeen(b);
      (forall j :: 0 <= j < |f| ==> 0 <= FirstAt(b, f[j])) &&
      (forall j1, j2 :: 0 <= j1 < j2 < |f| ==> FirstAt(b, f[j1]) < FirstAt(b, f[j2])) &&
      (forall i :: 0 <= i < |b| ==> PlacementOf(b[i]) in f)
    decreases |b|
  {
    if b != [] {
      var b', t := b[..|b| - 1], b[|b| - 1];
      var f, f' := FirstSeen(b), FirstSeen(b');
      FirstSeenOrder(b');
      var c := PlacementOf(t);
      // Codes already seen keep their first position.
      forall j | 0 <= j < |f'|
        ensures 0 <= FirstAt(b, f'[j]) == FirstAt(b', f'[j])
      {
      }
      if c !in f' {
        assert FirstAt(b', c) == -1;
        assert f == f' + [c];
        assert FirstAt(b, c) == |b'|;
      } else {
        assert f == f';
      }
      forall i | 0 <= i < |b|
        ensures PlacementOf(b[i]) in f
      {
        if i < |b'| {
          assert b[i] == b'[i];
        }
      }
    }
  }

  /** Grouping order: there is one group per distinct placement code of the
    * bucket, and the groups follow the order in which the codes first appear. */
  lemma GroupedOrder(b: seq<TypedEvent>)
    ensures var gs := Grouped(b);
      (forall j :: 0 <= j < |gs| ==> 0 <= FirstAt(b, gs[j].placementCode)) &&
      (forall j1, j2 :: 0 <= j1 < j2 < |gs| ==>
         FirstAt(b, gs[j1].placementCode) < FirstAt(b, gs[j2].placementCode)) &&
      (forall i :: 0 <= i < |b| ==> 0 <= IndexOf(gs, PlacementOf(b[i])))
  {
    var gs := Grouped(b);
    GroupedCodes(b);
    FirstSeenOrder(b);
    forall i | 0 <= i < |b|
      ensures 0 <= IndexOf(gs, PlacementOf(b[i]))
    {
      IndexOfAbsent(gs, PlacementOf(b[i]));
    }
  }

  /** What the group `g` holds under type `k`, against the bucket `b`. */
  predicate GroupDescribes(b: seq<TypedEvent>, g: Group, k: Kind)
  {
    0 <= FirstAt(b, g.placementCode) &&
    Listed(g, k) == Expected(b, g.placementCode, k) &&
    (k in g.byType <==> Filter(b, g.placementCode, k) != [])
  }

  /** An entry of another placement leaves a group's description valid. */
  lemma UntouchedGroup(b: seq<TypedEvent>, t: TypedEvent, g: Group, k: Kind)
    requires GroupDescribes(b, g, k)
    requires g.placementCode != PlacementOf(t)
    ensures GroupDescribes(b + [t], g, k)
  {
    var x := g.placementCode;
    assert (b + [t])[..|b|] == b;
    assert FirstAt(b + [t], x) == FirstAt(b, x);
    assert Filter(b + [t], x, k) == Filter(b, x, k);
  }

  /** A later entry moves no placement's first position. */
  lemma FirstAtSnoc(b: seq<TypedEvent>, t: TypedEvent, x: string)
    requires 0 <= FirstAt(b, x)
    ensures FirstAt(b + [t], x) == FirstAt(b, x)
    ensures (b + [t])[FirstAt(b, x)] == b[FirstAt(b, x)]
  {
    assert (b + [t])[..|b|] == b;
  }

  /** A later entry extends the filter of its own placement and type only. */
  lemma FilterSnoc(b: seq<TypedEvent>, t: TypedEvent, x: string, k: Kind)
    ensures Filter(b + [t], x, k) ==
      Filter(b, x, k) + (if PlacementOf(t) == x && t.kind == k then [t] else [])
  {
    assert (b + [t])[..|b|] == b;
  }

  /** Appending an entry extends the list of its own type only. */
  lemma ListedAppend(g: Group, t: TypedEvent, k: Kind)
    ensures Listed(Append(g, t), k) == Listed(g, k) + (if t.kind == k then [t] else [])
    ensures k in Append(g, t).byType <==> k in g.byType || t.kind == k
  {
  }

  /** A later entry of placement `x` extends what its group should hold. */
  lemma ExpectedSnoc(b: seq<TypedEvent>, t: TypedEvent, x: string, k: Kind)
    requires 0 <= FirstAt(b, x) && PlacementOf(t) == x
    ensures 0 <= FirstAt(b + [t], x)
    ensures Expected(b + [t], x, k) == Expected(b, x, k) + (if t.kind == k then [t] else [])
  {
    FirstAtSnoc(b, t, x);
    FilterSnoc(b, t, x, k);
    var first := b[FirstAt(b, x)];
    if first.kind == k {
      assert [first] + (Filter(b, x, k) + (if t.kind == k then [t] else [])) ==
        ([first] + Filter(b, x, k)) + (if t.kind == k then [t] else []);
    }
  }

  /** An entry of the group's own placement extends the description. */
  lemma ExtendedGroup(b: seq<TypedEvent>, t: TypedEvent, g: Group, k: Kind)
    requires GroupDescribes(b, g, k)
    requires g.placementCode == PlacementOf(t)
    ensures GroupDescribes(b + [t], Append(g, t), k)
  {
    var x := g.placementCode;
    ExpectedSnoc(b, t, x, k);
    FilterSnoc(b, t, x, k);
    ListedAppend(g, t, k);
  }

  /** The first entry of a placement not seen before starts its filters. */
  lemma FirstEntry(b: seq<TypedEvent>, t: TypedEvent, k: Kind)
    requires FirstAt(b, PlacementOf(t)) == -1
    ensures FirstAt(b + [t], PlacementOf(t)) == |b|
    ensures Filter(b + [t], PlacementOf(t), k) == if t.kind == k then [t] else []
  {
    assert (b + [t])[..|b|] == b;
    FilterAbsent(b, PlacementOf(t), k);
  }

  /** The group pushed for a new placement is described by the bucket. */
  lemma NewGroup(b: seq<TypedEvent>, t: TypedEvent, k: Kind)
    requires FirstAt(b, PlacementOf(t)) == -1
    ensures GroupDescribes(b + [t], Group(PlacementOf(t), map[t.kind := [t, t]]), k)
  {
    var c, b1 := PlacementOf(t), b + [t];
    var g := Group(c, map[t.kind := [t, t]]);
    FirstEntry(b, t, k);
    assert b1[|b|] == t;
    if t.kind == k {
      assert Listed(g, k) == [t, t] == Expected(b1, c, k);
    } else {
      assert k !in g.byType;
      assert Filter(b1, c, k) == [];
    }
  }

  /** Grouping membership: every group holds, under each type, exactly the
    * bucket entries of its placement and type in arrival order, with the entry
    * that created the group repeated in front; a type key is defined exactly
    * when the bucket has such an entry. */
  lemma {:induction false} GroupedContents(b: seq<TypedEvent>)
    ensures var gs := Grouped(b);
      forall j, k :: 0 <= j < |gs| ==> GroupDescribes(b, gs[j], k)
    decreases |b|
  {
    if b != [] {
      var b', t := b[..|b| - 1], b[|b| - 1];
      assert b == b' + [t];
      var gs' := Grouped(b');
      GroupedContents(b');
      GroupedCodes(b');
      FirstSeenOrder(b');
      AddEventEffect(gs', t);
      var c := PlacementOf(t);
      var i := IndexOf(gs', c);
      forall j, k | 0 <= j < |Grouped(b)|
        ensures GroupDescribes(b, Grouped(b)[j], k)
      {
        if i == -1 && j == |gs'| {
          assert FirstAt(b', c) == -1 by {
            IndexOfAbsent(gs', c);
          }
          NewGroup(b', t, k);
        } else if j == i {
          ExtendedGroup(b', t, gs'[j], k);
        } else {
          assert gs'[j].placementCode != c by {
            if i != -1 {
              assert Codes(gs')[i] == c && Codes(gs')[j] == gs'[j].placementCode;
              if i < j {
                assert FirstAt(b', Codes(gs')[i]) < FirstAt(b', Codes(gs')[j]);
              } else {
                assert FirstAt(b', Codes(gs')[j]) < FirstAt(b', Codes(gs')[i]);
              }
            }
          }
          UntouchedGroup(b', t, gs'[j], k);
        }
      }
    }
  }

  /** Every entry listed under type `k` has type `k`, belongs to that group's
    * placement and comes from the bucket. */
  lemma GroupedMembers(b: seq<TypedEvent>, j: nat, k: Kind)
    requires j < |Grouped(b)|
    ensures forall t :: t in Listed(Grouped(b)[j], k) ==>
      t in b && t.kind == k && PlacementOf(t) == Grouped(b)[j].placementCode
  {
    GroupedContents(b);
    assert GroupDescribes(b, Grouped(b)[j], k);
    FilterMembers(b, Grouped(b)[j].placementCode, k);
  }

  /** A bucket without `winner` entries yields no `winner` lists. */
  lemma NoWinnerGroups(b: seq<TypedEvent>, j: nat)
    requires WellFormed(b)
    requires j < |Grouped(b)|
    ensures Listed(Grouped(b)[j], Winner) == []
  {
    var gs := Grouped(b);
    GroupedContents(b);
    assert GroupDescribes(b, gs[j], Winner);
    FilterMembers(b, gs[j].placementCode, Winner);
    assert b[FirstAt(b, gs[j].placementCode)].kind != Winner by {
      assert WellKinded(b[FirstAt(b, gs[j].placementCode)]);
    }
  }
}
