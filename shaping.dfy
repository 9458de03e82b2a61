/**
 * Shaping one placement group into the report sent to the collection
 * endpoint (the `groupedTypedEvents.map(...)` callback of `sendTypedEvent`):
 * the event records listed per report key, and the sizes gathered through
 * the size handler.
 */
module Shaping {
  import opened Wrappers
  import opened Events
  import opened Grouping

  /** `staqAdapter.sizeUtils.handleSize(sizes, size)`: given the sizes gathered
    * so far and a candidate, the size to append, or `None` for `null`. Its
    * body is not part of this model; it is a parameter of the adapter. */
  type SizeHandler = (seq<Size>, Size) -> Option<Size>

  /** `{placementCode, sizes, events}`, with `events` keyed by report key. */
  datatype PlacementReport = PlacementReport(placementCode: string, sizes: seq<Size>,
                                             events: map<string, seq<EventRecord>>)

  /** `['request', 'response', 'winner']`, the order the keys are visited in. */
  const EventKeys: seq<Kind> := [Request, Response, Winner]

  /** The key of a type's list in the report: `${eventKey}s`. */
  function ReportKey(k: Kind): string
  {
    KindName(k) + "s"
  }

  /** One entry's contribution to `sizes`: entries without a size field add
    * nothing; otherwise the handler decides. */
  function RecordSize(handle: SizeHandler, sizes: seq<Size>, t: TypedEvent): seq<Size>
  {
    match SizeOf(t.event)
    case None => sizes
    case Some(z) =>
      match handle(sizes, z)
      case None => sizes
      case Some(z') => sizes + [z']
  }

  /** `sizes` after visiting the entries `ts` in order. */
  function AddSizes(handle: SizeHandler, sizes: seq<Size>, ts: seq<TypedEvent>): seq<Size>
    decreases |ts|
  {
    if ts == [] then sizes
    else RecordSize(handle, AddSizes(handle, sizes, ts[..|ts| - 1]), ts[|ts| - 1])
  }

  /** The `event` part of each entry, in order. */
  function Records(ts: seq<TypedEvent>): (rs: seq<EventRecord>)
    ensures |rs| == |ts| && forall i :: 0 <= i < |ts| ==> rs[i] == ts[i].event
  {
    seq(|ts|, i requires 0 <= i < |ts| => ts[i].event)
  }

  /** `sizes` after visiting the lists of the types `keys`, in order. */
  function SizesOver(handle: SizeHandler, g: Group, keys: seq<Kind>): seq<Size>
    decreases |keys|
  {
    if keys == [] then []
    else AddSizes(handle, SizesOver(handle, g, keys[..|keys| - 1]), Listed(g, keys[|keys| - 1]))
  }

  /** `events` after visiting the types `keys`, in order. */
  function EventsOver(g: Group, keys: seq<Kind>): map<string, seq<EventRecord>>
    decreases |keys|
  {
    if keys == [] then map[]
    else
      var k := keys[|keys| - 1];
      EventsOver(g, keys[..|keys| - 1])[ReportKey(k) := Records(Listed(g, k))]
  }

  /** The report the callback builds for group `g`. */
  function Shape(handle: SizeHandler, g: Group): PlacementReport
  {
    PlacementReport(g.placementCode, SizesOver(handle, g, EventKeys), EventsOver(g, EventKeys))
  }

  /** The callback itself: for every type key, start an empty list, then walk
    * the group's list of that type (if defined), gathering sizes and records. */
  method ShapeGroup(handle: SizeHandler, g: Group) returns (r: PlacementReport)
    ensures r == Shape(handle, g)
  {
    var sizes: seq<Size> := [];
    var events: map<string, seq<EventRecord>> := map[];
    var n := 0;
    while n < |EventKeys|
      invariant 0 <= n <= |EventKeys|
      invariant sizes == SizesOver(handle, g, EventKeys[..n])
      invariant events == EventsOver(g, EventKeys[..n])
    {
      var key := EventKeys[n];
      assert EventKeys[..n + 1][..n] == EventKeys[..n];
      var records: seq<EventRecord> := [];
      if key in g.byType {
        sizes, records := WalkList(handle, sizes, g.byType[key]);
      }
      events := events[ReportKey(key) := records];
      n := n + 1;
    }
    assert EventKeys[..n] == EventKeys;
    r := PlacementReport(g.placementCode, sizes, events);
  }

  /** One type's list walked by `forEach`: each entry with a size field is
    * offered to the handler, and each entry's record is appended. */
  method WalkList(handle: SizeHandler, sizes0: seq<Size>, list: seq<TypedEvent>)
    returns (sizes: seq<Size>, records: seq<EventRecord>)
    ensures sizes == AddSizes(handle, sizes0, list)
    ensures records == Records(list)
  {
    sizes, records := sizes0, [];
    var i := 0;
    while i < |list|
      invariant 0 <= i <= |list|
      invariant sizes == AddSizes(handle, sizes0, list[..i])
      invariant records == Records(list[..i])
    {
      var typedEvent := list[i];
      assert list[..i + 1][..i] == list[..i];
      match SizeOf(typedEvent.event) {
        case Some(z) =>
          var size := handle(sizes, z);
          if size.Some? {
            sizes := sizes + [size.value];
          }
        case None =>
      }
      records := records + [typedEvent.event];
      i := i + 1;
    }
    assert list[..i] == list;
  }

  /** `groupedTypedEvents.map(callback)`. */
  method ShapeGroups(handle: SizeHandler, groups: seq<Group>) returns (reports: seq<PlacementReport>)
    ensures |reports| == |groups|
    ensures forall j :: 0 <= j < |groups| ==> reports[j] == Shape(handle, groups[j])
  {
    reports := [];
    var j := 0;
    while j < |groups|
      invariant 0 <= j <= |groups| && |reports| == j
      invariant forall i :: 0 <= i < j ==> reports[i] == Shape(handle, groups[i])
    {
      var report := ShapeGroup(handle, groups[j]);
      reports := reports + [report];
      j := j + 1;
    }
  }

  /** Group shape: the events object has exactly the keys `requests`,
    * `responses` and `winners`, each holding the records of that type in
    * group order, and an empty list where the group has no such type. */
  lemma ShapeEvents(handle: SizeHandler, g: Group)
    ensures var ev := Shape(handle, g).events;
      ev.Keys == {"requests", "responses", "winners"} &&
      ev["requests"] == Records(Listed(g, Request)) &&
      ev["responses"] == Records(Listed(g, Response)) &&
      ev["winners"] == Records(Listed(g, Winner))
  {
    assert ReportKey(Request) == "requests";
    assert ReportKey(Response) == "responses";
    assert ReportKey(Winner) == "winners";
    assert EventKeys[..2] == [Request, Response];
    assert [Request, Response][..1] == [Request];
    assert [Request][..0] == [];
    var e1 := EventsOver(g, [Request]);
    assert e1 == map[]["requests" := Records(Listed(g, Request))];
    var e2 := EventsOver(g, [Request, Response]);
    assert e2 == e1["responses" := Records(Listed(g, Response))];
    assert EventsOver(g, EventKeys) == e2["winners" := Records(Listed(g, Winner))];
  }

  /** The sizes gathered for a group: the handler sees the request entries,
    * then the response entries, then the winner entries. */
  lemma ShapeSizes(handle: SizeHandler, g: Group)
    ensures Shape(handle, g).sizes ==
      AddSizes(handle, AddSizes(handle, AddSizes(handle, [], Listed(g, Request)),
                                Listed(g, Response)), Listed(g, Winner))
  {
    assert EventKeys[..2] == [Request, Response];
    assert [Request, Response][..1] == [Request];
    assert [Request][..0] == [];
    assert SizesOver(handle, g, [Request]) == AddSizes(handle, [], Listed(g, Request));
  }

  /** How many of the entries carry a size field. */
  function SizedCount(ts: seq<TypedEvent>): nat
    decreases |ts|
  {
    if ts == [] then 0
    else SizedCount(ts[..|ts| - 1]) + (if SizeOf(ts[|ts| - 1].event).Some? then 1 else 0)
  }

  /** Sizes only grow: what was gathered stays in front, and each entry with a
    * size field adds at most one size, whatever the handler does. */
  lemma {:induction false} AddSizesGrows(handle: SizeHandler, sizes: seq<Size>, ts: seq<TypedEvent>)
    ensures var r := AddSizes(handle, sizes, ts);
      sizes <= r && |r| <= |sizes| + SizedCount(ts)
    decreases |ts|
  {
    if ts != [] {
      AddSizesGrows(handle, sizes, ts[..|ts| - 1]);
    }
  }

  /** Entries without a size field contribute nothing. */
  lemma {:induction false} AddSizesUnsized(handle: SizeHandler, sizes: seq<Size>, ts: seq<TypedEvent>)
    requires forall i :: 0 <= i < |ts| ==> SizeOf(ts[i].event) == None
    ensures AddSizes(handle, sizes, ts) == sizes
    decreases |ts|
  {
    if ts != [] {
      AddSizesUnsized(handle, sizes, ts[..|ts| - 1]);
    }
  }

  /** Request entries never contribute sizes: when none carries a size field
    * and there are no winners, the sizes are those of the responses. */
  lemma ResponsesGiveSizes(handle: SizeHandler, g: Group)
    requires forall i :: 0 <= i < |Listed(g, Request)| ==> SizeOf(Listed(g, Request)[i].event) == None
    requires Listed(g, Winner) == []
    ensures Shape(handle, g).sizes == AddSizes(handle, [], Listed(g, Response))
  {
    ShapeSizes(handle, g);
    AddSizesUnsized(handle, [], Listed(g, Request));
  }

  /** For a group grouped from a bucket the adapter built, the winners list is
    * empty and only response entries contribute sizes. */
  lemma ShapeOfGrouped(handle: SizeHandler, b: seq<TypedEvent>, j: nat)
    requires WellFormed(b)
    requires j < |Grouped(b)|
    ensures var g := Grouped(b)[j]; var p := Shape(handle, g);
      p.placementCode == g.placementCode &&
      "winners" in p.events && p.events["winners"] == [] &&
      p.sizes == AddSizes(handle, [], Listed(g, Response))
  {
    var g := Grouped(b)[j];
    NoWinnerGroups(b, j);
    ShapeEvents(handle, g);
    GroupedMembers(b, j, Request);
    forall i | 0 <= i < |Listed(g, Request)|
      ensures SizeOf(Listed(g, Request)[i].event) == None
    {
      var t := Listed(g, Request)[i];
      assert t in Listed(g, Request);
      var at :| 0 <= at < |b| && b[at] == t;
      assert WellKinded(b[at]);
    }
    ResponsesGiveSizes(handle, g);
  }

  // ---------------------------------------------------------------------
  // A size handler that deduplicates by value. This is an assumption: the
  // module never defines `handleSize`.

  /** Keep a candidate only when no equal size was gathered before. This is
    * an assumed handler, not the source's. */
  function DedupSize(sizes: seq<Size>, candidate: Size): Option<Size>
  {
    if candidate in sizes then None else Some(candidate)
  }

  predicate NoDuplicates(s: seq<Size>)
  {
    forall i, j :: 0 <= i < j < |s| ==> s[i] != s[j]
  }

  /** The sizes the entries carry. */
  function SizesIn(ts: seq<TypedEvent>): set<Size>
    decreases |ts|
  {
    if ts == [] then {}
    else
      SizesIn(ts[..|ts| - 1]) +
      match SizeOf(ts[|ts| - 1].event)
      case None => {}
      case Some(z) => {z}
  }

  /** The position of the first entry of `ts` carrying size `z`, or -1. */
  function FirstSized(ts: seq<TypedEvent>, z: Size): (i: int)
    ensures -1 <= i < |ts|
    ensures 0 <= i ==> SizeOf(ts[i].event) == Some(z)
    ensures 0 <= i <==> z in SizesIn(ts)
    decreases |ts|
  {
    if ts == [] then -1
    else
      var p := FirstSized(ts[..|ts| - 1], z);
      if 0 <= p then p
      else if SizeOf(ts[|ts| - 1].event) == Some(z) then |ts| - 1
      else -1
  }

  /** The sizes a list holds, as a set. */
  function Members(s: seq<Size>): set<Size>
  {
    set z | z in s
  }

  /** From index `from` on, the sizes in `r` come in the order their first
    * carriers appear in `ts`. */
  predicate CarrierOrdered(ts: seq<TypedEvent>, r: seq<Size>, from: nat)
  {
    forall i, j :: from <= i < j < |r| ==> 0 <= FirstSized(ts, r[i]) < FirstSized(ts, r[j])
  }

  /** Sizes gathered after a duplicate-free prefix are not in that prefix. */
  lemma FreshAfter(sizes: seq<Size>, r: seq<Size>, i: nat)
    requires sizes <= r && NoDuplicates(r) && |sizes| <= i < |r|
    ensures r[i] !in sizes
  {
  }

  /** With the deduplicating handler every size is gathered once, and every
    * size carried by an entry is gathered. */
  lemma {:induction false} DedupKeeps(sizes: seq<Size>, ts: seq<TypedEvent>)
    requires NoDuplicates(sizes)
    ensures var r := AddSizes(DedupSize, sizes, ts);
      sizes <= r && NoDuplicates(r) &&
      Members(r) == Members(sizes) + SizesIn(ts)
    decreases |ts|
  {
    if ts != [] {
      var prefix, t := ts[..|ts| - 1], ts[|ts| - 1];
      DedupKeeps(sizes, prefix);
      var r' := AddSizes(DedupSize, sizes, prefix);
      match SizeOf(t.event)
      case None =>
      case Some(z) =>
        if z !in r' {
          assert Members(r' + [z]) == Members(r') + {z};
        }
    }
  }

  /** With the deduplicating handler the sizes gathered from `ts` come in the
    * order their first carriers appear. */
  lemma {:induction false} DedupOrder(sizes: seq<Size>, ts: seq<TypedEvent>)
    requires NoDuplicates(sizes)
    ensures var r := AddSizes(DedupSize, sizes, ts);
      CarrierOrdered(ts, r, |sizes|)
    decreases |ts|
  {
    if ts != [] {
      var prefix, t := ts[..|ts| - 1], ts[|ts| - 1];
      DedupOrder(sizes, prefix);
      DedupKeeps(sizes, prefix);
      var r' := AddSizes(DedupSize, sizes, prefix);
      // Sizes gathered from `prefix` keep their first carrier in `ts`.
      forall i | |sizes| <= i < |r'|
        ensures 0 <= FirstSized(prefix, r'[i]) && FirstSized(ts, r'[i]) == FirstSized(prefix, r'[i])
      {
        var x := r'[i];
        FreshAfter(sizes, r', i);
        assert x in Members(r') && x !in Members(sizes);
      }
      match SizeOf(t.event)
      case None =>
      case Some(z) =>
        if z !in r' {
          var r := r' + [z];
          assert z !in SizesIn(prefix) by {
            assert z !in Members(r');
          }
          assert FirstSized(ts, z) == |prefix|;
          forall i, j | |sizes| <= i < j < |r|
            ensures 0 <= FirstSized(ts, r[i]) < FirstSized(ts, r[j])
          {
            if j == |r'| {
              assert r[i] == r'[i];
            } else {
              assert r[i] == r'[i] && r[j] == r'[j];
            }
          }
        }
    }
  }

  /** The deduplicating handler: every size is gathered once, every size
    * carried by an entry is gathered, and the sizes gathered from `ts` come
    * in the order their first carriers appear. */
  lemma DedupSizes(sizes: seq<Size>, ts: seq<TypedEvent>)
    requires NoDuplicates(sizes)
    ensures var r := AddSizes(DedupSize, sizes, ts);
      sizes <= r && NoDuplicates(r) &&
      Members(r) == Members(sizes) + SizesIn(ts) &&
      CarrierOrdered(ts, r, |sizes|)
  {
    DedupKeeps(sizes, ts);
    DedupOrder(sizes, ts);
  }
}
