/**
 * The STAQ analytics adapter: the auction state it keeps, the rule each
 * tracked event applies to that state, the beacons each event sends, and the
 * adapter object whose methods carry those rules out in place.
 */
module StaqAdapter {
  import opened Wrappers
  import opened Events
  import opened Grouping
  import opened Shaping
  import opened Chunking
  import opened Beacons

  /** `staqAdapter.auction` once analytics is enabled with options. */
  datatype Auction = Auction(uid: string, url: string, id: string, timedOut: bool)

  /** `config.options` of `enableAnalytics`. */
  datatype Options = Options(id: string, url: string)

  /** One entry of a BID_REQUESTED event's `bids`. */
  datatype Bid = Bid(bidder: string, placementCode: string)

  /** The events `track` receives, with the arguments it reads. */
  datatype Event =
    | AuctionInit(auctionId: string)
    | BidTimeout
    | BidResponse(args: BidArgs)
    | BidWon(adId: string, adUnitCode: string)
    | BidRequested(bids: seq<Bid>)
    | AuctionEnd
    | Unrecognized(eventType: string)

  /** What the adapter takes from its surroundings: the page's hostname, the
    * encoder chain, and the size handler. */
  datatype Env = Env(hostname: string, encode: Encoder, handleSize: SizeHandler)

  /** The adapter's state: `auction` (`None` before analytics is enabled with
    * options) and `bucketEvents` (`None` before the first AUCTION_INIT). */
  datatype State = State(auction: Option<Auction>, bucket: Option<seq<TypedEvent>>)

  /** Events reach `track` only once analytics is enabled with options, and
    * the events that touch the bucket need one (otherwise the source throws);
    * a BID_REQUESTED with no bids never touches it. */
  predicate CanTrack(s: State, ev: Event)
  {
    s.auction.Some? &&
    (ev.BidResponse? || (ev.BidRequested? && |ev.bids| > 0) || ev.AuctionEnd? ==> s.bucket.Some?)
  }

  /** Enabled and inside an auction: every event can be tracked. */
  predicate Ready(s: State)
  {
    s.auction.Some? && s.bucket.Some?
  }

  /** The bucket entry pushed for one requested bid. */
  function RequestEntry(bid: Bid): TypedEvent
  {
    TypedEvent(Request, RequestRecord(ToUpper(bid.bidder), bid.placementCode))
  }

  function RequestEntries(bids: seq<Bid>): seq<TypedEvent>
  {
    seq(|bids|, i requires 0 <= i < |bids| => RequestEntry(bids[i]))
  }

  /** `bulkEvents`: the account, the auction, the host and one report per group. */
  function BulkReport(env: Env, a: Auction, b: seq<TypedEvent>): Report
  {
    var gs := Grouped(b);
    Bulk(a.uid, a.id, env.hostname,
         seq(|gs|, j requires 0 <= j < |gs| => Shape(env.handleSize, gs[j])))
  }

  /** The beacons of an AUCTION_END flush of bucket `b`. */
  function FlushBeacons(env: Env, a: Auction, b: seq<TypedEvent>): seq<Beacon>
  {
    PartBeacons(a.url, a.id, MatchChunks(env.encode(BulkReport(env, a, b))))
  }

  /** The beacon of a BID_WON event. */
  function WonBeacon(env: Env, a: Auction, adId: string, adUnitCode: string): Beacon
  {
    Won(a.url, env.encode(WonEvent(adId, adUnitCode)), a.id)
  }

  /** The state after `track(ev)`. */
  function Next(s: State, ev: Event): (r: State)
    requires CanTrack(s, ev)
    ensures r.auction.Some?
    ensures Ready(s) ==> Ready(r)
  {
    var a := s.auction.value;
    match ev
    case AuctionInit(auctionId) => State(Some(a.(id := auctionId)), Some([]))
    case BidTimeout => State(Some(a.(timedOut := true)), s.bucket)
    case BidResponse(args) =>
      State(s.auction, Some(s.bucket.value + [TypedEvent(Response, BuildResponse(args, a.timedOut))]))
    case BidWon(_, _) => s
    case BidRequested(bids) =>
      if bids == [] then s else State(s.auction, Some(s.bucket.value + RequestEntries(bids)))
    case AuctionEnd => s
    case Unrecognized(_) => s
  }

  /** The beacons `track(ev)` sends, in order. */
  function Emitted(env: Env, s: State, ev: Event): seq<Beacon>
    requires CanTrack(s, ev)
  {
    match ev
    case BidWon(adId, adUnitCode) => [WonBeacon(env, s.auction.value, adId, adUnitCode)]
    case AuctionEnd =>
      if |s.bucket.value| > 0 then FlushBeacons(env, s.auction.value, s.bucket.value) else []
    case _ => []
  }

  /** The state after tracking the events `evs` in order. */
  function Run(s: State, evs: seq<Event>): (r: State)
    requires Ready(s)
    ensures Ready(r)
    decreases |evs|
  {
    if evs == [] then s else Run(Next(s, evs[0]), evs[1..])
  }

  // ---------------------------------------------------------------------
  // One event at a time.

  /** AUCTION_INIT empties the bucket and takes the new auction id; the
    * account, the endpoint and the timeout flag stay as they were. */
  lemma AuctionInitKeepsFlag(s: State, auctionId: string)
    requires s.auction.Some?
    ensures var r := Next(s, AuctionInit(auctionId));
      r.bucket == Some([]) && r.auction.value.id == auctionId &&
      r.auction.value.timedOut == s.auction.value.timedOut &&
      r.auction.value.uid == s.auction.value.uid && r.auction.value.url == s.auction.value.url
  {
  }

  /** BID_TIMEOUT sets the flag and changes nothing else. */
  lemma BidTimeoutSetsFlag(env: Env, s: State)
    requires s.auction.Some?
    ensures var r := Next(s, BidTimeout);
      r.auction.value.timedOut && r.auction.value.(timedOut := false) == s.auction.value.(timedOut := false) &&
      r.bucket == s.bucket && Emitted(env, s, BidTimeout) == []
  {
  }

  /** BID_RESPONSE appends one response whose `afterTimeout` is the flag at
    * the moment the event is tracked, and changes nothing else. */
  lemma BidResponseStampsFlag(s: State, args: BidArgs)
    requires Ready(s)
    ensures var r := Next(s, BidResponse(args)); var b := s.bucket.value;
      r.auction == s.auction &&
      |r.bucket.value| == |b| + 1 && r.bucket.value[..|b|] == b &&
      r.bucket.value[|b|].kind == Response &&
      r.bucket.value[|b|].event.afterTimeout == s.auction.value.timedOut &&
      r.bucket.value[|b|].event.placementCode == args.adUnitCode
  {
    assert (s.bucket.value + [TypedEvent(Response, BuildResponse(args, s.auction.value.timedOut))])[..|s.bucket.value|]
      == s.bucket.value;
  }

  /** BID_REQUESTED appends one request entry per bid, in bid order, with the
    * upper-cased bidder and the bid's placement; the earlier entries and the
    * auction stay. */
  lemma BidRequestedAppends(s: State, bids: seq<Bid>)
    requires Ready(s)
    ensures var r := Next(s, BidRequested(bids)); var b := s.bucket.value;
      r.auction == s.auction &&
      |r.bucket.value| == |b| + |bids| && r.bucket.value[..|b|] == b &&
      forall i :: 0 <= i < |bids| ==>
        r.bucket.value[|b| + i] == TypedEvent(Request, RequestRecord(ToUpper(bids[i].bidder), bids[i].placementCode))
  {
    if bids == [] {
      assert s.bucket.value + RequestEntries(bids) == s.bucket.value;
    } else {
      assert (s.bucket.value + RequestEntries(bids))[..|s.bucket.value|] == s.bucket.value;
    }
  }

  /** A BID_REQUESTED with no bids changes nothing, with or without a bucket. */
  lemma BidRequestedNone(env: Env, s: State)
    requires s.auction.Some?
    ensures Next(s, BidRequested([])) == s && Emitted(env, s, BidRequested([])) == []
  {
  }

  /** BID_WON sends exactly one beacon, carrying the auction id and ending in
    * `&won=true`, and changes no state. */
  lemma BidWonSendsOne(env: Env, s: State, adId: string, adUnitCode: string)
    requires s.auction.Some?
    ensures Next(s, BidWon(adId, adUnitCode)) == s
    ensures var out := Emitted(env, s, BidWon(adId, adUnitCode));
      |out| == 1 && out[0].Won? && out[0].id == s.auction.value.id &&
      var u := Url(out[0]); |u| >= 9 && u[|u| - 9..] == "&won=true"
  {
    var a := s.auction.value;
    WonUrlShape(a.url, env.encode(WonEvent(adId, adUnitCode)), a.id);
  }

  /** AUCTION_END never clears the bucket, and sends nothing when the bucket
    * is empty. */
  lemma AuctionEndKeepsBucket(env: Env, s: State)
    requires Ready(s)
    ensures Next(s, AuctionEnd) == s
    ensures s.bucket.value == [] ==> Emitted(env, s, AuctionEnd) == []
  {
  }

  /** An AUCTION_END flush of a non-empty bucket whose encoding is non-empty
    * and free of line terminators sends ceil(L/1600) part beacons to the
    * auction's endpoint, numbered 0..n-1, all naming n-1 as the last part,
    * whose payloads rebuild the encoded report. */
  lemma AuctionEndFlush(env: Env, s: State)
    requires Ready(s) && s.bucket.value != []
    requires var e := env.encode(BulkReport(env, s.auction.value, s.bucket.value));
      e != [] && NoLineTerminator(e)
    ensures var e := env.encode(BulkReport(env, s.auction.value, s.bucket.value));
      var out := Emitted(env, s, AuctionEnd); var n := |out|;
      n == (|e| + MaxPart - 1) / MaxPart &&
      (forall i :: 0 <= i < n ==>
         out[i].Part? && out[i].host == s.auction.value.url && out[i].id == s.auction.value.id &&
         out[i].part == i && out[i].on == n - 1) &&
      Concat(Payloads(out)) == e
  {
    var a := s.auction.value;
    PartBeaconsSplit(a.url, a.id, env.encode(BulkReport(env, a, s.bucket.value)));
  }

  /** The report of a flush: one entry per distinct placement of the bucket,
    * in first-seen order, each with an empty `winners` list when the bucket
    * is one the adapter built. */
  lemma BulkReportShape(env: Env, a: Auction, b: seq<TypedEvent>)
    requires WellFormed(b)
    ensures var r := BulkReport(env, a, b); var ps := r.eventsByPlacementCode;
      r.uid == a.uid && r.ahbaid == a.id && r.hostname == env.hostname &&
      |ps| == |Grouped(b)| &&
      (forall j1, j2 :: 0 <= j1 < j2 < |ps| ==>
         FirstAt(b, ps[j1].placementCode) < FirstAt(b, ps[j2].placementCode)) &&
      (forall i :: 0 <= i < |b| ==> exists j :: 0 <= j < |ps| && ps[j].placementCode == PlacementOf(b[i])) &&
      (forall j :: 0 <= j < |ps| ==> "winners" in ps[j].events && ps[j].events["winners"] == [])
  {
    var gs := Grouped(b);
    var ps := BulkReport(env, a, b).eventsByPlacementCode;
    GroupedOrder(b);
    forall j | 0 <= j < |ps|
      ensures ps[j].placementCode == gs[j].placementCode
      ensures "winners" in ps[j].events && ps[j].events["winners"] == []
    {
      ShapeOfGrouped(env.handleSize, b, j);
    }
    forall i | 0 <= i < |b|
      ensures exists j :: 0 <= j < |ps| && ps[j].placementCode == PlacementOf(b[i])
    {
      var j := IndexOf(gs, PlacementOf(b[i]));
      assert ps[j].placementCode == PlacementOf(b[i]);
    }
  }

  // ---------------------------------------------------------------------
  // Whole runs of events.

  /** Timeout flag: once set, no tracked event clears it (only enabling
    * analytics again does). */
  lemma {:induction false} TimeoutSticky(s: State, evs: seq<Event>)
    requires Ready(s) && s.auction.value.timedOut
    ensures Run(s, evs).auction.value.timedOut
    decreases |evs|
  {
    if evs != [] {
      TimeoutSticky(Next(s, evs[0]), evs[1..]);
    }
  }

  /** The account id and endpoint set when analytics was enabled never change. */
  lemma {:induction false} AccountFixed(s: State, evs: seq<Event>)
    requires Ready(s)
    ensures Run(s, evs).auction.value.uid == s.auction.value.uid
    ensures Run(s, evs).auction.value.url == s.auction.value.url
    decreases |evs|
  {
    if evs != [] {
      AccountFixed(Next(s, evs[0]), evs[1..]);
    }
  }

  /** Until the next AUCTION_INIT the bucket only grows at its end. */
  lemma {:induction false} BucketAppendOnly(s: State, evs: seq<Event>)
    requires Ready(s)
    requires forall i :: 0 <= i < |evs| ==> !evs[i].AuctionInit?
    ensures s.bucket.value <= Run(s, evs).bucket.value
    decreases |evs|
  {
    if evs != [] {
      var s' := Next(s, evs[0]);
      assert s.bucket.value <= s'.bucket.value;
      BucketAppendOnly(s', evs[1..]);
    }
  }

  /** The bucket only ever holds requests tagged `request` and responses
    * tagged `response`; no `winner` entry is ever pushed. */
  lemma {:induction false} BucketWellFormed(s: State, evs: seq<Event>)
    requires Ready(s) && WellFormed(s.bucket.value)
    ensures WellFormed(Run(s, evs).bucket.value)
    decreases |evs|
  {
    if evs != [] {
      var s' := Next(s, evs[0]);
      assert WellFormed(s'.bucket.value) by {
        var b, b' := s.bucket.value, s'.bucket.value;
        forall i | 0 <= i < |b'|
          ensures WellKinded(b'[i])
        {
          if i >= |b| {
            match evs[0]
            case BidResponse(args) =>
            case BidRequested(bids) => assert b'[i] == RequestEntry(bids[i - |b|]);
            case _ =>
          }
        }
      }
      BucketWellFormed(s', evs[1..]);
    }
  }

  // ---------------------------------------------------------------------
  // The adapter object.

  class Adapter {
    const env: Env
    var auction: Option<Auction>
    var bucketEvents: Option<seq<TypedEvent>>
    /** The beacons handed to `new Image(1, 1)`, oldest first. */
    ghost var sent: seq<Beacon>

    function Snapshot(): State
      reads this
    {
      State(auction, bucketEvents)
    }

    ghost predicate Valid()
      reads this
    {
      bucketEvents.Some? ==> WellFormed(bucketEvents.value)
    }

    /** The adapter as loaded: analytics not enabled, no bucket, nothing sent. */
    constructor (env: Env)
      ensures this.env == env && Valid()
      ensures auction == None && bucketEvents == None && sent == []
    {
      this.env := env;
      auction := None;
      bucketEvents := None;
      sent := [];
    }

    /** `enableAnalytics(config)`: the auction record is reset, and set up
      * with a cleared timeout flag only when options are given. */
    method EnableAnalytics(options: Option<Options>)
      requires Valid()
      modifies this
      ensures Valid()
      ensures auction == match options
        case Some(o) => Some(Auction(o.id, o.url, "", false))
        case None => None
      ensures bucketEvents == old(bucketEvents) && sent == old(sent)
    {
      auction := None;
      if options.Some? {
        auction := Some(Auction(options.value.id, options.value.url, "", false));
      }
    }

    /** `initAuction()`: a fresh, empty bucket. */
    method InitAuction()
      modifies this
      ensures Valid()
      ensures bucketEvents == Some([])
      ensures auction == old(auction) && sent == old(sent)
    {
      bucketEvents := Some([]);
    }

    /** `buildTypedEvents()`: groups the bucket without changing it. */
    method BuildTypedEvents() returns (groupedTypedEvents: seq<Group>)
      requires bucketEvents.Some?
      ensures groupedTypedEvents == Grouped(bucketEvents.value)
    {
      var b := bucketEvents.value;
      groupedTypedEvents := [];
      var i := 0;
      while i < |b|
        invariant 0 <= i <= |b|
        invariant groupedTypedEvents == Grouped(b[..i])
      {
        var typedEvent := b[i];
        var placementCode, kind := PlacementOf(typedEvent), typedEvent.kind;
        assert b[..i + 1][..i] == b[..i];
        var existTypedEvent := FindIndex(groupedTypedEvents, placementCode);
        if existTypedEvent == -1 {
          groupedTypedEvents := groupedTypedEvents + [Group(placementCode, map[kind := [typedEvent]])];
          existTypedEvent := |groupedTypedEvents| - 1;
        }
        var g := groupedTypedEvents[existTypedEvent];
        if kind in g.byType {
          groupedTypedEvents := groupedTypedEvents[existTypedEvent :=
            g.(byType := g.byType[kind := g.byType[kind] + [typedEvent]])];
        } else {
          groupedTypedEvents := groupedTypedEvents[existTypedEvent := g.(byType := g.byType[kind := [typedEvent]])];
        }
        i := i + 1;
      }
      assert b[..i] == b;
    }

    /** `sendWonEvent(wonEvent)`: one beacon, nothing else changes. */
    method SendWonEvent(adId: string, adUnitCode: string)
      requires auction.Some?
      modifies this`sent
      ensures sent == old(sent) + [WonBeacon(env, auction.value, adId, adUnitCode)]
    {
      var encodedUri := env.encode(WonEvent(adId, adUnitCode));
      sent := sent + [Won(auction.value.url, encodedUri, auction.value.id)];
    }

    /** `sendTypedEvent()`: group, shape, encode, split and send the parts in
      * order. Where `match` finds nothing it gives `null`, and `forEach` on
      * it throws before anything is sent: no part is sent either way. */
    method SendTypedEvent()
      requires auction.Some? && bucketEvents.Some?
      modifies this`sent
      ensures sent == old(sent) + FlushBeacons(env, auction.value, bucketEvents.value)
    {
      var groupedTypedEvents := BuildTypedEvents();
      var eventsByPlacementCode := ShapeGroups(env.handleSize, groupedTypedEvents);
      var bulkEvents := Bulk(auction.value.uid, auction.value.id, env.hostname, eventsByPlacementCode);
      assert bulkEvents == BulkReport(env, auction.value, bucketEvents.value);
      var encodedUri := env.encode(bulkEvents);
      var splittedUrl := MatchChunks(encodedUri);
      ghost var beacons := PartBeacons(auction.value.url, auction.value.id, splittedUrl);
      var i := 0;
      while i < |splittedUrl|
        invariant 0 <= i <= |splittedUrl|
        invariant sent == old(sent) + beacons[..i]
      {
        sent := sent + [Part(auction.value.url, splittedUrl[i], auction.value.id, i, |splittedUrl| - 1)];
        assert beacons[..i + 1] == beacons[..i] + [beacons[i]];
        i := i + 1;
      }
      assert beacons[..i] == beacons;
    }

    /** `track({eventType, args})`: the state moves by `Next`, and the beacons
      * of `Emitted` are sent. */
    method Track(ev: Event)
      requires Valid() && CanTrack(Snapshot(), ev)
      modifies this
      ensures Valid()
      ensures Snapshot() == Next(old(Snapshot()), ev)
      ensures sent == old(sent) + Emitted(env, old(Snapshot()), ev)
    {
      match ev {
        case AuctionInit(auctionId) =>
          InitAuction();
          auction := Some(auction.value.(id := auctionId));
        case BidTimeout =>
          auction := Some(auction.value.(timedOut := true));
        case BidResponse(args) =>
          bucketEvents := Some(bucketEvents.value +
            [TypedEvent(Response, BuildResponse(args, auction.value.timedOut))]);
        case BidWon(adId, adUnitCode) =>
          SendWonEvent(adId, adUnitCode);
        case BidRequested(bids) =>
          var i := 0;
          while i < |bids|
            invariant 0 <= i <= |bids|
            invariant auction == old(auction) && sent == old(sent)
            invariant bucketEvents.Some? <==> old(bucketEvents).Some?
            invariant bucketEvents.Some? ==>
              bucketEvents.value == old(bucketEvents).value + RequestEntries(bids[..i])
            invariant Valid()
          {
            bucketEvents := Some(bucketEvents.value +
              [TypedEvent(Request, RequestRecord(ToUpper(bids[i].bidder), bids[i].placementCode))]);
            assert RequestEntries(bids[..i + 1]) == RequestEntries(bids[..i]) + [RequestEntry(bids[i])];
            i := i + 1;
          }
          assert bids[..i] == bids;
          if bucketEvents.Some? && bids == [] {
            assert bucketEvents.value == old(bucketEvents).value + [];
          }
        case AuctionEnd =>
          if |bucketEvents.value| > 0 {
            SendTypedEvent();
          }
        case Unrecognized(_) =>
      }
    }
  }
}
