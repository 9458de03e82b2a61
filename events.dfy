/**
 * The records the STAQ analytics adapter keeps in its event bucket, and the
 * function that turns a raw bid-response event into such a record
 * (modules/staqAnalyticsAdapter.js, `buildResponse`).
 */
module Events {
  import opened Wrappers

  /** The number a JavaScript coercion yields from a raw value. The coercion
    * itself (floating point) is not modelled; the value is carried as the
    * text it is computed from. */
  datatype Num = ParseFloat(text: string) | ToNumber(text: string)

  /** An ad size as reported by a bid response. */
  datatype Size = Size(width: Num, height: Num)

  /** The `type` tag of a bucket entry. */
  datatype Kind = Request | Response | Winner

  /** The tag as the source spells it; the report key is this name plus "s". */
  function KindName(k: Kind): string
  {
    match k
    case Request => "request"
    case Response => "response"
    case Winner => "winner"
  }

  /** The `event` part of a bucket entry. */
  datatype EventRecord =
    | RequestRecord(bidder: string, placementCode: string)
    | ResponseRecord(bidder: string, placementCode: string, id: string, status: string,
                     cpm: Num, size: Size, timeToRespond: int, afterTimeout: bool)

  /** One bucket entry: `{type, event}`. */
  datatype TypedEvent = TypedEvent(kind: Kind, event: EventRecord)

  function PlacementOf(t: TypedEvent): string
  {
    t.event.placementCode
  }

  /** `typedEvent.event.size`, `None` where the record has no size field. */
  function SizeOf(r: EventRecord): Option<Size>
  {
    if r.ResponseRecord? then Some(r.size) else None
  }

  /** The only entries the adapter ever pushes: requests tagged `request`,
    * responses tagged `response`; nothing is ever tagged `winner`. */
  predicate WellKinded(t: TypedEvent)
  {
    (t.kind == Request && t.event.RequestRecord?) ||
    (t.kind == Response && t.event.ResponseRecord?)
  }

  predicate WellFormed(b: seq<TypedEvent>)
  {
    forall i :: 0 <= i < |b| ==> WellKinded(b[i])
  }

  /** The arguments of a BID_RESPONSE event that `buildResponse` reads. */
  datatype BidArgs = BidArgs(bidderCode: string, adUnitCode: string, adId: string,
                             statusMessage: string, cpm: string, width: string,
                             height: string, timeToRespond: int)

  predicate IsLowerAscii(c: char)
  {
    'a' <= c <= 'z'
  }

  function UpperChar(c: char): char
  {
    if IsLowerAscii(c) then (c as int - 32) as char else c
  }

  /** `String.prototype.toUpperCase`, on the ASCII letters. */
  function ToUpper(s: string): string
  {
    if s == [] then [] else [UpperChar(s[0])] + ToUpper(s[1..])
  }

  /** Upper-casing keeps the length, maps every character on its own, and
    * leaves no lower-case letter behind. */
  lemma {:induction false} ToUpperPointwise(s: string)
    ensures |ToUpper(s)| == |s|
    ensures forall i :: 0 <= i < |s| ==> ToUpper(s)[i] == UpperChar(s[i])
    ensures forall i :: 0 <= i < |s| ==> !IsLowerAscii(ToUpper(s)[i])
  {
    if s != [] {
      ToUpperPointwise(s[1..]);
    }
  }

  const BidAvailable: string := "Bid available"
  const Valid: string := "VALID"
  const EmptyOrError: string := "EMPTY_OR_ERROR"

  /** `buildResponse(bidArgs)` with `timedOut` the adapter's current
    * `auction.timedOut` flag. */
  function BuildResponse(args: BidArgs, timedOut: bool): (r: EventRecord)
    ensures r.ResponseRecord?
    ensures r.status == Valid <==> args.statusMessage == BidAvailable
    ensures r.status == Valid || r.status == EmptyOrError
    ensures r.bidder == ToUpper(args.bidderCode)
    ensures r.placementCode == args.adUnitCode && r.id == args.adId
    ensures r.cpm == ParseFloat(args.cpm) && r.timeToRespond == args.timeToRespond
    ensures r.size == Size(ToNumber(args.width), ToNumber(args.height))
    ensures r.afterTimeout == timedOut
  {
    ResponseRecord(
      bidder := ToUpper(args.bidderCode),
      placementCode := args.adUnitCode,
      id := args.adId,
      status := if args.statusMessage == BidAvailable then Valid else EmptyOrError,
      cpm := ParseFloat(args.cpm),
      size := Size(ToNumber(args.width), ToNumber(args.height)),
      timeToRespond := args.timeToRespond,
      afterTimeout := timedOut)
  }
}
