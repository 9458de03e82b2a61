/**
 * What the adapter sends: the report objects it serialises, and the beacon
 * URLs that carry them (`sendTypedEvent`, `sendWonEvent`).
 */
module Beacons {
  import opened Shaping
  import opened Chunking

  /** The objects handed to `JSON.stringify`: `bulkEvents` and `wonEvent`. */
  datatype Report =
    | Bulk(uid: string, ahbaid: string, hostname: string,
           eventsByPlacementCode: seq<PlacementReport>)
    | WonEvent(id: string, placementCode: string)

  /** `encodeURIComponent(window.btoa(JSON.stringify(report)))`. The three
    * encoders are not modelled; the adapter is given this composition. */
  type Encoder = Report -> string

  /** One image beacon: its host, its `q` payload and its query fields. */
  datatype Beacon =
    | Part(host: string, q: string, id: string, part: nat, on: nat)
    | Won(host: string, q: string, id: string)

  function DigitChar(d: nat): char
    requires d < 10
  {
    ('0' as int + d) as char
  }

  /** A number as a template literal prints it. */
  function Decimal(n: nat): string
    decreases n
  {
    if n < 10 then [DigitChar(n)] else Decimal(n / 10) + [DigitChar(n % 10)]
  }

  function DigitValue(c: char): nat
  {
    if '0' <= c <= '9' then c as int - '0' as int else 0
  }

  /** Reading a run of decimal digits back. */
  function ParseDecimal(s: string): nat
    decreases |s|
  {
    if s == [] then 0 else ParseDecimal(s[..|s| - 1]) * 10 + DigitValue(s[|s| - 1])
  }

  /** The `part` and `on` fields can be read back from the URL text. */
  lemma {:induction false} DecimalRoundTrip(n: nat)
    ensures Decimal(n) != []
    ensures forall i :: 0 <= i < |Decimal(n)| ==> '0' <= Decimal(n)[i] <= '9'
    ensures ParseDecimal(Decimal(n)) == n
    decreases n
  {
    if n >= 10 {
      DecimalRoundTrip(n / 10);
      var d := Decimal(n);
      assert d[..|d| - 1] == Decimal(n / 10);
    }
  }

  /** The URL given to `img.src`. */
  function Url(b: Beacon): string
  {
    match b
    case Part(host, q, id, part, on) =>
      "https://" + host + "/?q=" + q + "&id=" + id + "&part=" + Decimal(part) + "&on=" + Decimal(on)
    case Won(host, q, id) =>
      "https://" + host + "/?q=" + q + "&id=" + id + "&won=true"
  }

  /** A win beacon's URL names the endpoint, then carries the payload and the
    * auction id, and ends with the `won=true` marker. */
  lemma WonUrlShape(host: string, q: string, id: string)
    ensures var u := Url(Won(host, q, id)); var head := "https://" + host + "/?q=" + q + "&id=" + id;
      head <= u && |u| >= 9 && u[|u| - 9..] == "&won=true"
  {
    var u := Url(Won(host, q, id));
    var head := "https://" + host + "/?q=" + q + "&id=" + id;
    assert u == head + "&won=true";
  }

  /** The beacons of one flush: part `i` carries the i-th piece, and all carry
    * the index of the last piece as `on`. */
  function PartBeacons(host: string, id: string, pieces: seq<string>): seq<Beacon>
  {
    seq(|pieces|, i requires 0 <= i < |pieces| => Part(host, pieces[i], id, i, |pieces| - 1))
  }

  /** The payloads of the beacons, in order. */
  function Payloads(bs: seq<Beacon>): seq<string>
  {
    seq(|bs|, i requires 0 <= i < |bs| => bs[i].q)
  }

  /** Part beacons: for a non-empty payload without line terminators a flush
    * sends ceil(L/1600) beacons numbered 0..n-1 in order, each naming n-1 as
    * its last part and carrying 1..1600 characters, whose payloads joined in
    * order give back the encoded report. */
  lemma PartBeaconsSplit(host: string, id: string, encoded: string)
    requires encoded != [] && NoLineTerminator(encoded)
    ensures var bs := PartBeacons(host, id, MatchChunks(encoded)); var n := |bs|;
      n == (|encoded| + MaxPart - 1) / MaxPart &&
      (forall i :: 0 <= i < n ==>
         bs[i].Part? && bs[i].host == host && bs[i].id == id &&
         bs[i].part == i && bs[i].on == n - 1 && 1 <= |bs[i].q| <= MaxPart) &&
      Concat(Payloads(bs)) == encoded
  {
    var parts := MatchChunks(encoded);
    MatchChunksClean(encoded);
    MatchChunksParts(encoded);
    assert Payloads(PartBeacons(host, id, parts)) == parts;
  }
}
