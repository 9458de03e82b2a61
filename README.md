# STAQ analytics adapter — a Dafny model

This project models the Prebid analytics adapter in
`modules/staqAnalyticsAdapter.js`:

- **State machine.** `track` updates the adapter's auction record and its
  event bucket. AUCTION_INIT, BID_TIMEOUT, BID_RESPONSE, BID_REQUESTED,
  BID_WON and AUCTION_END are handled; every other event is ignored.
- **Bid responses.** `buildResponse` turns a bid response into the record
  that is buffered.
- **Grouping.** `buildTypedEvents` groups the bucket by placement code.
- **Flush.** `sendTypedEvent` runs at AUCTION_END. It shapes each group into
  a placement report and encodes the bulk report. It splits the encoding with
  `/.{1,1600}/g` and sends one part beacon per piece.
- **Win beacon.** `sendWonEvent` sends the single BID_WON beacon.
- **Enabling.** `enableAnalytics` and `initAuction` set up the auction record
  and the bucket.

Modules, one file each:

| module | file | contents |
|---|---|---|
| `Wrappers` | `wrappers.dfy` | `Option` |
| `Events` | `events.dfy` | the records the bucket holds, `ToUpper` and `BuildResponse` |
| `Grouping` | `grouping.dfy` | `findIndex`; `Grouped`, the left fold the grouping loop performs; what that fold yields: groups in first-seen order, and each group's per-type lists |
| `Shaping` | `shaping.dfy` | a group as a placement report: exact key set, per-type records, sizes through the size handler |
| `Chunking` | `chunking.dfy` | the regular-expression split and its relation to plain 1600-character slicing |
| `Beacons` | `beacons.dfy` | the reports that are encoded, the beacons sent and the URLs they carry |
| `StaqAdapter` | `adapter.dfy` | the state machine as functions (`Next`, `Emitted`, `Run`) and lemmas about it; the adapter object (`class Adapter`), whose methods are proved to follow those functions |

The page's `new Image(1, 1)` requests are recorded in the ghost log
`Adapter.sent`. Each beacon is held as a `Beacon` value, and `Url` renders its
text.

### Names the source leaves undefined

The module refers to several names it never defines, so as written the flush
path would throw. The model uses the evidently intended definitions:

| line | as written | modelled as |
|---|---|---|
| 46 | `staqAdapter.setTypedEvent()` | `sendTypedEvent` (`Adapter.SendTypedEvent`) |
| 103 | `adomik.buildTypedEvents()` | `staqAdapter.buildTypedEvents` (`Adapter.BuildTypedEvents`) |
| 106-107, 148, 150 | `staqAdapter.currentContext`, `adomikAdapter.currentContext` | `staqAdapter.auction` |
| 169, 176 | `groupTypedEvents` | `groupedTypedEvents` |
| 119 | `staqAdapter.sizeUtils.handleSize` (never assigned) | the parameter `Env.handleSize` |

### Behaviour worth noting

- **The bucket at AUCTION_END.** AUCTION_END never clears the bucket (lines
  44-48), so a second AUCTION_END with no AUCTION_INIT in between sends the
  same data again. This is `StaqAdapter.AuctionEndKeepsBucket`.
- **The timeout flag at AUCTION_INIT.** AUCTION_INIT replaces only the
  bucket and the auction id (lines 14-17 and 54-56). The timeout flag
  therefore survives into the next auction and is reset only by
  `enableAnalytics`. This is `StaqAdapter.AuctionInitKeepsFlag` and
  `StaqAdapter.TimeoutSticky`.
- **The first entry of a new group.** Lines 161-170 create a new group with
  `[type]: [typedEvent]` and then fall through to the append, so the entry
  that creates a group appears twice in its list. This is
  `Grouping.CreatorStoredTwice`.
- **Width and height.** They are `Number(...)` values (lines 66-67), not
  integers, and the model keeps them as `Num.ToNumber`.
- **Which entries reach the size handler.** The handler runs on every entry
  that has a `size` field, in the key order request, response, winner.
  Request entries never carry one (lines 37-40), and winner entries are never
  pushed, so only responses contribute. This is `Shaping.ShapeOfGrouped`.

## Model

| member | source | states |
|---|---|---|
| Events.ToUpperPointwise | modules/staqAnalyticsAdapter.js:60 | upper-casing keeps the length, maps each character on its own, and leaves no lower-case ASCII letter |
| Events.BuildResponse | modules/staqAnalyticsAdapter.js:58-72 | status is `VALID` exactly when the status message is `Bid available`, and `EMPTY_OR_ERROR` otherwise; the bidder is upper-cased; placement and ad id are copied; cpm is `parseFloat(cpm)`; `timeToRespond` is copied; the size is `Number(width)` by `Number(height)`; `afterTimeout` is the auction's timeout flag |
| Grouping.IndexOf | modules/staqAnalyticsAdapter.js:159 | the result is the first index of a group with the code, or -1 exactly when no group has it |
| Grouping.FindIndex | modules/staqAnalyticsAdapter.js:159 | the search loop returns the first matching index, or -1 |
| Grouping.AddEventEffect | modules/staqAnalyticsAdapter.js:158-173 | an entry with a new code adds one group at the end, holding the entry twice under its type; any other entry appends itself to the matching group's list for its type, and no other group changes |
| Grouping.CreatorStoredTwice | modules/staqAnalyticsAdapter.js:161-170 | a new group's list for the creating type is `[t, t]`, and the group has no other type |
| Grouping.FirstAtIsFirst | modules/staqAnalyticsAdapter.js:157-159 | no bucket entry before the first occurrence of a code has that code |
| Grouping.GroupedCodes | modules/staqAnalyticsAdapter.js:154-177 | the groups' codes are the bucket's distinct placement codes, in first-seen order |
| Grouping.GroupedOrder | modules/staqAnalyticsAdapter.js:154-177 | groups are ordered by the first occurrence of their code, and every bucket entry's placement has a group |
| Grouping.GroupedContents | modules/staqAnalyticsAdapter.js:157-173 | each group's list for a type is every bucket entry of that code and type in bucket order, plus the creating entry once more when it has that type; the type key exists exactly when such an entry exists |
| Grouping.GroupedMembers | modules/staqAnalyticsAdapter.js:157-173 | every entry a group lists for a type is a bucket entry with that type and the group's code |
| Grouping.NoWinnerGroups | modules/staqAnalyticsAdapter.js:21-42 | for a bucket holding only requests and responses, no group has a winner entry |
| Shaping.ShapeGroup | modules/staqAnalyticsAdapter.js:109-134 | shaping one group by the nested loops gives `Shape` of that group |
| Shaping.WalkList | modules/staqAnalyticsAdapter.js:117-125 | walking one type's list offers each sized entry to the handler with the sizes kept so far, and collects every entry's record in order: the result is `AddSizes` and `Records` of the list |
| Shaping.ShapeGroups | modules/staqAnalyticsAdapter.js:109 | one report per group, in group order, each `Shape` of its group |
| Shaping.ShapeEvents | modules/staqAnalyticsAdapter.js:111-127 | the events object has exactly the keys `requests`, `responses` and `winners`; each holds that type's records in group order, and is empty where the group lacks the type |
| Shaping.ShapeSizes | modules/staqAnalyticsAdapter.js:114-123 | the size handler sees the request, then the response, then the winner entries, each time with the sizes kept so far |
| Shaping.AddSizesGrows | modules/staqAnalyticsAdapter.js:117-123 | kept sizes stay in front; each entry with a size adds at most one size, whatever the handler returns |
| Shaping.AddSizesUnsized | modules/staqAnalyticsAdapter.js:118 | entries without a size field add no size |
| Shaping.ResponsesGiveSizes | modules/staqAnalyticsAdapter.js:114-123 | with unsized requests and no winners, the sizes are the response sizes as the handler keeps them |
| Shaping.ShapeOfGrouped | modules/staqAnalyticsAdapter.js:109-134 | for a group built from the adapter's bucket, `winners` is empty and sizes come only from responses |
| Shaping.DedupSizes | modules/staqAnalyticsAdapter.js:119-122 | with a handler that drops sizes already kept: earlier sizes stay in front; sizes are kept once each; every carried size is kept; the sizes added come in the order of their first carrying entry |
| Chunking.MatchChunksParts | modules/staqAnalyticsAdapter.js:145 | every match has 1 to 1600 characters and no line terminator |
| Chunking.MatchChunksConcat | modules/staqAnalyticsAdapter.js:145 | the matches, joined, give the string without its line terminators |
| Chunking.MatchChunksEmpty | modules/staqAnalyticsAdapter.js:145-147 | there is no match exactly when the string has no character other than line terminators; `match` then gives `null` and no part is sent |
| Chunking.MatchChunksClean | modules/staqAnalyticsAdapter.js:143-145 | for a non-empty string without line terminators, there are ceil(L/1600) matches; match i is the slice at 1600*i; all are 1600 long but the last, which is 1..1600; joined they give the string |
| Chunking.ChunkExample | modules/staqAnalyticsAdapter.js:143-145 | 3199 characters split into 1600 and 1599 |
| Beacons.DecimalRoundTrip | modules/staqAnalyticsAdapter.js:148 | the decimal text of a part number is non-empty, all digits, and reads back as that number |
| Beacons.WonUrlShape | modules/staqAnalyticsAdapter.js:81 | a won beacon's URL starts with `https://host/?q=payload&id=auction` and ends with `&won=true` |
| Beacons.PartBeaconsSplit | modules/staqAnalyticsAdapter.js:145-151 | a clean non-empty payload gives ceil(L/1600) part beacons. Beacon i goes to the endpoint with the auction id, `part = i` and `on = n-1`. Each payload has 1..1600 characters, and together they rebuild the encoded string |
| StaqAdapter.AuctionInitKeepsFlag | modules/staqAnalyticsAdapter.js:14-17 | AUCTION_INIT empties the bucket and takes the new auction id; account, endpoint and timeout flag are kept |
| StaqAdapter.BidTimeoutSetsFlag | modules/staqAnalyticsAdapter.js:18-20 | BID_TIMEOUT sets the timeout flag, changes nothing else, and sends nothing |
| StaqAdapter.BidResponseStampsFlag | modules/staqAnalyticsAdapter.js:21-26 | BID_RESPONSE appends exactly one response entry, whose `afterTimeout` is the flag at that moment and whose placement is the ad unit; earlier entries are kept |
| StaqAdapter.BidRequestedAppends | modules/staqAnalyticsAdapter.js:33-43 | BID_REQUESTED appends one request entry per bid, in bid order, with the upper-cased bidder and the bid's placement; earlier entries and the auction are kept |
| StaqAdapter.BidRequestedNone | modules/staqAnalyticsAdapter.js:33-43 | a BID_REQUESTED with no bids changes nothing and sends nothing, with or without a bucket |
| StaqAdapter.BidWonSendsOne | modules/staqAnalyticsAdapter.js:27-32 | BID_WON changes no state and sends exactly one won beacon carrying the auction id, whose URL ends with `&won=true` |
| StaqAdapter.AuctionEndKeepsBucket | modules/staqAnalyticsAdapter.js:44-48 | AUCTION_END changes no state (the bucket is not cleared), and with an empty bucket sends nothing |
| StaqAdapter.AuctionEndFlush | modules/staqAnalyticsAdapter.js:44-47 | a flush of a non-empty bucket sends ceil(L/1600) part beacons to the endpoint, numbered 0..n-1, all with `on = n-1` and the auction id, and their payloads rebuild the encoded report |
| StaqAdapter.BulkReportShape | modules/staqAnalyticsAdapter.js:105-135 | the bulk report carries account, auction id and hostname; it has one placement report per group, ordered by first occurrence; every bucket placement is reported; every `winners` list is empty |
| StaqAdapter.TimeoutSticky | modules/staqAnalyticsAdapter.js:12-50 | once set, no sequence of tracked events clears the timeout flag |
| StaqAdapter.AccountFixed | modules/staqAnalyticsAdapter.js:12-50 | no tracked event changes the account id or the endpoint |
| StaqAdapter.BucketAppendOnly | modules/staqAnalyticsAdapter.js:12-50 | with no AUCTION_INIT, the bucket before is a prefix of the bucket after |
| StaqAdapter.BucketWellFormed | modules/staqAnalyticsAdapter.js:21-42 | the bucket only ever holds request records tagged `request` and response records tagged `response` |
| StaqAdapter.Adapter.constructor | modules/staqAnalyticsAdapter.js:10-52 | a fresh adapter has no auction record and no bucket, and has sent nothing |
| StaqAdapter.Adapter.EnableAnalytics | modules/staqAnalyticsAdapter.js:86-100 | with options, the auction record is `{uid: id, url, id: '', timedOut: false}`; without options, there is none; the bucket is untouched |
| StaqAdapter.Adapter.InitAuction | modules/staqAnalyticsAdapter.js:54-56 | the bucket becomes empty, and nothing else changes |
| StaqAdapter.Adapter.BuildTypedEvents | modules/staqAnalyticsAdapter.js:154-177 | the in-place grouping loop returns `Grouped` of the bucket |
| StaqAdapter.Adapter.SendWonEvent | modules/staqAnalyticsAdapter.js:74-82 | exactly the one won beacon is sent |
| StaqAdapter.Adapter.SendTypedEvent | modules/staqAnalyticsAdapter.js:102-152 | exactly the part beacons of `FlushBeacons` are sent, in part order |
| StaqAdapter.Adapter.Track | modules/staqAnalyticsAdapter.js:12-50 | the new state is `Next` of the old state. The beacons sent are those `Emitted` gives for the event. The bucket stays well formed |

## Left out

- **Encoding.** `JSON.stringify`, `window.btoa` and `encodeURIComponent` are
  one opaque total function, `Env.encode`.
  - `btoa` throws on characters above U+00FF, which would abort the flush.
    That failure is not modelled.
  - The fact that percent-encoded base64 has no line terminators is not
    derived, because the encoder is opaque.
- StaqAdapter.AuctionEndFlush: the part-count and rebuild guarantees assume
  the encoded report is non-empty and has no line terminators. For other
  encodings, `Chunking.MatchChunksConcat` and `Chunking.MatchChunksEmpty`
  describe what is sent.
- **The size handler.** `handleSize` is a parameter, because
  `staqAdapter.sizeUtils` is never assigned in the module.
  - Shaping.DedupSize is an assumed deduplicating handler, not the source's.
  - Shaping.DedupSizes holds only for that assumed handler.
- **Numbers.** `parseFloat` and `Number` results are carried as their
  argument's text (`Num`), so no numeric conversion is computed. Two equal
  numbers written differently compare unequal as sizes.
- **Upper-casing.** `toUpperCase` maps ASCII letters only. Locale and
  non-ASCII case mappings are not modelled.
- **Host environment.** These are left out because they have no effect on
  the adapter's state or beacons:
  - `logInfo`;
  - the framework's own `adapterEnableAnalytics`;
  - `adapterManager.registerAnalyticsAdapter`;
  - the unused `find` import.

  `window.location.hostname` is the parameter `Env.hostname`. Sending a
  beacon through `new Image(1, 1)` is an append to the ghost log
  `Adapter.sent`.
- **When `track` may be called.** `Adapter.Track` requires an auction record.
  The framework wires `track` only after `enableAnalytics` with options.
  Without options the source leaves `auction` as `{}`, which the model
  represents as no record.
  - For BID_RESPONSE, BID_REQUESTED with at least one bid, and AUCTION_END,
    `Adapter.Track` also requires a bucket. Before the first AUCTION_INIT the
    source would throw on `undefined`.
- **Length units.** A Dafny `char` is a Unicode scalar value. JavaScript's
  `.length` and the regular expression's `.` at line 145 count UTF-16 code
  units. So `Chunking.MatchChunks` differs from `/.{1,1600}/g` on characters
  outside the Basic Multilingual Plane. The percent-encoded payloads the
  adapter sends are ASCII, where the two agree.
- **An empty match.** When `match` finds nothing it returns `null`, and
  `forEach` at line 147 throws a TypeError out of `track`. `Adapter.SendTypedEvent`
  and `Adapter.Track` model this as sending nothing and returning normally.
  The exception itself is not modelled.
- **Event payloads.** Fields that `track` does not read are not modelled.
  The event types the source does not handle are one `Unrecognized` case.
