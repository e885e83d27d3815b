/**
 * The gateway's datastores (x402-handler/index.js): the in-memory listing store behind
 * `POST /store-listing` and `GET /listings`, the usage log that `logUsage` appends to and
 * `GET /usage/:apiId` projects, and the listing lookup and earnings reset the payout uses.
 * Record identifiers and clock readings are parameters.
 */
module Store {
  import opened Base
  import Text

  /**
   * A listed API: internal id, content address, owner address, accrued earning, creation time
   * in ms. The earning is the JSON value the client stored, as JavaScript arithmetic reads it:
   * absent reads as 0, and text that is not a number (or an object) reads as NaN.
   */
  datatype Listing = Listing(id: string, cid: string, ownerId: string, earning: Option<Num>, createdAt: int)

  /** A verified payment: its signature and the listing's price as the paywall read it. */
  datatype Payment = Payment(signature: string, amount: Num)

  /** One proxied call: the listing it was for, when, the upstream status and latency, and the payment when one was verified. */
  datatype UsageLog = UsageLog(apiId: string, timestamp: int, responseStatus: int, responseTimeMs: int, payment: Option<Payment>)

  datatype State = State(listings: seq<Listing>, usage: seq<UsageLog>)

  /*** POST /store-listing ***/

  /**
   * `ownerId?.toLowerCase()?.trim()?.toString() || ''` for a string or missing owner: the
   * lower-cased owner without the white space at either end.
   */
  function NormalizeOwner(ownerId: Option<string>): (owner: string)
    ensures Text.NoUpper(owner) && Text.Trimmed(owner)
    ensures ownerId.None? ==> owner == ""
    ensures ownerId.Some? ==> exists k: nat :: Text.SpaceAroundAt(Text.Lower(ownerId.value), owner, k)
  {
    match ownerId
    case None => ""
    case Some(s) =>
      Text.TrimKeepsNoUpper(Text.Lower(s));
      Text.Trim(Text.Lower(s))
  }

  /** Normalising an already normalised owner changes nothing. */
  lemma NormalizeOwnerIdempotent(ownerId: Option<string>)
    ensures NormalizeOwner(Some(NormalizeOwner(ownerId))) == NormalizeOwner(ownerId)
  {
    var o := NormalizeOwner(ownerId);
    Text.LowerFixesNoUpper(o);
    Text.TrimFixesTrimmed(o);
  }

  /** The `ownerId` of a listing request, as `toLowerCase` sees it. */
  datatype OwnerField =
    | NoOwner            // missing or null: `?.` stops and the owner is ''
    | OwnerText(text: string)
    | OwnerNotText       // a number, boolean, array or object: it has no `toLowerCase`, so the call throws

  /** The request body of `POST /store-listing`; an absent `earning` defaults to 0. */
  datatype ListingRequest = ListingRequest(cid: Option<string>, ownerId: OwnerField, earning: Option<Num>)

  /** Stored, refused for a missing cid, or failed because building the record threw. */
  datatype StoreReply = Stored(id: string) | CidRequired | StoreFailed

  function StoreStatus(reply: StoreReply): int
  {
    match reply
    case Stored(_) => 200
    case CidRequired => 400
    case StoreFailed => 500
  }

  /** The owner text a request carries, when it is a string. */
  function OwnerString(owner: OwnerField): Option<string>
  {
    if owner.OwnerText? then Some(owner.text) else None
  }

  datatype StoreResult = StoreResult(reply: StoreReply, state: State)

  /**
   * `POST /store-listing` in in-memory mode: a missing or empty cid is refused with 400 and the
   * store is untouched; an owner that is not a string makes `toLowerCase` throw inside the
   * handler's `try`, a 500 with nothing stored; otherwise exactly one record is appended, with
   * id `id` and creation time `now`.
   */
  function StoreListing(st: State, req: ListingRequest, id: string, now: int): (r: StoreResult)
    ensures r.reply == CidRequired <==> req.cid.None? || req.cid.value == ""
    ensures r.reply == StoreFailed <==> req.cid.Some? && req.cid.value != "" && req.ownerId.OwnerNotText?
    ensures !r.reply.Stored? ==> r.state == st && StoreStatus(r.reply) != 200
    ensures r.reply.Stored? ==>
      && StoreStatus(r.reply) == 200
      && r.reply.id == id
      && r.state.usage == st.usage
      && |r.state.listings| == |st.listings| + 1
      && r.state.listings[..|st.listings|] == st.listings
    ensures r.reply.Stored? ==>
      var added := r.state.listings[|st.listings|];
      && added.cid == req.cid.value
      && added.ownerId == NormalizeOwner(OwnerString(req.ownerId))
      && added.earning == Some(req.earning.GetOr(Finite(0.0)))
      && added.createdAt == now
  {
    if req.cid.None? || req.cid.value == "" then StoreResult(CidRequired, st)
    else if req.ownerId.OwnerNotText? then StoreResult(StoreFailed, st)
    else
      var added := Listing(id, req.cid.value, NormalizeOwner(OwnerString(req.ownerId)), Some(req.earning.GetOr(Finite(0.0))), now);
      StoreResult(Stored(id), st.(listings := st.listings + [added]))
  }

  /*** GET /listings ***/

  /** Newest `createdAt` first. */
  predicate NewestFirst(s: seq<Listing>)
  {
    forall i, j :: 0 <= i < j < |s| ==> s[i].createdAt >= s[j].createdAt
  }

  /**
   * Places `x` in front of the first record not newer than it: a record that came earlier
   * in the original order stays ahead of equally old ones.
   */
  function InsertNewest(x: Listing, s: seq<Listing>): (r: seq<Listing>)
    ensures |r| == |s| + 1
    ensures multiset(r) == multiset(s) + multiset{x}
    decreases |s|
  {
    if |s| == 0 then [x]
    else if s[0].createdAt <= x.createdAt then [x] + s
    else
      assert s == [s[0]] + s[1..];
      [s[0]] + InsertNewest(x, s[1..])
  }

  /** Inserting into a newest-first list keeps it newest first. */
  lemma {:induction false} InsertNewestSorted(x: Listing, s: seq<Listing>)
    requires NewestFirst(s)
    ensures NewestFirst(InsertNewest(x, s))
    decreases |s|
  {
    if |s| > 0 && s[0].createdAt > x.createdAt {
      var rest := InsertNewest(x, s[1..]);
      InsertNewestSorted(x, s[1..]);
      forall j | 0 <= j < |rest| ensures rest[j].createdAt <= s[0].createdAt {
        assert rest[j] in multiset(rest);
        if rest[j] != x {
          assert rest[j] in multiset(s[1..]);
          var k :| 0 <= k < |s[1..]| && s[1..][k] == rest[j];
          assert s[k + 1] == rest[j];
        }
      }
    }
  }

  /** The sort by descending `createdAt` that `apis.sort((a, b) => b.createdAt - a.createdAt)` performs. */
  function SortNewest(s: seq<Listing>): (r: seq<Listing>)
    ensures NewestFirst(r)
    ensures multiset(r) == multiset(s)
    decreases |s|
  {
    if |s| == 0 then []
    else
      assert s == [s[0]] + s[1..];
      InsertNewestSorted(s[0], SortNewest(s[1..]));
      InsertNewest(s[0], SortNewest(s[1..]))
  }

  /** A list already newest first is left exactly as it is, ties included. */
  lemma {:induction false} SortNewestFixesSorted(s: seq<Listing>)
    requires NewestFirst(s)
    ensures SortNewest(s) == s
    decreases |s|
  {
    if |s| > 0 {
      assert NewestFirst(s[1..]);
      SortNewestFixesSorted(s[1..]);
      assert s == [s[0]] + s[1..];
    }
  }

  datatype ListResult = ListResult(listings: seq<Listing>, state: State)

  /**
   * `GET /listings` in in-memory mode: the records newest first. The source sorts the store's
   * own array in place, so the store keeps that order afterwards.
   */
  function ListListings(st: State): (r: ListResult)
    ensures NewestFirst(r.listings)
    ensures multiset(r.listings) == multiset(st.listings)
    ensures r.state == st.(listings := r.listings)
  {
    var sorted := SortNewest(st.listings);
    ListResult(sorted, st.(listings := sorted))
  }

  /** Listing twice gives the same answer and the same store as listing once. */
  lemma ListListingsIdempotent(st: State)
    ensures ListListings(ListListings(st).state) == ListListings(st)
  {
    SortNewestFixesSorted(SortNewest(st.listings));
  }

  /*** Lookup and earnings reset, as the payout uses them ***/

  /** `getApiByCid`: the first record with that content address. */
  function FindListing(st: State, cid: string): (r: Option<nat>)
    ensures r.Some? ==> r.value < |st.listings| && st.listings[r.value].cid == cid
    ensures r.Some? ==> forall j :: 0 <= j < r.value ==> st.listings[j].cid != cid
    ensures r.None? ==> forall j :: 0 <= j < |st.listings| ==> st.listings[j].cid != cid
  {
    FindFirst(st.listings, (l: Listing) => l.cid == cid)
  }

  /** `updateOne({cid}, {$set: {earning: 0}})`: zero the earning of the first record with that cid. */
  function ResetEarning(st: State, cid: string): (r: State)
    ensures r.usage == st.usage && |r.listings| == |st.listings|
    ensures FindListing(st, cid).None? ==> r == st
    ensures FindListing(st, cid).Some? ==>
      var k := FindListing(st, cid).value;
      && r.listings[k] == st.listings[k].(earning := Some(Finite(0.0)))
      && forall j :: 0 <= j < |st.listings| && j != k ==> r.listings[j] == st.listings[j]
  {
    match FindListing(st, cid)
    case None => st
    case Some(k) => st.(listings := st.listings[k := st.listings[k].(earning := Some(Finite(0.0)))])
  }

  /** After a reset, reading the listing back finds the same record with earning 0. */
  lemma ResetThenRead(st: State, cid: string)
    requires FindListing(st, cid).Some?
    ensures FindListing(ResetEarning(st, cid), cid) == FindListing(st, cid)
    ensures ResetEarning(st, cid).listings[FindListing(st, cid).value].earning == Some(Finite(0.0))
  {
    var k := FindListing(st, cid).value;
    var r := ResetEarning(st, cid);
    FindFirstAt(r.listings, (l: Listing) => l.cid == cid, k);
  }

  /*** Usage log ***/

  /**
   * A listing stored under a cid no listing had yet is the one a later lookup of that cid
   * finds, with the owner normalised and the earning it was stored with (0 by default).
   */
  lemma StoredListingIsFound(st: State, req: ListingRequest, id: string, now: int)
    requires req.cid.Some? && req.cid.value != "" && !req.ownerId.OwnerNotText?
    requires FindListing(st, req.cid.value).None?
    ensures var r := StoreListing(st, req, id, now);
      && FindListing(r.state, req.cid.value) == Some(|st.listings|)
      && r.state.listings[|st.listings|].ownerId == NormalizeOwner(OwnerString(req.ownerId))
      && r.state.listings[|st.listings|].earning == Some(req.earning.GetOr(Finite(0.0)))
  {
    var r := StoreListing(st, req, id, now);
    FindFirstAt(r.state.listings, (l: Listing) => l.cid == req.cid.value, |st.listings|);
  }

  /** `logUsage`: append one entry. */
  function LogUsage(st: State, entry: UsageLog): (r: State)
    ensures r.listings == st.listings && r.usage == st.usage + [entry]
  {
    st.(usage := st.usage + [entry])
  }

  /** The logs of one listing, in the order they were appended. */
  function LogsOf(logs: seq<UsageLog>, apiId: string): (r: seq<UsageLog>)
    ensures |r| <= |logs|
    ensures forall i :: 0 <= i < |r| ==> r[i].apiId == apiId && r[i] in logs
    ensures forall i :: 0 <= i < |logs| && logs[i].apiId == apiId ==> logs[i] in r
    decreases |logs|
  {
    if |logs| == 0 then []
    else
      var rest := LogsOf(logs[1..], apiId);
      assert forall i :: 0 < i < |logs| ==> logs[i] == logs[1..][i - 1];
      if logs[0].apiId == apiId then [logs[0]] + rest else rest
  }

  /** Appending a log extends the logs of its own listing by that log and leaves every other listing's alone. */
  lemma {:induction false} LogsOfAppend(logs: seq<UsageLog>, e: UsageLog, apiId: string)
    ensures LogsOf(logs + [e], apiId) == LogsOf(logs, apiId) + (if e.apiId == apiId then [e] else [])
    decreases |logs|
  {
    if |logs| == 0 {
      assert logs + [e] == [e];
      assert [e][1..] == [];
    } else {
      assert (logs + [e])[1..] == logs[1..] + [e];
      LogsOfAppend(logs[1..], e, apiId);
    }
  }

  /** How many logs `getUsageLogsByApiId(apiId, 1000)` returns at most. */
  const USAGE_QUERY_LIMIT: nat := 1000

  /** `getUsageLogsByApiId(apiId, 1000)`: at most 1000 logs of that listing. */
  function QueryUsage(st: State, apiId: string): (r: seq<UsageLog>)
    ensures |r| <= USAGE_QUERY_LIMIT
    ensures forall i :: 0 <= i < |r| ==> r[i].apiId == apiId && r[i] in st.usage
    ensures |LogsOf(st.usage, apiId)| <= USAGE_QUERY_LIMIT ==> r == LogsOf(st.usage, apiId)
  {
    var all := LogsOf(st.usage, apiId);
    if |all| <= USAGE_QUERY_LIMIT then all else all[..USAGE_QUERY_LIMIT]
  }

  /** One projected usage entry: the payment fields are not shown. */
  datatype UsageEntry = UsageEntry(timestamp: int, responseStatus: int, responseTimeMs: int)

  /** The fixed error text of a usage query that threw. */
  const USAGE_FAILED_MESSAGE: string := "Failed to fetch usage logs"

  datatype UsageReply =
    | ApiIdRequired
    | UsageReport(apiId: string, usage: seq<UsageEntry>, usageCount: int)
    | UsageFailed(error: string)

  function UsageStatus(reply: UsageReply): int
  {
    match reply
    case ApiIdRequired => 400
    case UsageReport(_, _, _) => 200
    case UsageFailed(_) => 500
  }

  function Project(log: UsageLog): UsageEntry
  {
    UsageEntry(log.timestamp, log.responseStatus, log.responseTimeMs)
  }

  /**
   * `GET /usage/:apiId` given what the query answered: the logs (`Some`), or `None` when
   * `getUsageLogsByApiId` threw. A report has one projected entry per log, in order, and
   * `usageCount` the number of logs; a query that threw is a 500 with a fixed message.
   */
  function UsageFor(apiId: string, query: Option<seq<UsageLog>>): (r: UsageReply)
    ensures r == ApiIdRequired <==> apiId == ""
    ensures r.UsageFailed? <==> apiId != "" && query.None?
    ensures r.UsageFailed? ==> r == UsageFailed(USAGE_FAILED_MESSAGE) && UsageStatus(r) == 500
    ensures r.UsageReport? <==> apiId != "" && query.Some?
    ensures r.UsageReport? ==>
      var logs := query.value;
      && r.apiId == apiId
      && r.usageCount == |logs| == |r.usage|
      && forall i :: 0 <= i < |logs| ==>
           r.usage[i].timestamp == logs[i].timestamp
           && r.usage[i].responseStatus == logs[i].responseStatus
           && r.usage[i].responseTimeMs == logs[i].responseTimeMs
  {
    if apiId == "" then ApiIdRequired
    else
      match query
      case None => UsageFailed(USAGE_FAILED_MESSAGE)
      case Some(logs) => UsageReport(apiId, seq(|logs|, i requires 0 <= i < |logs| => Project(logs[i])), |logs|)
  }

  /** The report depends on the logs only through their time, status and latency, never their payment. */
  lemma UsageHidesPayments(apiId: string, logs: seq<UsageLog>, payments: seq<Option<Payment>>)
    requires |payments| == |logs|
    ensures UsageFor(apiId, Some(logs))
         == UsageFor(apiId, Some(seq(|logs|, i requires 0 <= i < |logs| => logs[i].(payment := payments[i]))))
  {
  }
}
