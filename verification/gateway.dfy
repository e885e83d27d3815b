/**
 * The two request handlers of the gateway with real decision logic (x402-handler/index.js):
 * `POST /fluxapi/`, the paywall that verifies a payment and proxies the call upstream,
 * and `POST /claim`, the payout of a listing's accrued earnings.
 *
 * Each handler is a function from the datastore state, the request and the answers of its
 * collaborators to the reply, the calls it made, and the new state. Collaborators that take
 * arguments (the verifier, the upstream endpoint, the key derivation, the payout) are passed
 * as functions, so a property can say which call was made.
 */
module Gateway {
  import opened Base
  import Solana
  import Store

  /** The payment freshness window the paywall asks of the verifier. */
  const FRESHNESS_WINDOW_SECONDS: int := 300
  const PAYMENT_TOKEN: string := "USDC"
  const EXPLORER_PREFIX: string := "https://explorer.solana.com/tx/"
  const CLAIM_FALLBACK_MESSAGE: string := "Failed to claim earnings"

  /** A JSON value, as the caller's payload and the upstream's answer carry it. */
  datatype Json =
    | JNull
    | JBool(b: bool)
    | JNumber(n: real)
    | JString(s: string)
    | JArray(items: seq<Json>)
    | JObject(fields: seq<(string, Json)>)

  /** JavaScript truthiness of a JSON value. */
  predicate Truthy(j: Json)
  {
    match j
    case JNull => false
    case JBool(b) => b
    case JNumber(n) => n != 0.0
    case JString(s) => s != ""
    case _ => true
  }

  /*** POST /fluxapi/ ***/

  /**
   * The metadata document a cid resolves to. `costPerRequest` is the price as the verifier's
   * arithmetic reads it: NaN when the document has none or holds text that is not a number.
   * (`null`, `""` and `false` are read as 0 by the subtraction, so they are `Finite(0.0)`.)
   * `internalId` is the listing's datastore id (`api._id.$oid || api._id`), absent when the
   * document has no `_id`.
   */
  datatype ApiMetadata = ApiMetadata(endpoint: string, costPerRequest: Num, id: string, internalId: Option<string>)

  /** What `getJsonFromIpfs(cid)` answered. */
  datatype MetadataFetch = MetadataFound(api: ApiMetadata) | MetadataAbsent | MetadataThrew(message: string)

  /** The request body: `{cid, signature, requestId, data}` (`requestId` is unused). */
  datatype CallRequest = CallRequest(cid: Option<string>, signature: Option<string>, data: Option<Json>)

  /** The arguments of a `verifyPaymentTransaction` call. */
  datatype VerifyCall = VerifyCall(signature: string, recipient: Option<string>, amount: Num, maxAgeSeconds: int)

  datatype Method = Get | Post

  datatype HttpRequest = HttpRequest(verb: Method, url: string, headers: map<string, string>, body: Option<Json>)

  /** What the upstream `fetch` did: answered with a status and a body that did or did not parse as JSON, or threw. */
  datatype UpstreamAnswer = Answered(status: int, body: Result<Json, string>) | Unreachable(message: string)

  /** The collaborators of one paywall call. */
  datatype CallEnv = CallEnv(
    paymentWallet: Option<string>,              // SOLANA_PAYMENT_WALLET
    metadata: MetadataFetch,
    verify: VerifyCall -> Solana.Verdict,
    deriveKey: string -> string,                // generateApiKeyFromUuid; "" is falsy
    upstream: HttpRequest -> UpstreamAnswer,
    logAttempt: nat -> Option<string>,          // the n-th `logUsage` of this call throws this message, or succeeds
    now: int,
    elapsedMs: int)

  datatype PaymentInfo = PaymentInfo(recipient: Option<string>, amount: Num, token: string)

  datatype PaymentReceipt = PaymentReceipt(signature: string, amount: Num, verified: bool)

  datatype CallReply =
    | MissingCid
    | ApiNotFound
    | PaymentRequired(paymentInfo: PaymentInfo)
    | PaymentVerificationFailed(reason: Solana.VerifyError)
    | CallSucceeded(data: Json, payment: PaymentReceipt)
    | ApiCallFailed(details: string)
    | ProcessingFailed(details: string)

  function CallStatus(reply: CallReply): int
  {
    match reply
    case MissingCid => 400
    case ApiNotFound => 404
    case PaymentRequired(_) => 402
    case PaymentVerificationFailed(_) => 402
    case CallSucceeded(_, _) => 200
    case ApiCallFailed(_) => 500
    case ProcessingFailed(_) => 500
  }

  /** The reply, the verifier call made, the upstream request sent, and the datastore afterwards. */
  datatype CallOutcome = CallOutcome(
    reply: CallReply, verifyCall: Option<VerifyCall>, forwarded: Option<HttpRequest>, state: Store.State)

  predicate Present(s: Option<string>)
  {
    s.Some? && s.value != ""
  }

  /**
   * The upstream request: with a truthy payload, a POST of it as JSON carrying the access code
   * in `x-fluxapi-access-code`; otherwise a GET carrying it in `x-api-key`. An empty key adds no header.
   */
  function UpstreamRequest(api: ApiMetadata, data: Option<Json>, apiKey: string): (req: HttpRequest)
    ensures req.url == api.endpoint
    ensures req.verb == Post <==> data.Some? && Truthy(data.value)
    ensures req.verb == Post ==> req.body == data && "Content-Type" in req.headers && req.headers["Content-Type"] == "application/json"
    ensures req.verb == Get ==> req.body.None? && "Content-Type" !in req.headers
    ensures req.verb == Post ==>
      && "x-api-key" !in req.headers
      && (apiKey != "" <==> "x-fluxapi-access-code" in req.headers)
      && (apiKey != "" ==> req.headers["x-fluxapi-access-code"] == apiKey)
    ensures req.verb == Get ==>
      && "x-fluxapi-access-code" !in req.headers
      && (apiKey != "" <==> "x-api-key" in req.headers)
      && (apiKey != "" ==> req.headers["x-api-key"] == apiKey)
  {
    if data.Some? && Truthy(data.value) then
      var headers := map["Content-Type" := "application/json"];
      HttpRequest(Post, api.endpoint, if apiKey != "" then headers["x-fluxapi-access-code" := apiKey] else headers, data)
    else
      HttpRequest(Get, api.endpoint, if apiKey != "" then map["x-api-key" := apiKey] else map[], None)
  }

  /**
   * Logging after a verified call. On a parsed answer one entry with the payment is logged and
   * the data returned; a throw from the answer, its parsing or that log is caught, and then one
   * entry with status 500 and no payment is logged before replying 500. A throw from that second
   * log escapes to the outer handler. Without a listing id nothing is logged.
   */
  function AfterUpstream(st: Store.State, api: ApiMetadata, signature: string, answer: UpstreamAnswer, env: CallEnv): (r: (CallReply, Store.State))
    ensures r.1 == st || (api.internalId.Some? && exists e :: r.1 == Store.LogUsage(st, e) && e.apiId == api.internalId.value)
    ensures r.1 != st ==> (r.0.CallSucceeded? <==> r.1.usage[|st.usage|].payment.Some?)
    ensures r.0.CallSucceeded? <==> answer.Answered? && answer.body.Ok? && (api.internalId.None? || env.logAttempt(0).None?)
  {
    var failed := (message: string, attempt: nat) =>
      if api.internalId.None? then (ApiCallFailed(message), st)
      else
        match env.logAttempt(attempt)
        case Some(m) => (ProcessingFailed(m), st)
        case None =>
          (ApiCallFailed(message),
           Store.LogUsage(st, Store.UsageLog(api.internalId.value, env.now, 500, env.elapsedMs, None)));
    match answer
    case Unreachable(m) => failed(m, 0)
    case Answered(_, Err(m)) => failed(m, 0)
    case Answered(status, Ok(body)) =>
      var reply := CallSucceeded(body, PaymentReceipt(signature, api.costPerRequest, true));
      if api.internalId.None? then (reply, st)
      else
        match env.logAttempt(0)
        case Some(m) => failed(m, 1)
        case None =>
          var entry := Store.UsageLog(api.internalId.value, env.now, status, env.elapsedMs,
                                      Some(Store.Payment(signature, api.costPerRequest)));
          (reply, Store.LogUsage(st, entry))
  }

  /** `POST /fluxapi/`: resolve the API, demand and verify a payment, forward the call and log it. */
  function HandleCall(st: Store.State, req: CallRequest, env: CallEnv): (out: CallOutcome)
    ensures out.reply == MissingCid <==> !Present(req.cid)
    ensures out.reply == ApiNotFound <==> Present(req.cid) && env.metadata.MetadataAbsent?
    ensures Present(req.cid) && env.metadata.MetadataThrew? ==>
      out.reply == ProcessingFailed(env.metadata.message) && out.verifyCall.None?
    ensures out.reply.PaymentRequired? <==> Present(req.cid) && env.metadata.MetadataFound? && !Present(req.signature)
    ensures out.reply.PaymentRequired? ==>
      out.reply.paymentInfo == PaymentInfo(env.paymentWallet, env.metadata.api.costPerRequest, PAYMENT_TOKEN)
    ensures out.verifyCall.Some? <==> Present(req.cid) && env.metadata.MetadataFound? && Present(req.signature)
    ensures out.verifyCall.Some? ==>
      out.verifyCall.value == VerifyCall(req.signature.value, env.paymentWallet, env.metadata.api.costPerRequest, FRESHNESS_WINDOW_SECONDS)
    ensures out.forwarded.Some? <==> out.verifyCall.Some? && env.verify(out.verifyCall.value).Valid?
    ensures out.verifyCall.Some? && env.verify(out.verifyCall.value).Invalid? ==>
      out.reply == PaymentVerificationFailed(env.verify(out.verifyCall.value).error)
    ensures out.forwarded.Some? ==>
      out.forwarded.value == UpstreamRequest(env.metadata.api, req.data, env.deriveKey(env.metadata.api.id))
    ensures out.forwarded.None? ==> out.state == st
    ensures out.state.listings == st.listings
    ensures out.reply.CallSucceeded? ==> out.forwarded.Some?
  {
    if !Present(req.cid) then CallOutcome(MissingCid, None, None, st)
    else
      match env.metadata
      case MetadataThrew(m) => CallOutcome(ProcessingFailed(m), None, None, st)
      case MetadataAbsent => CallOutcome(ApiNotFound, None, None, st)
      case MetadataFound(api) =>
        if !Present(req.signature) then
          CallOutcome(PaymentRequired(PaymentInfo(env.paymentWallet, api.costPerRequest, PAYMENT_TOKEN)), None, None, st)
        else
          var call := VerifyCall(req.signature.value, env.paymentWallet, api.costPerRequest, FRESHNESS_WINDOW_SECONDS);
          match env.verify(call)
          case Invalid(e) => CallOutcome(PaymentVerificationFailed(e), Some(call), None, st)
          case Valid(_, _, _, _) =>
            var request := UpstreamRequest(api, req.data, env.deriveKey(api.id));
            var (reply, st') := AfterUpstream(st, api, req.signature.value, env.upstream(request), env);
            CallOutcome(reply, Some(call), Some(request), st')
  }

  /** Usage is logged only for calls whose payment was verified, and each such call logs at most one entry. */
  lemma LogOnlyAfterVerifiedPayment(st: Store.State, req: CallRequest, env: CallEnv)
    ensures var out := HandleCall(st, req, env);
      || out.state == st
      || (&& out.forwarded.Some?
          && env.verify(out.verifyCall.value).Valid?
          && env.metadata.api.internalId.Some?
          && |out.state.usage| == |st.usage| + 1
          && out.state.usage[..|st.usage|] == st.usage
          && out.state.usage[|st.usage|].apiId == env.metadata.api.internalId.value)
  {
  }

  /**
   * A parsed upstream answer, whatever its status, is a 200 success carrying the data and the
   * payment; with a listing id and a working log exactly one entry is appended, recording the
   * upstream status, the signature and the listing's price.
   */
  lemma VerifiedCallSucceeds(st: Store.State, req: CallRequest, env: CallEnv, status: int, body: Json)
    requires Present(req.cid) && Present(req.signature) && env.metadata.MetadataFound?
    requires env.verify(VerifyCall(req.signature.value, env.paymentWallet, env.metadata.api.costPerRequest, FRESHNESS_WINDOW_SECONDS)).Valid?
    requires env.upstream(UpstreamRequest(env.metadata.api, req.data, env.deriveKey(env.metadata.api.id))) == Answered(status, Ok(body))
    requires env.logAttempt(0).None?
    ensures var out := HandleCall(st, req, env);
      var api := env.metadata.api;
      && out.reply == CallSucceeded(body, PaymentReceipt(req.signature.value, api.costPerRequest, true))
      && CallStatus(out.reply) == 200
      && (api.internalId.Some? ==>
            out.state == Store.LogUsage(st, Store.UsageLog(api.internalId.value, env.now, status, env.elapsedMs,
                                                           Some(Store.Payment(req.signature.value, api.costPerRequest)))))
      && (api.internalId.None? ==> out.state == st)
  {
  }

  /**
   * When the upstream cannot be reached or its answer does not parse, the reply is 500 and,
   * with a listing id and a working log, one entry with status 500 and no payment is appended.
   */
  lemma FailedUpstreamLogged(st: Store.State, req: CallRequest, env: CallEnv, message: string)
    requires Present(req.cid) && Present(req.signature) && env.metadata.MetadataFound?
    requires env.verify(VerifyCall(req.signature.value, env.paymentWallet, env.metadata.api.costPerRequest, FRESHNESS_WINDOW_SECONDS)).Valid?
    requires
      var answer := env.upstream(UpstreamRequest(env.metadata.api, req.data, env.deriveKey(env.metadata.api.id)));
      answer == Unreachable(message) || (answer.Answered? && answer.body == Err(message))
    requires env.logAttempt(0).None?
    ensures var out := HandleCall(st, req, env);
      var api := env.metadata.api;
      && out.reply == ApiCallFailed(message)
      && CallStatus(out.reply) == 500
      && (api.internalId.Some? ==>
            out.state == Store.LogUsage(st, Store.UsageLog(api.internalId.value, env.now, 500, env.elapsedMs, None)))
  {
  }

  /**
   * Nothing records that a signature was spent: a call that succeeded succeeds again with the
   * same signature against the state it left, and logs a second paid entry.
   */
  lemma SignatureReplayAccepted(st: Store.State, req: CallRequest, env: CallEnv)
    requires HandleCall(st, req, env).reply.CallSucceeded?
    requires HandleCall(st, req, env).state != st
    ensures var first := HandleCall(st, req, env);
      var second := HandleCall(first.state, req, env);
      && second.reply == first.reply
      && |second.state.usage| == |st.usage| + 2
      && second.state.usage[|st.usage| + 1] == first.state.usage[|st.usage|]
      && second.state.usage[|st.usage| + 1].payment == Some(Store.Payment(req.signature.value, env.metadata.api.costPerRequest))
  {
  }

  /** Without a signature the caller is told what to pay: the wallet, the listing's price, USDC. */
  lemma UnpaidCallScenario(st: Store.State, env: CallEnv)
    requires env.metadata == MetadataFound(ApiMetadata("https://up.example/run", Finite(0.5), "fluxapi-1", Some("abc")))
    ensures var out := HandleCall(st, CallRequest(Some("abc"), None, None), env);
      && CallStatus(out.reply) == 402
      && out.reply == PaymentRequired(PaymentInfo(env.paymentWallet, Finite(0.5), "USDC"))
      && out.forwarded.None? && out.state == st
  {
  }

  /**
   * A listing whose price is missing or non-numeric text (NaN) is served for any transaction that reaches
   * the verifier's amount check, whatever it paid: a NaN price never fails that check.
   */
  lemma UnpricedListingServesAnyTransaction(st: Store.State, req: CallRequest, env: CallEnv,
                                            keys: Solana.KeyOracle, clusterEnv: Option<string>, fetch: Solana.TxFetch)
    requires Present(req.cid) && Present(req.signature) && env.metadata.MetadataFound?
    requires env.metadata.api.costPerRequest.NaN?
    requires forall c: VerifyCall :: env.verify(c)
               == Solana.Verify(keys, clusterEnv, fetch, c.signature, c.recipient, c.amount, c.maxAgeSeconds, env.now)
    requires Solana.ReachesAmountCheck(keys, clusterEnv, fetch, env.paymentWallet, FRESHNESS_WINDOW_SECONDS, env.now)
    ensures HandleCall(st, req, env).forwarded
         == Some(UpstreamRequest(env.metadata.api, req.data, env.deriveKey(env.metadata.api.id)))
  {
    var call := VerifyCall(req.signature.value, env.paymentWallet, NaN, FRESHNESS_WINDOW_SECONDS);
    Solana.UnpricedPaymentAccepted(keys, clusterEnv, fetch, call.signature, call.recipient, call.maxAgeSeconds, env.now);
  }

  /*** POST /claim ***/

  datatype ClaimRequest = ClaimRequest(apiId: Option<string>)

  /**
   * The collaborators of one claim: the key machinery, the cluster, whether the listing lookup
   * throws, the payout (`transferUSDC(to, amount)`) and what became of the earnings-reset request.
   */
  datatype ClaimEnv = ClaimEnv(
    keys: Solana.KeyOracle,
    clusterEnv: Option<string>,
    lookupFailure: Option<string>,
    transfer: (string, Num) -> Result<Solana.Transfer, Solana.TransferCause>,
    reset: ResetAnswer)

  /**
   * The earnings reset is an HTTP request to the datastore: it is applied, answered without
   * being applied (the `fetch` promise resolves whatever the status), or it throws.
   */
  datatype ResetAnswer = ResetApplied | ResetIgnored | ResetThrew(message: string)

  datatype ClaimReply =
    | ApiIdRequired
    | ClaimApiNotFound
    | InvalidOwnerAddress
    | NoEarnings
    | TransferFailed(details: string)
    | Claimed(signature: string, amount: Num, to: string, explorer: string)
    | ClaimFailed(message: string)

  function ClaimStatus(reply: ClaimReply): int
  {
    match reply
    case ApiIdRequired => 400
    case ClaimApiNotFound => 404
    case InvalidOwnerAddress => 400
    case NoEarnings => 400
    case TransferFailed(_) => 500
    case Claimed(_, _, _, _) => 200
    case ClaimFailed(_) => 500
  }

  datatype PayoutCall = PayoutCall(to: string, amount: Num)

  /** The reply, the payout requested (if any), whether it went through, and the datastore afterwards. */
  datatype ClaimOutcome = ClaimOutcome(reply: ClaimReply, payout: Option<PayoutCall>, paid: bool, state: Store.State)

  /** `api.earning || 0`: an absent earning is 0; anything else is kept, NaN included. */
  function EarningOf(l: Store.Listing): Num
  {
    l.earning.GetOr(Finite(0.0))
  }

  /** `earning <= 0`, which is false for NaN: a non-numeric earning is not "nothing to claim". */
  predicate NothingToClaim(earning: Num)
  {
    earning.Finite? && earning.value <= 0.0
  }

  function ExplorerUrl(signature: string, clusterEnv: Option<string>): string
  {
    EXPLORER_PREFIX + signature + "?cluster=" + Solana.ClusterName(clusterEnv)
  }

  /** The listing a claim for `apiId` reads, when it exists. */
  function ClaimedListing(st: Store.State, apiId: string): Option<Store.Listing>
  {
    match Store.FindListing(st, apiId)
    case None => None
    case Some(k) => Some(st.listings[k])
  }

  /** The claim passes every guard: an id, a lookup that did not throw, a listing, a valid owner, an earning not `<= 0`. */
  predicate PassesGuards(st: Store.State, req: ClaimRequest, env: ClaimEnv)
  {
    && Present(req.apiId)
    && env.lookupFailure.None?
    && ClaimedListing(st, req.apiId.value).Some?
    && Solana.IsValidAddress(env.keys, ClaimedListing(st, req.apiId.value).value.ownerId)
    && !NothingToClaim(EarningOf(ClaimedListing(st, req.apiId.value).value))
  }

  /**
   * `POST /claim`: pay a listing's whole earning to its owner and zero it. The guards run in
   * order: missing id, unknown listing, owner not a valid address, nothing to claim. A failed
   * payout leaves the earning untouched. An earning that reads as NaN (text that is not a
   * number) is not `<= 0`, so it passes the last guard and is handed to the payout. The reset
   * request shares the payout's error handler,
   * so when it throws after a payout went through the claim is reported as a failed transfer;
   * when the datastore answers without applying it, the claim is reported as a success.
   */
  function HandleClaim(st: Store.State, req: ClaimRequest, env: ClaimEnv): (out: ClaimOutcome)
    ensures out.reply == ApiIdRequired <==> !Present(req.apiId)
    ensures out.reply == ClaimApiNotFound <==>
      Present(req.apiId) && env.lookupFailure.None? && ClaimedListing(st, req.apiId.value).None?
    ensures out.reply == InvalidOwnerAddress <==>
      && Present(req.apiId) && env.lookupFailure.None? && ClaimedListing(st, req.apiId.value).Some?
      && !Solana.IsValidAddress(env.keys, ClaimedListing(st, req.apiId.value).value.ownerId)
    ensures out.reply == NoEarnings <==>
      && Present(req.apiId) && env.lookupFailure.None? && ClaimedListing(st, req.apiId.value).Some?
      && Solana.IsValidAddress(env.keys, ClaimedListing(st, req.apiId.value).value.ownerId)
      && NothingToClaim(EarningOf(ClaimedListing(st, req.apiId.value).value))
    ensures out.reply.ClaimFailed? <==> Present(req.apiId) && env.lookupFailure.Some?
    ensures out.reply.ClaimFailed? ==>
      out.reply.message == (if env.lookupFailure.value == "" then CLAIM_FALLBACK_MESSAGE else env.lookupFailure.value)
    ensures out.payout.Some? ==>
      && Present(req.apiId) && ClaimedListing(st, req.apiId.value).Some?
      && out.payout.value == PayoutCall(ClaimedListing(st, req.apiId.value).value.ownerId,
                                         EarningOf(ClaimedListing(st, req.apiId.value).value))
      && !NothingToClaim(out.payout.value.amount)
    ensures out.payout.Some? <==> PassesGuards(st, req, env)
    ensures && Present(req.apiId) && env.lookupFailure.None? && ClaimedListing(st, req.apiId.value).Some?
            && Solana.IsValidAddress(env.keys, ClaimedListing(st, req.apiId.value).value.ownerId)
            && EarningOf(ClaimedListing(st, req.apiId.value).value).NaN? ==>
      out.payout == Some(PayoutCall(ClaimedListing(st, req.apiId.value).value.ownerId, NaN))
    ensures PassesGuards(st, req, env) ==>
      var l := ClaimedListing(st, req.apiId.value).value;
      var paid := env.transfer(l.ownerId, EarningOf(l));
      && out.payout == Some(PayoutCall(l.ownerId, EarningOf(l)))
      && (out.paid <==> paid.Ok?)
      && (paid.Ok? && !env.reset.ResetThrew? ==> out.reply.Claimed?)
      && (paid.Ok? && env.reset.ResetThrew? ==> out.reply == TransferFailed(env.reset.message))
    ensures out.paid ==> out.payout.Some? && env.transfer(out.payout.value.to, out.payout.value.amount).Ok?
    ensures out.payout.Some? && !out.paid ==>
      && env.transfer(out.payout.value.to, out.payout.value.amount).Err?
      && out.reply == TransferFailed(Solana.TransferErrorText(env.transfer(out.payout.value.to, out.payout.value.amount).error))
    ensures out.reply.Claimed? ==>
      && out.paid
      && out.reply.amount == out.payout.value.amount
      && out.reply.to == out.payout.value.to
      && out.reply.signature == env.transfer(out.payout.value.to, out.payout.value.amount).value.signature
      && out.reply.explorer == ExplorerUrl(out.reply.signature, env.clusterEnv)
      && (env.reset.ResetApplied? ==> out.state == Store.ResetEarning(st, req.apiId.value))
    ensures !(out.reply.Claimed? && env.reset.ResetApplied?) ==> out.state == st
  {
    if !Present(req.apiId) then ClaimOutcome(ApiIdRequired, None, false, st)
    else if env.lookupFailure.Some? then
      var m := env.lookupFailure.value;
      ClaimOutcome(ClaimFailed(if m == "" then CLAIM_FALLBACK_MESSAGE else m), None, false, st)
    else
      var apiId := req.apiId.value;
      match ClaimedListing(st, apiId)
      case None => ClaimOutcome(ClaimApiNotFound, None, false, st)
      case Some(api) =>
        var earning := EarningOf(api);
        var to := api.ownerId;
        if !Solana.IsValidAddress(env.keys, to) then ClaimOutcome(InvalidOwnerAddress, None, false, st)
        else if NothingToClaim(earning) then ClaimOutcome(NoEarnings, None, false, st)
        else
          var call := PayoutCall(to, earning);
          match env.transfer(to, earning)
          case Err(cause) => ClaimOutcome(TransferFailed(Solana.TransferErrorText(cause)), Some(call), false, st)
          case Ok(t) =>
            var reply := Claimed(t.signature, earning, to, ExplorerUrl(t.signature, env.clusterEnv));
            match env.reset
            case ResetThrew(m) => ClaimOutcome(TransferFailed(m), Some(call), true, st)
            case ResetIgnored => ClaimOutcome(reply, Some(call), true, st)
            case ResetApplied => ClaimOutcome(reply, Some(call), true, Store.ResetEarning(st, apiId))
  }

  /** A successful claim whose reset was applied leaves the listing with earning 0 when read back. */
  lemma ClaimThenReadShowsZero(st: Store.State, req: ClaimRequest, env: ClaimEnv)
    requires HandleClaim(st, req, env).reply.Claimed? && env.reset.ResetApplied?
    ensures ClaimedListing(HandleClaim(st, req, env).state, req.apiId.value).Some?
    ensures EarningOf(ClaimedListing(HandleClaim(st, req, env).state, req.apiId.value).value) == Finite(0.0)
  {
    Store.ResetThenRead(st, req.apiId.value);
  }

  /** Once a claim succeeded and its reset was applied, claiming the same listing again pays nothing and is refused. */
  lemma SecondClaimRefused(st: Store.State, req: ClaimRequest, env: ClaimEnv)
    requires HandleClaim(st, req, env).reply.Claimed? && env.reset.ResetApplied?
    ensures var second := HandleClaim(HandleClaim(st, req, env).state, req, env);
      second.reply == NoEarnings && second.payout.None? && !second.paid
  {
    var st' := HandleClaim(st, req, env).state;
    Store.ResetThenRead(st, req.apiId.value);
    var k := Store.FindListing(st, req.apiId.value).value;
    assert st'.listings[k].ownerId == st.listings[k].ownerId;
  }

  /**
   * When the payout goes through but the reset request throws, the claim is reported as a
   * failed transfer while the owner has been paid and the earning is still there to claim again.
   */
  lemma ResetFailureAfterPayout(st: Store.State, req: ClaimRequest, env: ClaimEnv)
    requires HandleClaim(st, req, env).paid
    requires env.reset.ResetThrew?
    ensures HandleClaim(st, req, env).reply == TransferFailed(env.reset.message)
    ensures HandleClaim(st, req, env).state == st
    ensures ClaimStatus(HandleClaim(st, req, env).reply) == 500
  {
  }

  /**
   * A reset the datastore does not apply goes unnoticed: the claim reports success, and the
   * same claim, repeated, pays the same earning out again.
   */
  lemma UnappliedResetPaysTwice(st: Store.State, req: ClaimRequest, env: ClaimEnv)
    requires HandleClaim(st, req, env).reply.Claimed?
    requires env.reset.ResetIgnored?
    ensures var first := HandleClaim(st, req, env);
      var second := HandleClaim(first.state, req, env);
      && second.reply == first.reply
      && second.payout == first.payout
      && second.paid
  {
  }

  /**
   * The claim scenario, paid through `transferUSDC` as written over a ledger that accepts
   * everything and confirms every signature without an execution error (so the written and
   * the confirmation-checking transfers coincide here), with the reset applied: a listing with
   * 12.345 USDC earned is claimed, 12 345 000 smallest units go out, and it then reads 0.
   */
  lemma ClaimScenario(st: Store.State, apiId: string, env: ClaimEnv,
                      codecs: Solana.KeyCodecs, secretEnv: Option<string>, ledger: Solana.Ledger)
    requires apiId != "" && env.lookupFailure.None? && env.reset.ResetApplied?
    requires ClaimedListing(st, apiId).Some? && ClaimedListing(st, apiId).value.earning == Some(Finite(12.345))
    requires Solana.IsValidAddress(env.keys, ClaimedListing(st, apiId).value.ownerId)
    requires Solana.LoadKeypair(secretEnv, codecs).Ok?
    requires forall m: string, o: string :: env.keys.ata(m, o).Ok?
    requires forall a: string :: ledger.accountExists(a)
    requires forall i: Solana.TransferInstruction :: ledger.send(i).Sent?
    requires forall sig: string :: ledger.confirm(sig) == Solana.ConfirmResolved(false)
    requires forall to: string, amount: Num ::
               env.transfer(to, amount) == Solana.TransferUsdc(env.keys, codecs, secretEnv, env.clusterEnv, ledger, to, amount)
    ensures var out := HandleClaim(st, ClaimRequest(Some(apiId)), env);
      var owner := ClaimedListing(st, apiId).value.ownerId;
      && out.reply.Claimed? && out.reply.amount == Finite(12.345) && out.reply.to == owner
      && ClaimStatus(out.reply) == 200
      && env.transfer(owner, Finite(12.345)).value.instruction.amount == 12345000
      && EarningOf(ClaimedListing(out.state, apiId).value) == Finite(0.0)
  {
    var req := ClaimRequest(Some(apiId));
    var owner := ClaimedListing(st, apiId).value.ownerId;
    assert PassesGuards(st, req, env);
    assert Solana.SubmitTransfer(env.keys, codecs, secretEnv, env.clusterEnv, ledger, owner, Finite(12.345)).Ok?;
    assert Solana.SmallestUnits(12.345) == 12345000;
    ClaimThenReadShowsZero(st, req, env);
  }

  /**
   * A listing whose stored earning is text that is not a number passes every guard, and
   * `transferUSDC` as written then fails converting NaN to smallest units: the claim is a 500
   * failed transfer carrying that error, nothing is sent and the store is unchanged.
   */
  lemma NonNumericEarningFailsAtPayout(st: Store.State, apiId: string, env: ClaimEnv,
                                       codecs: Solana.KeyCodecs, secretEnv: Option<string>, ledger: Solana.Ledger)
    requires apiId != "" && env.lookupFailure.None?
    requires ClaimedListing(st, apiId).Some? && ClaimedListing(st, apiId).value.earning == Some(NaN)
    requires Solana.IsValidAddress(env.keys, ClaimedListing(st, apiId).value.ownerId)
    requires Solana.LoadKeypair(secretEnv, codecs).Ok?
    requires forall m: string, o: string :: env.keys.ata(m, o).Ok?
    requires forall a: string :: ledger.accountExists(a)
    requires forall to: string, amount: Num ::
               env.transfer(to, amount) == Solana.TransferUsdc(env.keys, codecs, secretEnv, env.clusterEnv, ledger, to, amount)
    ensures var out := HandleClaim(st, ClaimRequest(Some(apiId)), env);
      && out.payout == Some(PayoutCall(ClaimedListing(st, apiId).value.ownerId, NaN))
      && !out.paid
      && out.reply == TransferFailed(Solana.TRANSFER_FAILED_PREFIX + Solana.AMOUNT_NOT_INTEGER_MESSAGE)
      && ClaimStatus(out.reply) == 500
      && out.state == st
  {
    var owner := ClaimedListing(st, apiId).value.ownerId;
    assert Solana.SubmitTransfer(env.keys, codecs, secretEnv, env.clusterEnv, ledger, owner, NaN)
        == Err(Solana.AmountNotInteger);
  }

  /**
   * Composed with the confirmation-checking transfer, a successful claim submitted one
   * `transferChecked` of `floor(earning * 10^6)` units with 6 decimals to the owner's USDC
   * account, and its execution was confirmed without error.
   */
  lemma ClaimPaysFlooredEarning(st: Store.State, req: ClaimRequest, env: ClaimEnv,
                                codecs: Solana.KeyCodecs, secretEnv: Option<string>, ledger: Solana.Ledger)
    requires forall to: string, amount: Num ::
               env.transfer(to, amount) == Solana.TransferUsdcChecked(env.keys, codecs, secretEnv, env.clusterEnv, ledger, to, amount)
    requires HandleClaim(st, req, env).reply.Claimed?
    ensures var out := HandleClaim(st, req, env);
      var t := env.transfer(out.reply.to, out.reply.amount).value;
      var mint := Solana.UsdcMint(env.clusterEnv);
      && out.reply.amount.Finite?
      && t.instruction.amount == Solana.SmallestUnits(out.reply.amount.value)
      && t.instruction.decimals == Solana.USDC_DECIMALS
      && env.keys.ata(mint, env.keys.parse(out.reply.to).value) == Ok(t.instruction.destination)
      && ledger.confirm(t.signature) == Solana.ConfirmResolved(false)
  {
  }
}
