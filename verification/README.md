# FluxAPI payment gateway — a Dafny model

FluxAPI is a marketplace where providers list HTTP APIs. Consumers pay per call in USDC on
Solana, and a gateway acts as a paywall and proxy in front of each upstream API. This project
models the core of that gateway and proves properties of the model:

- **Payment verification** (`Solana.Verify`). It takes a transaction signature, fetches the
  transaction and decides whether it paid the expected amount to the payment wallet's USDC
  account within the freshness window. The checks run in a fixed order, and the first one that
  fails decides the verdict. Prices and credits are JavaScript numbers that may be NaN: a listing
  whose `costPerRequest` is missing or holds non-numeric text, or a null `uiAmount`, makes the
  amount check pass for any transaction that reaches it. (A price of `null`, `""` or `false`
  is read as 0 by the subtraction, so it is checked against 0 rather than passed.) A version-0
  transaction has no `accountKeys`, so one that moves USDC is refused with the resulting error.
- **The paywall** (`Gateway.HandleCall`, `POST /fluxapi/`):
  - resolves the listing's metadata;
  - answers 402 with payment instructions when no signature is given;
  - otherwise verifies the payment and forwards the call upstream as a POST or a GET;
  - logs usage, with the payment on success and with status 500 on failure.
- **The payout** (`Gateway.HandleClaim`, `POST /claim`). It pays a listing's whole earning to
  its owner with `transferUSDC`, then resets the earning to 0.
- **The pieces of `lib/solana.js` these rely on.** They are the mint per cluster, loading the
  operator key from JSON or base58 text, the conversion to smallest units, address validation
  and the balance read.
- **The in-memory listing store.** It covers `/store-listing`, `/listings` (newest first), the
  lookup and reset of earnings, the usage log and the `/usage/:apiId` projection.
- **The marketplace page's filter and tag list.** The filter drops repeated cids and applies a
  case-insensitive search; `tagsArray` shows the tags.

Network calls, cryptography and the datastores' internals are not modelled as code. A handler
receives its collaborators' answers as parameters: the transaction fetch, the upstream answer
and the reset request. Collaborators that take arguments are passed as functions: the
verifier, key parsing, token-account derivation, the upstream endpoint and the payout. The
handler's outcome records which calls it made, so a contract can state, for example, that the
verifier was asked for exactly the listing's price with a 300-second window.

Modules:
- `Base`: `Option`, `Result` and `findIndex`.
- `Text`: JavaScript's `toLowerCase` (ASCII), `trim`, `includes`, `split` and `join`.
- `Solana`: `lib/solana.js`.
- `Store`: the listing and usage store.
- `Gateway`: the two handlers.
- `Marketplace`: `frontend/app/marketplace/page.tsx`.

In these places the code does something a reader may not expect, and the model follows the code:
- `transferUSDC` never looks at the execution error that `confirmTransaction` resolves with.
  See Findings.
- When the earnings reset throws after a payout, the claim reports "USDC transfer failed",
  not a separate persistence failure.
- The reset is a `fetch` that resolves whatever the HTTP status is. So when the datastore does
  not apply it, the claim still reports success.
- A listing's earning is whatever JSON `/store-listing` was given. Text that is not a number is
  truthy and `"abc" <= 0` is false, so the claim passes its last guard and hands NaN to
  `transferUSDC`, which fails converting it with `BigInt` and is reported as a 500 failed
  transfer (`Gateway.NonNumericEarningFailsAtPayout`).
- The paywall never credits the listing's earning. `Gateway.HandleCall` leaves the listings
  unchanged.
- Nothing records which signatures have been spent: a verified signature can be used again
  (`Gateway.SignatureReplayAccepted`).

The listing store and the usage log are one `Store.State`. This is a modelling choice. In the
source, only `/store-listing` and `/listings` use the in-memory array (index.js:52 and :70). The
claim's lookup and reset, `logUsage` and the usage query always go to the MongoDB client or its
HTTP endpoint. So the lemmas that combine storing, claiming and logging describe a deployment
where one datastore serves all of them.

The store lower-cases and trims the owner address. The model proves the stored owner has no
upper-case letter. Base58 is case-sensitive, so a lower-cased key generally names a different
key or none. Key parsing is an opaque function here, so the model does not say which.

## Model

| member | source | states |
|---|---|---|
| Base.FindFirst | x402-handler/lib/solana.js:112 | the index found is the first element satisfying the predicate; None exactly when no element does |
| Text.Lower | frontend/app/marketplace/page.tsx:53-56 | lower-casing keeps the length, maps each character, and leaves no upper-case ASCII letter |
| Text.LowerIdempotent | frontend/app/marketplace/page.tsx:53-56 | lower-casing twice equals lower-casing once |
| Text.Trim | x402-handler/index.js:48 | the trimmed string has no white space at either end and is what lies between runs of white space at the start and end of the input |
| Text.TrimKeepsNoUpper | x402-handler/index.js:48 | trimming a lower-cased string keeps it free of upper-case letters |
| Text.Split | frontend/app/marketplace/page.tsx:124 | splitting yields at least one piece and no piece contains the separator |
| Text.JoinSplit | frontend/app/marketplace/page.tsx:124 | joining the pieces of a split with the separator restores the string |
| Text.SplitJoin | frontend/app/marketplace/page.tsx:124 | splitting a join of separator-free pieces restores the pieces |
| Solana.ClusterName | x402-handler/lib/solana.js:51 | an unset or empty cluster variable means `devnet`; any other value is the cluster name itself |
| Solana.UsdcMint | x402-handler/lib/solana.js:50-56 | the mainnet mint exactly when the cluster is `mainnet-beta`, the devnet mint otherwise |
| Solana.IsValidAddress | x402-handler/lib/solana.js:264-271 | valid exactly when the text parses as a key that is on the curve; a parse failure is invalid |
| Solana.SecretFormatOf | x402-handler/lib/solana.js:34 | the secret is read as a JSON array exactly when it starts with `[` |
| Solana.KeyErrorText | x402-handler/lib/solana.js:25-44 | an unset key gives the fixed not-set message; a decoding failure gives `Failed to parse SOLANA_PRIVATE_KEY: ` followed by the decoder's message |
| Solana.LoadKeypair | x402-handler/lib/solana.js:25-44 | an unset or empty variable is KeyNotSet; a decoder or keypair failure is KeyUnparsable with the format tried and its message; a secret that decodes and builds a keypair gives exactly that keypair |
| Solana.KeypairFormatDispatch | x402-handler/lib/solana.js:34-40 | a JSON-array secret does not depend on the base58 decoder, and a base58 secret does not depend on the JSON decoder |
| Solana.SmallestUnits | x402-handler/lib/solana.js:200 | the unit count is the floor of amount times 10^6 |
| Solana.UiAmount | x402-handler/lib/solana.js:251 | the USDC figure times 10^6 is the raw amount |
| Solana.SmallestUnitsOfUiAmount | x402-handler/lib/solana.js:200 | converting raw units to USDC and back to smallest units is the identity |
| Solana.UiAmountOfSmallestUnits | x402-handler/lib/solana.js:200 | flooring to smallest units loses less than one unit (10^-6 USDC) and never rounds up |
| Solana.PreAmount | x402-handler/lib/solana.js:112-129 | an account index without a pre-balance entry counts as 0 |
| Solana.Verify | x402-handler/lib/solana.js:67-162 | the first failing check decides the verdict, in order: fetch error, not found, too old, failed on chain, null meta, no balances, unset recipient, recipient not a key, version-0 keys lookup, then amount (mismatch exactly when the difference is a number beyond 10^-6); a valid verdict carries the signature, block time, credit and recipient |
| Solana.FirstRecipientEntryWins | x402-handler/lib/solana.js:110-138 | the credit is taken from the first post-balance entry for the recipient's USDC account; later entries are ignored |
| Solana.PreAmountFirstMatch | x402-handler/lib/solana.js:112 | the pre-balance comes from the first pre entry with the same account index |
| Solana.NoRecipientEntryMeansZero | x402-handler/lib/solana.js:107-147 | with no entry for the recipient's account the credit is 0, so the payment is accepted exactly when the price is NaN or within 10^-6 of 0 |
| Solana.ExactNewAccountPaymentAccepted | x402-handler/lib/solana.js:107-157 | a fresh, successful transaction crediting exactly the expected amount to a new recipient account is valid, with that amount and block time |
| Solana.ExpiredRegardlessOfAmount | x402-handler/lib/solana.js:87-92 | a transaction older than the window is too old whatever it pays |
| Solana.FreshnessBoundary | x402-handler/lib/solana.js:88-92 | an age equal to the window is accepted as fresh; a null block time counts as time 0 |
| Solana.UnpricedPaymentAccepted | x402-handler/lib/solana.js:141-149 | with a NaN price, every transaction that reaches the amount check is accepted |
| Solana.NullCreditAcceptsAnyPrice | x402-handler/lib/solana.js:127-149 | a null `uiAmount` on the recipient's first entry makes the credit NaN, and the payment is accepted at any price |
| Solana.VersionZeroPaymentRefused | x402-handler/lib/solana.js:79-118 | a version-0 transaction with any USDC post-balance entry is refused with the error of the failed `accountKeys` lookup, whatever it pays |
| Solana.VerifyStrict | x402-handler/lib/solana.js:141-147 | corrected: a valid verdict means a numeric price was received to within 10^-6; a verdict the written verifier accepts with a NaN price or credit becomes an amount mismatch carrying the received amount; with a numeric price and credit, and for every refusal, the written verdict |
| Solana.VerifyStrictAgrees | x402-handler/lib/solana.js:141-147 | with a numeric price and a numeric credit the corrected verifier answers what the written one does |
| Solana.TransferErrorText | x402-handler/lib/solana.js:228-229 | every payout error message starts with `USDC transfer failed: `; a missing recipient account and a NaN amount have their fixed messages |
| Solana.SubmitTransfer | x402-handler/lib/solana.js:171-221 | each step's failure is reported in order (key, recipient address, either derivation, missing recipient account with its fixed message, a NaN amount that `BigInt` refuses, send); when all succeed, the result is the send's signature with a transfer of floor(amount*10^6) units, 6 decimals, from the operator's to the recipient's USDC account |
| Solana.TransferUsdc | x402-handler/lib/solana.js:171-230 | as written: a submitted transfer whose confirmation resolves is returned as success, whatever execution error the confirmation reports; a confirmation that throws gives `ConfirmFailed` with its message; a submission failure is passed through; an execution error is never reported |
| Solana.TransferUsdcIgnoresExecutionError | x402-handler/lib/solana.js:224-226 | a submitted transfer whose confirmation reports an execution error is returned as a success |
| Solana.TransferUsdcFailedExecutionExample | x402-handler/lib/solana.js:224-226 | a concrete payout whose confirmation reports a failed execution is returned as a success |
| Solana.TransferUsdcChecked | x402-handler/lib/solana.js:224-226 | corrected: success exactly when the transfer was submitted and its confirmation reports no execution error |
| Solana.TransferUsdcCheckedRefines | x402-handler/lib/solana.js:171-230 | the corrected transfer agrees with the written one on every success of its own and on every failure of the written one |
| Solana.UsdcBalance | x402-handler/lib/solana.js:239-257 | the balance is the token account's raw amount over 10^6, 0 when the address, derivation or account read fails, never negative, and a whole number of smallest units |
| Solana.BalanceInSmallestUnits | x402-handler/lib/solana.js:239-257 | the balance of an existing account converts back to exactly its raw amount; any failing step reads as 0 |
| Store.NormalizeOwner | x402-handler/index.js:48 | the stored owner is the lower-cased owner without the white space at either end; a missing owner is stored as the empty string |
| Store.NormalizeOwnerIdempotent | x402-handler/index.js:48 | normalising an already stored owner changes nothing |
| Store.StoreListing | x402-handler/index.js:37-63 | a missing or empty cid is a 400; an owner that is not a string throws and is a 500; both change nothing; otherwise exactly one listing is appended with the new id, the cid, the normalised owner, the earning (default 0) and the creation time |
| Store.StoredListingIsFound | x402-handler/index.js:37-54 | a listing stored under a cid no listing had is what a later lookup of that cid finds, with the normalised owner and the stored earning (0 by default) |
| Store.InsertNewest | x402-handler/index.js:70-72 | inserting adds exactly the new listing |
| Store.InsertNewestSorted | x402-handler/index.js:70-72 | inserting into a newest-first list keeps it newest-first |
| Store.SortNewest | x402-handler/index.js:70-72 | the sorted listings are newest first and a permutation of the input |
| Store.SortNewestFixesSorted | x402-handler/index.js:70-72 | sorting a newest-first list leaves it unchanged |
| Store.ListListings | x402-handler/index.js:66-74 | the listings returned are newest first and a permutation of those stored, and the store keeps the sorted order because the sort is in place |
| Store.ListListingsIdempotent | x402-handler/index.js:70-74 | listing twice returns the same listings and leaves the same store |
| Store.FindListing | x402-handler/index.js:339-340 | the listing found is the first with that cid; None exactly when no listing has it |
| Store.ResetEarning | x402-handler/index.js:365-379 | the first listing with the cid gets earning 0 and every other listing and the usage log are unchanged; an unknown cid changes nothing |
| Store.ResetThenRead | x402-handler/index.js:365-379 | after a reset the same listing is found and reads earning 0 |
| Store.LogUsage | x402-handler/index.js:190-196 | logging appends exactly the entry and leaves the listings unchanged |
| Store.LogsOf | x402-handler/index.js:299 | every entry returned is a logged entry for that API, and every logged entry for it is returned |
| Store.LogsOfAppend | x402-handler/index.js:190-196 | appending a log extends that listing's logs by exactly that log, in order, and leaves other listings' logs alone |
| Store.QueryUsage | x402-handler/index.js:299 | at most 1000 entries, all for that API and all logged; all of them when there are at most 1000 |
| Store.UsageFor | x402-handler/index.js:293-308 | an empty id is a 400; a query that throws is a 500 with the fixed message `Failed to fetch usage logs`; otherwise the report has one entry per log, with its timestamp, status and time, and the count is the number of logs |
| Store.UsageHidesPayments | x402-handler/index.js:300-304 | the usage report does not depend on the payments recorded in the logs |
| Gateway.UpstreamRequest | x402-handler/index.js:162-182 | a truthy payload is POSTed as JSON with the access code in `x-fluxapi-access-code`; otherwise a GET with it in `x-api-key`; an empty key adds no header |
| Gateway.AfterUpstream | x402-handler/index.js:166-222 | the call succeeds iff the upstream answered with parseable JSON and the log did not throw; at most one entry is appended, for the listing, carrying a payment iff the call succeeded |
| Gateway.HandleCall | x402-handler/index.js:129-240 | 400 iff no cid; 404 iff no metadata; 402 with wallet, price and USDC iff no signature; the verifier is asked for exactly the price within 300 s; 402 with its reason when invalid; the upstream is called iff the payment is valid; listings never change |
| Gateway.LogOnlyAfterVerifiedPayment | x402-handler/index.js:142-222 | usage is logged only for calls whose payment was verified, one entry for the listing per call |
| Gateway.VerifiedCallSucceeds | x402-handler/index.js:184-207 | a parsed upstream answer of any status is a 200 carrying the data and the payment receipt, and logs one entry with the upstream status, signature and price |
| Gateway.FailedUpstreamLogged | x402-handler/index.js:209-221 | an unreachable upstream or an unparseable answer is a 500 and logs one entry with status 500 and no payment |
| Gateway.SignatureReplayAccepted | x402-handler/index.js:143-207 | a signature that paid for one call pays for the same call again and logs a second paid entry |
| Gateway.UnpaidCallScenario | x402-handler/index.js:224-234 | a call without a signature to a listing priced 0.5 is a 402 asking for 0.5 USDC, forwards nothing and changes nothing |
| Gateway.UnpricedListingServesAnyTransaction | x402-handler/index.js:145-207 | with the written verifier, a listing whose price is missing or non-numeric text (NaN) forwards the call for any transaction that reaches the amount check, whatever it paid |
| Gateway.HandleClaim | x402-handler/index.js:329-399 | the guards run in order (no id 400, lookup failure 500 with its message or the fallback text when it is empty, unknown 404, invalid owner 400, earning <= 0 400, which is false for a NaN earning); a payout is requested exactly when they all pass, for the owner and the whole earning, NaN included; it is paid exactly when the transfer succeeds; a failed payout is a 500 with the transfer's message; a paid claim whose reset does not throw replies Claimed with signature, amount, owner and explorer link; only a success whose reset was applied changes the store |
| Gateway.ClaimThenReadShowsZero | x402-handler/index.js:356-379 | after a successful claim whose reset was applied, re-reading the listing shows earning 0 |
| Gateway.SecondClaimRefused | x402-handler/index.js:342-379 | after a successful claim whose reset was applied, claiming again is refused with no payout |
| Gateway.ResetFailureAfterPayout | x402-handler/index.js:355-394 | when the payout went through but the reset throws, the reply is a 500 transfer failure and the earning stays |
| Gateway.UnappliedResetPaysTwice | x402-handler/index.js:365-387 | when the datastore does not apply the reset, the claim reports success and a repeated claim pays the same earning again |
| Gateway.ClaimScenario | x402-handler/index.js:329-387 | a listing with 12.345 USDC earned and a valid owner, paid through `transferUSDC` as written over a ledger that accepts everything and confirms without execution errors, with the reset applied: the claim succeeds, 12345000 units go out, and the listing then reads 0 |
| Gateway.NonNumericEarningFailsAtPayout | x402-handler/index.js:342-394 | an earning stored as non-numeric text passes every guard, is handed to the payout as NaN, and `transferUSDC` as written fails converting it: a 500 failed transfer with that message, nothing paid, the store unchanged |
| Gateway.ClaimPaysFlooredEarning | x402-handler/index.js:354-387 | with the confirmation-checking transfer, a successful claim sent floor(earning*10^6) units with 6 decimals to the owner's USDC account and execution was confirmed without error |
| Marketplace.MatchesAsWritten | frontend/app/marketplace/page.tsx:52-57 | the search test throws exactly when name, description and category miss and the tags are truthy but not a string; a match it reports is an intended match |
| Marketplace.MatchesAsWrittenAgrees | frontend/app/marketplace/page.tsx:52-57 | on listings with missing or string tags the written test agrees with the intended one |
| Marketplace.KeptIndices | frontend/app/marketplace/page.tsx:46-59 | the kept positions increase, are first occurrences of a truthy cid passing the test, and include every such position |
| Marketplace.FilterListings | frontend/app/marketplace/page.tsx:46-59 | the single pass with a `seen` set shows exactly the items at the kept positions, in order |
| Marketplace.FilteredCidsDistinct | frontend/app/marketplace/page.tsx:48-50 | no cid is shown twice and no item without a cid is shown |
| Marketplace.FilteredMatchSearch | frontend/app/marketplace/page.tsx:51-57 | with a non-empty search every item shown matches it |
| Marketplace.FilteredExactly | frontend/app/marketplace/page.tsx:46-59 | an item is shown exactly when it is, at some position, the first occurrence of its cid and passes the search |
| Marketplace.EmptySearchShowsEveryCid | frontend/app/marketplace/page.tsx:48-51 | with an empty search every truthy cid of the listing is shown |
| Marketplace.FailingFirstOccurrenceHidesDuplicates | frontend/app/marketplace/page.tsx:48-57 | when the first item with a cid fails the search, no item with that cid is shown, even a later matching one |
| Marketplace.SearchCaseInsensitive | frontend/app/marketplace/page.tsx:53-56 | lower-casing the search text does not change what is shown |
| Marketplace.FilterAsWritten | frontend/app/marketplace/page.tsx:46-59 | as written: the filter throws exactly when a first occurrence with array or other non-string tags reaches the tag test; when it does not throw it shows what the corrected filter shows |
| Marketplace.FilterAsWrittenAgrees | frontend/app/marketplace/page.tsx:46-59 | when no listing has array or other non-string tags, the written filter shows what the intended one does |
| Marketplace.ArrayTagsBreakSearch | frontend/app/marketplace/page.tsx:56 | a listing with array tags, searched for one of its tags, makes the written filter throw while the intended one shows it |
| Marketplace.DropEmpty | frontend/app/marketplace/page.tsx:124 | empty strings are dropped and every non-empty one kept |
| Marketplace.DropEmptyAppend | frontend/app/marketplace/page.tsx:124 | dropping empty strings distributes over concatenation, so order and repeats are kept |
| Marketplace.TagsArray | frontend/app/marketplace/page.tsx:123-125 | tags from a string are non-empty, trimmed and comma-free; an array is shown as is; anything else shows none |
| Marketplace.TagsArrayOfPieces | frontend/app/marketplace/page.tsx:123-125 | the tags of any string joined from comma-free pieces are those pieces trimmed, with the empty ones dropped, in order |
| Marketplace.TagsArrayOfJoin | frontend/app/marketplace/page.tsx:123-125 | non-empty, trimmed, comma-free tags joined with commas read back as the same tags |

## Left out

- Network I/O. This covers the RPC connection, `getTransaction`, `sendTransaction`,
  `confirmTransaction`, `getAccount`, the upstream `fetch`, the IPFS metadata fetch and the
  datastore requests. They become parameters, their answers or answer functions.
- Ed25519, base58 and associated-token-address derivation. They are opaque functions in
  `Solana.KeyOracle` and `Solana.KeyCodecs`.
- `generateApiKeyFromUuid`. It is an opaque function in `Gateway.CallEnv`.
- IEEE double arithmetic. Amounts are exact reals, so `Solana.SmallestUnits` of 1.005 is
  1005000, where the source's `Math.floor(1.005 * 1_000_000)` gives 1004999.
- Prices and earnings are read as numbers: `Base.Num` is a finite value or NaN, the value
  JavaScript arithmetic and comparison give the stored JSON. The replies and the usage log
  carry the same reading, not the raw value, so a price or earning given as text such as
  `"0.5"` appears as the number 0.5, and an earning of `true` is the number 1.
- `Solana.Verify`: the `Amount mismatch` message is a constructor carrying both amounts, not
  JavaScript's number-to-text rendering. The same goes for the other thrown exceptions: they
  are constructors rather than messages.
- `Text.Lower`: only ASCII letters are case-mapped; `toLowerCase` maps all of Unicode.
- `Store.QueryUsage`: when more than 1000 logs match, it states only the bound, not which 1000
  entries or in which order. The MongoDB query that picks them (`lib/mongodb.js`) is not part
  of this model.
- The MongoDB backend. This covers `lib/mongodb.js`, the `USE_MEMORY_STORAGE` switch and the
  MongoDB branch of `/store-listing`. The claim's lookup and reset, `logUsage` and the usage
  query use that backend in the source. Here they act on the same `Store.State` as the
  in-memory listing store, as described above.
- `Store.SortNewest`: the contract states newest first and a permutation, not stability. The
  source's `Array.prototype.sort` is stable, so equally old listings keep their order.
- Creation times are integers, not ISO strings parsed back by `new Date`.
- Listing ids (`crypto.randomUUID`) are a parameter.
- `Gateway.AfterUpstream`: one elapsed time is used for both the success entry and the failure
  entry. The source measures it again in its `catch`.
- Endpoints outside the core: `/fluxapi/payment-info`, `/api/health/:id`, `/test-api`,
  `/keygen`, `/mock-usage/:apiId`, `/earnings`, `/balance/:address` and `/health`. The balance
  read that `/balance/:address` makes is modelled (`Solana.UsdcBalance`); the route itself
  is not.
- The marketplace page's fetch of `/listings` and of each IPFS document, and all rendering.
  The metadata fields `name`, `description` and `category` are strings, with "" for a missing
  field. Non-string values of those fields, which would also make `toLowerCase` throw, are
  not modelled.
- Concurrency. Each handler call is atomic here. The double payout that two claims could cause
  by racing is not modelled. The sequential gaps are modelled:
  - `Gateway.SignatureReplayAccepted`
  - `Gateway.UnappliedResetPaysTwice`
  - `Gateway.ResetFailureAfterPayout`

## Findings

| source | as written | input that shows it | evidently intended | confidence | as-written member | corrected member |
|---|---|---|---|---|---|---|
| frontend/app/marketplace/page.tsx:56 | the search calls `api.tags.toLowerCase()` on any truthy `tags`, so a listing whose tags are an array (which `tagsArray` at lines 123-125 accepts) throws a TypeError and the whole filtered list is lost | one listing `{cid: "bafy1", tags: ["weather"]}` and the search text `weather` | search each tag of an array, as the card's tag list does | not executed | Marketplace.FilterAsWritten, shown by Marketplace.ArrayTagsBreakSearch | Marketplace.FilterListings |
| x402-handler/lib/solana.js:141-142 | `Math.abs(recipientReceived - expectedAmount) > 0.000001` is false when either amount is NaN, so a listing whose metadata has a missing `costPerRequest`, or one holding non-numeric text, accepts any transaction that reaches the amount check (fresh, successful, with balance lists, a parseable recipient and readable account keys), including one that pays nothing | metadata without `costPerRequest`, and any recent successful transaction that carries token balances | refuse the payment unless a numeric price was received to within the tolerance | not executed | Solana.Verify, shown by Solana.UnpricedPaymentAccepted and Gateway.UnpricedListingServesAnyTransaction | Solana.VerifyStrict |
| x402-handler/lib/solana.js:224 | `await connection.confirmTransaction(signature, 'confirmed')` resolves with `{value: {err}}` when execution failed, and the result is discarded, so a failed payout returns its signature as a success | a ledger whose confirmation resolves with an execution error for the submitted transfer | treat a confirmation that reports an execution error as a failed transfer | not executed | Solana.TransferUsdc, shown by Solana.TransferUsdcFailedExecutionExample | Solana.TransferUsdcChecked |
