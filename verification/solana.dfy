/**
 * The ledger side of the gateway (x402-handler/lib/solana.js): choosing the USDC
 * mint for the configured cluster, loading the operator's secret key, deciding
 * whether a claimed transaction pays the expected recipient, paying USDC out and
 * reading a USDC balance.
 *
 * Network calls are replaced by their answers, passed in as parameters, and the
 * public-key machinery (base58 parsing, the ed25519 curve test, associated token
 * address derivation) by a `KeyOracle` of opaque functions.
 */
module Solana {
  import opened Base
  import Text

  const USDC_MINT_DEVNET: string := "Gh9ZwEmdLJ8DscKNTkTqPbNwLNNBjuSzaG9Vp2KGtKJr"
  const USDC_MINT_MAINNET: string := "EPjFWdd5AufqSSqeM2qN1xzybapC8G4wEGGkZwyTDt1v"
  const MAINNET_CLUSTER: string := "mainnet-beta"
  const DEFAULT_CLUSTER: string := "devnet"
  /** USDC has six decimals: one token is 10^6 smallest units. */
  const USDC_DECIMALS: nat := 6
  const UNITS_PER_USDC: nat := 1000000
  /** The largest difference between received and expected amounts still accepted. */
  const AMOUNT_TOLERANCE: real := 0.000001
  const TRANSFER_FAILED_PREFIX: string := "USDC transfer failed: "
  const KEY_NOT_SET_MESSAGE: string := "SOLANA_PRIVATE_KEY not set in environment"
  const KEY_PARSE_PREFIX: string := "Failed to parse SOLANA_PRIVATE_KEY: "
  const NO_RECIPIENT_ACCOUNT_MESSAGE: string :=
    "Recipient does not have a USDC token account. They need to create one first or you need to create it for them."
  /** The RangeError `BigInt` throws for `Math.floor(NaN)`. */
  const AMOUNT_NOT_INTEGER_MESSAGE: string := "The number NaN cannot be converted to a BigInt because it is not an integer"

  /*** Cluster and mint ***/

  /** `process.env.SOLANA_CLUSTER || 'devnet'`: an unset or empty variable means devnet. */
  function ClusterName(env: Option<string>): (cluster: string)
    ensures cluster != ""
    ensures env.None? || env.value == "" ==> cluster == DEFAULT_CLUSTER
    ensures env.Some? && env.value != "" ==> cluster == env.value
  {
    match env
    case Some(c) => if c == "" then DEFAULT_CLUSTER else c
    case None => DEFAULT_CLUSTER
  }

  /** `getUsdcMint`: the mainnet mint for cluster `mainnet-beta`, the devnet mint for anything else. */
  function UsdcMint(clusterEnv: Option<string>): (mint: string)
    ensures mint == USDC_MINT_MAINNET <==> clusterEnv == Some(MAINNET_CLUSTER)
    ensures mint == USDC_MINT_DEVNET <==> clusterEnv != Some(MAINNET_CLUSTER)
  {
    assert USDC_MINT_MAINNET[0] != USDC_MINT_DEVNET[0];
    if ClusterName(clusterEnv) == MAINNET_CLUSTER then USDC_MINT_MAINNET else USDC_MINT_DEVNET
  }

  /*** Public keys ***/

  /**
   * The cryptographic and encoding primitives the source calls into. Each answers
   * `Err(message)` where the library throws.
   * - `parse`: `new PublicKey(s)`, giving the canonical base58 text of the key;
   * - `onCurve`: `PublicKey.isOnCurve`;
   * - `ata`: `getAssociatedTokenAddress(mint, owner)`, which refuses owners off the curve.
   */
  datatype KeyOracle = KeyOracle(
    parse: string -> Result<string, string>,
    onCurve: string -> bool,
    ata: (string, string) -> Result<string, string>)

  /** `isValidSolanaAddress`: the text parses as a public key that lies on the curve; a throw means false. */
  function IsValidAddress(keys: KeyOracle, address: string): (valid: bool)
    ensures valid ==> keys.parse(address).Ok?
    ensures keys.parse(address).Err? ==> !valid
    ensures keys.parse(address).Ok? ==> (valid <==> keys.onCurve(keys.parse(address).value))
  {
    match keys.parse(address)
    case Ok(key) => keys.onCurve(key)
    case Err(_) => false
  }

  /*** Operator key ***/

  /** The two encodings `SOLANA_PRIVATE_KEY` may use. */
  datatype SecretFormat = JsonArray | Base58

  /** Text starting with `[` is read as a JSON byte array, anything else as base58. */
  function SecretFormatOf(secret: string): (f: SecretFormat)
    ensures f == JsonArray <==> |secret| > 0 && secret[0] == '['
  {
    if Text.StartsWith(secret, "[") then JsonArray else Base58
  }

  datatype Keypair = Keypair(publicKey: string, secretKey: seq<int>)

  /**
   * The decoders `getKeypairFromEnv` uses; each answers `Err(message)` where it throws.
   * - `parseJsonBytes`: `new Uint8Array(JSON.parse(s))`;
   * - `decodeBase58`: `bs58.decode(s)`;
   * - `fromSecretKey`: `Keypair.fromSecretKey`.
   */
  datatype KeyCodecs = KeyCodecs(
    parseJsonBytes: string -> Result<seq<int>, string>,
    decodeBase58: string -> Result<seq<int>, string>,
    fromSecretKey: seq<int> -> Result<Keypair, string>)

  datatype KeyError = KeyNotSet | KeyUnparsable(format: SecretFormat, message: string)

  function KeyErrorText(e: KeyError): (text: string)
    ensures e.KeyNotSet? ==> text == KEY_NOT_SET_MESSAGE
    ensures e.KeyUnparsable? ==> text == KEY_PARSE_PREFIX + e.message && Text.StartsWith(text, KEY_PARSE_PREFIX)
  {
    match e
    case KeyNotSet => KEY_NOT_SET_MESSAGE
    case KeyUnparsable(_, message) => KEY_PARSE_PREFIX + message
  }

  /** The secret key bytes, decoded with the decoder its format selects. */
  function DecodeSecret(secret: string, codecs: KeyCodecs): Result<seq<int>, string>
  {
    match SecretFormatOf(secret)
    case JsonArray => codecs.parseJsonBytes(secret)
    case Base58 => codecs.decodeBase58(secret)
  }

  /** `getKeypairFromEnv`: the keypair held by the `SOLANA_PRIVATE_KEY` text. */
  function LoadKeypair(env: Option<string>, codecs: KeyCodecs): (r: Result<Keypair, KeyError>)
    ensures r == Err(KeyNotSet) <==> env.None? || env.value == ""
    ensures r.Err? && r.error.KeyUnparsable? ==> r.error.format == SecretFormatOf(env.value)
    ensures r.Ok? ==>
      && env.Some? && DecodeSecret(env.value, codecs).Ok?
      && codecs.fromSecretKey(DecodeSecret(env.value, codecs).value) == Ok(r.value)
    ensures env.Some? && env.value != "" && DecodeSecret(env.value, codecs).Err? ==>
      r == Err(KeyUnparsable(SecretFormatOf(env.value), DecodeSecret(env.value, codecs).error))
    ensures env.Some? && env.value != "" && DecodeSecret(env.value, codecs).Ok? ==>
      var made := codecs.fromSecretKey(DecodeSecret(env.value, codecs).value);
      && (made.Ok? ==> r == Ok(made.value))
      && (made.Err? ==> r == Err(KeyUnparsable(SecretFormatOf(env.value), made.error)))
  {
    if env.None? || env.value == "" then Err(KeyNotSet)
    else
      var secret := env.value;
      match DecodeSecret(secret, codecs)
      case Err(m) => Err(KeyUnparsable(SecretFormatOf(secret), m))
      case Ok(bytes) =>
        match codecs.fromSecretKey(bytes)
        case Err(m) => Err(KeyUnparsable(SecretFormatOf(secret), m))
        case Ok(pair) => Ok(pair)
  }

  /** A secret in JSON-array form never consults the base58 decoder, and vice versa. */
  lemma KeypairFormatDispatch(secret: string, codecs: KeyCodecs,
                              json: string -> Result<seq<int>, string>,
                              base58: string -> Result<seq<int>, string>)
    ensures SecretFormatOf(secret) == JsonArray ==>
      LoadKeypair(Some(secret), codecs) == LoadKeypair(Some(secret), codecs.(decodeBase58 := base58))
    ensures SecretFormatOf(secret) == Base58 ==>
      LoadKeypair(Some(secret), codecs) == LoadKeypair(Some(secret), codecs.(parseJsonBytes := json))
  {
  }

  /*** Amount conversions ***/

  /** `Math.floor(amount * 1_000_000)`: the payout in smallest units. */
  function SmallestUnits(amount: real): (units: int)
    ensures units as real <= amount * UNITS_PER_USDC as real < units as real + 1.0
  {
    (amount * UNITS_PER_USDC as real).Floor
  }

  /** `Number(raw) / 1_000_000`: a raw token amount as a USDC figure. */
  function UiAmount(units: int): (amount: real)
    ensures amount * UNITS_PER_USDC as real == units as real
  {
    units as real / UNITS_PER_USDC as real
  }

  /** Converting smallest units to USDC and back loses nothing. */
  lemma SmallestUnitsOfUiAmount(units: int)
    ensures SmallestUnits(UiAmount(units)) == units
  {
  }

  /** Flooring to smallest units drops less than one smallest unit. */
  lemma UiAmountOfSmallestUnits(amount: real)
    ensures UiAmount(SmallestUnits(amount)) <= amount < UiAmount(SmallestUnits(amount)) + AMOUNT_TOLERANCE
  {
    var u := SmallestUnits(amount);
    assert UiAmount(u) * 1000000.0 == u as real;
    assert u as real <= amount * 1000000.0 < u as real + 1.0;
  }

  /*** Payment verification ***/

  /** One entry of a transaction's pre- or post-token-balance list; `uiAmount` is null when the ledger leaves it out. */
  datatype TokenBalance = TokenBalance(accountIndex: int, mint: string, uiAmount: Option<real>)

  /** The execution metadata: whether execution recorded an error, and the token-balance snapshots. */
  datatype TxMeta = TxMeta(
    failed: bool,
    preTokenBalances: Option<seq<TokenBalance>>,
    postTokenBalances: Option<seq<TokenBalance>>)

  /**
   * A transaction's message. A legacy message lists its `accountKeys`; a version-0 message,
   * which the fetch returns because it allows version 0, keeps its keys in `staticAccountKeys`
   * and has no `accountKeys` field.
   */
  datatype TxMessage = Legacy(accountKeys: seq<string>) | Version0(staticAccountKeys: seq<string>)

  /** A fetched transaction: block time (null when unknown), metadata, message. */
  datatype TxRecord = TxRecord(blockTime: Option<int>, meta: Option<TxMeta>, message: TxMessage)

  /** What `connection.getTransaction` answered. */
  datatype TxFetch = FetchThrew(message: string) | NoTransaction | Transaction(tx: TxRecord)

  /** A throw inside `verifyPaymentTransaction`, caught by its outer handler. */
  datatype VerifyException =
    | RpcFailed(message: string)       // the transaction fetch threw
    | MetaMissing                      // destructuring a null `meta`
    | RecipientUnset                   // `new PublicKey(undefined)`: no payment wallet configured
    | RecipientNotAKey(message: string) // `new PublicKey(expectedRecipient)` threw
    | NoAccountKeys                    // indexing the `accountKeys` a version-0 message lacks

  datatype VerifyError =
    | TxNotFound       // 'Transaction not found or not confirmed'
    | TxTooOld         // 'Transaction too old'
    | TxFailedOnChain  // 'Transaction failed on chain'
    | NoTokenBalances  // 'No token balances found in transaction'
    | AmountMismatch(expected: Num, received: Num)
    | Caught(cause: VerifyException)

  datatype Verdict =
    | Valid(signature: string, timestamp: Option<int>, amount: Num, recipient: string)
    | Invalid(error: VerifyError)

  /** `currentTime - txTime`; JavaScript turns a null block time into 0. */
  function Age(tx: TxRecord, now: int): int
  {
    now - tx.blockTime.GetOr(0)
  }

  /** `parseFloat(uiAmount)`: a null amount reads as NaN. */
  function ParsedAmount(uiAmount: Option<real>): (n: Num)
    ensures n.Finite? <==> uiAmount.Some?
    ensures n.Finite? ==> n.value == uiAmount.value
  {
    match uiAmount
    case Some(a) => Finite(a)
    case None => NaN
  }

  /**
   * The post-balance entry is the recipient's USDC account: its mint is the USDC mint and
   * its account key is the recipient's associated token account. A derivation that throws
   * or an index without a key is skipped, as the source's inner `catch` does.
   */
  predicate IsRecipientEntry(post: TokenBalance, mint: string, recipientAta: Result<string, string>, keys: seq<string>)
  {
    && post.mint == mint
    && recipientAta.Ok?
    && 0 <= post.accountIndex < |keys|
    && keys[post.accountIndex] == recipientAta.value
  }

  /** The pre-balance of an account index: the first entry with that index, else 0. */
  function PreAmount(pres: seq<TokenBalance>, index: int): (a: Num)
    ensures (forall k :: 0 <= k < |pres| ==> pres[k].accountIndex != index) ==> a == Finite(0.0)
  {
    match FindFirst(pres, (p: TokenBalance) => p.accountIndex == index)
    case None => Finite(0.0)
    case Some(k) => ParsedAmount(pres[k].uiAmount)
  }

  /** The first post-balance entry that is the recipient's USDC account. */
  function RecipientEntry(posts: seq<TokenBalance>, mint: string, recipientAta: Result<string, string>, keys: seq<string>): Option<nat>
  {
    FindFirst(posts, (p: TokenBalance) => IsRecipientEntry(p, mint, recipientAta, keys))
  }

  /** `recipientReceived`: post minus pre of the first matching entry, 0 when none matches. */
  function Received(posts: seq<TokenBalance>, pres: seq<TokenBalance>, mint: string,
                    recipientAta: Result<string, string>, keys: seq<string>): Num
  {
    match RecipientEntry(posts, mint, recipientAta, keys)
    case None => Finite(0.0)
    case Some(i) => Minus(ParsedAmount(posts[i].uiAmount), PreAmount(pres, posts[i].accountIndex))
  }

  /** The account keys the scan can look up; a version-0 message offers none. */
  function ScannedKeys(msg: TxMessage): seq<string>
  {
    match msg
    case Legacy(keys) => keys
    case Version0(_) => []
  }

  /** Some post-balance entry is a USDC account, so the scan reaches an account-key lookup. */
  predicate HasUsdcEntry(posts: seq<TokenBalance>, mint: string)
  {
    exists k :: 0 <= k < |posts| && posts[k].mint == mint
  }

  /** The transaction was found and is no older than the window. */
  predicate Fresh(fetch: TxFetch, maxAge: int, now: int)
  {
    fetch.Transaction? && Age(fetch.tx, now) <= maxAge
  }

  /** A fresh transaction that executed without error and carries both balance lists. */
  predicate BalancesPresent(fetch: TxFetch, maxAge: int, now: int)
  {
    && Fresh(fetch, maxAge, now)
    && fetch.tx.meta.Some?
    && !fetch.tx.meta.value.failed
    && fetch.tx.meta.value.preTokenBalances.Some?
    && fetch.tx.meta.value.postTokenBalances.Some?
  }

  /** The scan's account-key lookup throws: a version-0 message with a USDC post-balance entry. */
  predicate KeysUnreadable(tx: TxRecord, clusterEnv: Option<string>)
    requires tx.meta.Some? && tx.meta.value.postTokenBalances.Some?
  {
    tx.message.Version0? && HasUsdcEntry(tx.meta.value.postTokenBalances.value, UsdcMint(clusterEnv))
  }

  /** Every check before the amount comparison passes. */
  predicate ReachesAmountCheck(keys: KeyOracle, clusterEnv: Option<string>, fetch: TxFetch,
                               recipient: Option<string>, maxAge: int, now: int)
  {
    && BalancesPresent(fetch, maxAge, now)
    && recipient.Some?
    && keys.parse(recipient.value).Ok?
    && !KeysUnreadable(fetch.tx, clusterEnv)
  }

  /** The amount the transaction credits to the recipient's USDC account. */
  function ReceivedBy(keys: KeyOracle, clusterEnv: Option<string>, tx: TxRecord, recipient: string): Num
    requires tx.meta.Some? && tx.meta.value.preTokenBalances.Some? && tx.meta.value.postTokenBalances.Some?
    requires keys.parse(recipient).Ok?
  {
    var mint := UsdcMint(clusterEnv);
    Received(tx.meta.value.postTokenBalances.value, tx.meta.value.preTokenBalances.value, mint,
             keys.ata(mint, keys.parse(recipient).value), ScannedKeys(tx.message))
  }

  /** `Math.abs(received - expected) > 0.000001`, false as soon as either amount is NaN. */
  predicate AmountOff(received: Num, expected: Num)
  {
    AbsExceeds(Minus(received, expected), AMOUNT_TOLERANCE)
  }

  /**
   * `verifyPaymentTransaction(signature, recipient, expected, maxAge)` at time `now`, given the
   * answer of the transaction fetch. The checks run in a fixed order and the first failing one
   * decides the verdict; nothing escapes as an exception.
   */
  function Verify(keys: KeyOracle, clusterEnv: Option<string>, fetch: TxFetch, signature: string,
                  recipient: Option<string>, expected: Num, maxAge: int, now: int): (v: Verdict)
    ensures fetch.FetchThrew? ==> v == Invalid(Caught(RpcFailed(fetch.message)))
    ensures v == Invalid(TxNotFound) <==> fetch.NoTransaction?
    ensures v == Invalid(TxTooOld) <==> fetch.Transaction? && Age(fetch.tx, now) > maxAge
    ensures v == Invalid(TxFailedOnChain) <==>
      Fresh(fetch, maxAge, now) && fetch.tx.meta.Some? && fetch.tx.meta.value.failed
    ensures Fresh(fetch, maxAge, now) && fetch.tx.meta.None? ==> v == Invalid(Caught(MetaMissing))
    ensures v == Invalid(NoTokenBalances) <==>
      && Fresh(fetch, maxAge, now) && fetch.tx.meta.Some? && !fetch.tx.meta.value.failed
      && (fetch.tx.meta.value.preTokenBalances.None? || fetch.tx.meta.value.postTokenBalances.None?)
    ensures BalancesPresent(fetch, maxAge, now) && recipient.None? ==> v == Invalid(Caught(RecipientUnset))
    ensures BalancesPresent(fetch, maxAge, now) && recipient.Some? && keys.parse(recipient.value).Err? ==>
      v == Invalid(Caught(RecipientNotAKey(keys.parse(recipient.value).error)))
    ensures BalancesPresent(fetch, maxAge, now) && recipient.Some? && keys.parse(recipient.value).Ok?
            && KeysUnreadable(fetch.tx, clusterEnv) ==>
      v == Invalid(Caught(NoAccountKeys))
    ensures ReachesAmountCheck(keys, clusterEnv, fetch, recipient, maxAge, now)
            && AmountOff(ReceivedBy(keys, clusterEnv, fetch.tx, recipient.value), expected) ==>
      v == Invalid(AmountMismatch(expected, ReceivedBy(keys, clusterEnv, fetch.tx, recipient.value)))
    ensures v.Valid? <==>
      && ReachesAmountCheck(keys, clusterEnv, fetch, recipient, maxAge, now)
      && !AmountOff(ReceivedBy(keys, clusterEnv, fetch.tx, recipient.value), expected)
    ensures v.Valid? ==>
      && v.signature == signature && v.timestamp == fetch.tx.blockTime && recipient == Some(v.recipient)
      && v.amount == ReceivedBy(keys, clusterEnv, fetch.tx, recipient.value)
  {
    match fetch
    case FetchThrew(message) => Invalid(Caught(RpcFailed(message)))
    case NoTransaction => Invalid(TxNotFound)
    case Transaction(tx) =>
      if Age(tx, now) > maxAge then Invalid(TxTooOld)
      else if tx.meta.Some? && tx.meta.value.failed then Invalid(TxFailedOnChain)
      else if tx.meta.None? then Invalid(Caught(MetaMissing))
      else if tx.meta.value.preTokenBalances.None? || tx.meta.value.postTokenBalances.None? then Invalid(NoTokenBalances)
      else if recipient.None? then Invalid(Caught(RecipientUnset))
      else
        match keys.parse(recipient.value)
        case Err(message) => Invalid(Caught(RecipientNotAKey(message)))
        case Ok(_) =>
          if KeysUnreadable(tx, clusterEnv) then Invalid(Caught(NoAccountKeys))
          else
            var received := ReceivedBy(keys, clusterEnv, tx, recipient.value);
            if AmountOff(received, expected) then Invalid(AmountMismatch(expected, received))
            else Valid(signature, tx.blockTime, received, recipient.value)
  }

  /**
   * `verifyPaymentTransaction` with the amount check written as `!(amountDiff <= 0.000001)`,
   * so that a NaN price or credit fails it: a valid verdict now means a finite price was
   * received to within the tolerance. Every other verdict is the written verifier's.
   */
  function VerifyStrict(keys: KeyOracle, clusterEnv: Option<string>, fetch: TxFetch, signature: string,
                        recipient: Option<string>, expected: Num, maxAge: int, now: int): (v: Verdict)
    ensures v.Valid? ==>
      && expected.Finite? && v.amount.Finite?
      && -AMOUNT_TOLERANCE <= v.amount.value - expected.value <= AMOUNT_TOLERANCE
    ensures v.Valid? ==> v == Verify(keys, clusterEnv, fetch, signature, recipient, expected, maxAge, now)
    ensures Verify(keys, clusterEnv, fetch, signature, recipient, expected, maxAge, now).Invalid? ==>
      v == Verify(keys, clusterEnv, fetch, signature, recipient, expected, maxAge, now)
    ensures expected.NaN? ==> v.Invalid?
    ensures expected.Finite? && Verify(keys, clusterEnv, fetch, signature, recipient, expected, maxAge, now).Valid?
            && Verify(keys, clusterEnv, fetch, signature, recipient, expected, maxAge, now).amount.Finite? ==>
      v == Verify(keys, clusterEnv, fetch, signature, recipient, expected, maxAge, now)
    ensures Verify(keys, clusterEnv, fetch, signature, recipient, expected, maxAge, now).Valid?
            && (expected.NaN? || Verify(keys, clusterEnv, fetch, signature, recipient, expected, maxAge, now).amount.NaN?) ==>
      v == Invalid(AmountMismatch(expected, Verify(keys, clusterEnv, fetch, signature, recipient, expected, maxAge, now).amount))
  {
    var w := Verify(keys, clusterEnv, fetch, signature, recipient, expected, maxAge, now);
    if w.Valid? && !(expected.Finite? && w.amount.Finite?) then Invalid(AmountMismatch(expected, w.amount))
    else w
  }

  /** With a numeric price and credit the strict verifier answers exactly what the written one does. */
  lemma VerifyStrictAgrees(keys: KeyOracle, clusterEnv: Option<string>, fetch: TxFetch, signature: string,
                           recipient: Option<string>, expected: real, maxAge: int, now: int)
    requires ReachesAmountCheck(keys, clusterEnv, fetch, recipient, maxAge, now) ==>
      ReceivedBy(keys, clusterEnv, fetch.tx, recipient.value).Finite?
    ensures VerifyStrict(keys, clusterEnv, fetch, signature, recipient, Finite(expected), maxAge, now)
         == Verify(keys, clusterEnv, fetch, signature, recipient, Finite(expected), maxAge, now)
  {
  }

  /** The recipient's credit is taken from the first matching post-balance entry; later ones are ignored. */
  lemma {:induction false} FirstRecipientEntryWins(before: seq<TokenBalance>, entry: TokenBalance, after: seq<TokenBalance>,
                                                   pres: seq<TokenBalance>, mint: string,
                                                   recipientAta: Result<string, string>, keys: seq<string>)
    requires forall k :: 0 <= k < |before| ==> !IsRecipientEntry(before[k], mint, recipientAta, keys)
    requires IsRecipientEntry(entry, mint, recipientAta, keys)
    ensures Received(before + [entry] + after, pres, mint, recipientAta, keys)
         == Minus(ParsedAmount(entry.uiAmount), PreAmount(pres, entry.accountIndex))
  {
    var posts := before + [entry] + after;
    var p := (b: TokenBalance) => IsRecipientEntry(b, mint, recipientAta, keys);
    assert posts[|before|] == entry;
    forall j | 0 <= j < |before| ensures !p(posts[j]) {
      assert posts[j] == before[j];
    }
    FindFirstAt(posts, p, |before|);
  }

  /** The pre-balance is read from the first pre entry with the same account index. */
  lemma {:induction false} PreAmountFirstMatch(before: seq<TokenBalance>, entry: TokenBalance, after: seq<TokenBalance>)
    requires forall k :: 0 <= k < |before| ==> before[k].accountIndex != entry.accountIndex
    ensures PreAmount(before + [entry] + after, entry.accountIndex) == ParsedAmount(entry.uiAmount)
  {
    var pres := before + [entry] + after;
    var p := (b: TokenBalance) => b.accountIndex == entry.accountIndex;
    assert pres[|before|] == entry;
    forall j | 0 <= j < |before| ensures !p(pres[j]) {
      assert pres[j] == before[j];
    }
    FindFirstAt(pres, p, |before|);
  }

  /**
   * With no entry for the recipient's USDC account the credit is 0, so the transaction is
   * accepted exactly when the expected amount is NaN or within the tolerance of 0.
   */
  lemma NoRecipientEntryMeansZero(keys: KeyOracle, clusterEnv: Option<string>, fetch: TxFetch, signature: string,
                                  recipient: Option<string>, expected: Num, maxAge: int, now: int)
    requires ReachesAmountCheck(keys, clusterEnv, fetch, recipient, maxAge, now)
    requires
      var mint := UsdcMint(clusterEnv);
      var posts := fetch.tx.meta.value.postTokenBalances.value;
      forall k :: 0 <= k < |posts| ==>
        !IsRecipientEntry(posts[k], mint, keys.ata(mint, keys.parse(recipient.value).value), ScannedKeys(fetch.tx.message))
    ensures Verify(keys, clusterEnv, fetch, signature, recipient, expected, maxAge, now).Valid?
        <==> expected.NaN? || -AMOUNT_TOLERANCE <= expected.value <= AMOUNT_TOLERANCE
    ensures Verify(keys, clusterEnv, fetch, signature, recipient, expected, maxAge, now).Valid? ==>
        Verify(keys, clusterEnv, fetch, signature, recipient, expected, maxAge, now).amount == Finite(0.0)
  {
    var mint := UsdcMint(clusterEnv);
    var meta := fetch.tx.meta.value;
    var ata := keys.ata(mint, keys.parse(recipient.value).value);
    assert RecipientEntry(meta.postTokenBalances.value, mint, ata, ScannedKeys(fetch.tx.message)).None?;
    assert ReceivedBy(keys, clusterEnv, fetch.tx, recipient.value) == Finite(0.0);
  }

  /**
   * A fresh, successful transaction whose first entry for the recipient's USDC account was
   * credited exactly the expected amount (its account absent from the pre-balances) is accepted,
   * carrying that amount and the block time.
   */
  lemma ExactNewAccountPaymentAccepted(keys: KeyOracle, clusterEnv: Option<string>, tx: TxRecord, signature: string,
                                       recipient: string, expected: real, maxAge: int, now: int,
                                       before: seq<TokenBalance>, entry: TokenBalance, after: seq<TokenBalance>)
    requires ReachesAmountCheck(keys, clusterEnv, Transaction(tx), Some(recipient), maxAge, now)
    requires tx.meta.value.postTokenBalances.value == before + [entry] + after
    requires entry.uiAmount == Some(expected)
    requires
      var mint := UsdcMint(clusterEnv);
      var ata := keys.ata(mint, keys.parse(recipient).value);
      && IsRecipientEntry(entry, mint, ata, ScannedKeys(tx.message))
      && (forall k :: 0 <= k < |before| ==> !IsRecipientEntry(before[k], mint, ata, ScannedKeys(tx.message)))
    requires forall k :: 0 <= k < |tx.meta.value.preTokenBalances.value| ==>
      tx.meta.value.preTokenBalances.value[k].accountIndex != entry.accountIndex
    ensures Verify(keys, clusterEnv, Transaction(tx), signature, Some(recipient), Finite(expected), maxAge, now)
         == Valid(signature, tx.blockTime, Finite(expected), recipient)
  {
    var mint := UsdcMint(clusterEnv);
    var ata := keys.ata(mint, keys.parse(recipient).value);
    var pres := tx.meta.value.preTokenBalances.value;
    FirstRecipientEntryWins(before, entry, after, pres, mint, ata, ScannedKeys(tx.message));
    assert PreAmount(pres, entry.accountIndex) == Finite(0.0);
    assert ReceivedBy(keys, clusterEnv, tx, recipient) == Finite(expected);
  }

  /**
   * A price that is not a number makes the amount check pass: every transaction that reaches
   * it is accepted, including one that credits the recipient nothing.
   */
  lemma UnpricedPaymentAccepted(keys: KeyOracle, clusterEnv: Option<string>, fetch: TxFetch, signature: string,
                                recipient: Option<string>, maxAge: int, now: int)
    requires ReachesAmountCheck(keys, clusterEnv, fetch, recipient, maxAge, now)
    ensures Verify(keys, clusterEnv, fetch, signature, recipient, NaN, maxAge, now).Valid?
  {
  }

  /**
   * When the recipient's first USDC entry has a null amount, the credit is NaN and the
   * transaction is accepted whatever price is expected.
   */
  lemma NullCreditAcceptsAnyPrice(keys: KeyOracle, clusterEnv: Option<string>, tx: TxRecord, signature: string,
                                  recipient: string, expected: Num, maxAge: int, now: int,
                                  before: seq<TokenBalance>, entry: TokenBalance, after: seq<TokenBalance>)
    requires ReachesAmountCheck(keys, clusterEnv, Transaction(tx), Some(recipient), maxAge, now)
    requires tx.meta.value.postTokenBalances.value == before + [entry] + after
    requires entry.uiAmount.None?
    requires
      var mint := UsdcMint(clusterEnv);
      var ata := keys.ata(mint, keys.parse(recipient).value);
      && IsRecipientEntry(entry, mint, ata, ScannedKeys(tx.message))
      && (forall k :: 0 <= k < |before| ==> !IsRecipientEntry(before[k], mint, ata, ScannedKeys(tx.message)))
    ensures Verify(keys, clusterEnv, Transaction(tx), signature, Some(recipient), expected, maxAge, now)
         == Valid(signature, tx.blockTime, NaN, recipient)
  {
    var mint := UsdcMint(clusterEnv);
    var ata := keys.ata(mint, keys.parse(recipient).value);
    FirstRecipientEntryWins(before, entry, after, tx.meta.value.preTokenBalances.value, mint, ata, ScannedKeys(tx.message));
  }

  /**
   * A version-0 transaction that moves any USDC is refused with the error of the failed
   * `accountKeys` lookup, even when it pays the recipient exactly.
   */
  lemma VersionZeroPaymentRefused(keys: KeyOracle, clusterEnv: Option<string>, tx: TxRecord, signature: string,
                                  recipient: string, expected: Num, maxAge: int, now: int, k: nat)
    requires BalancesPresent(Transaction(tx), maxAge, now) && keys.parse(recipient).Ok?
    requires tx.message.Version0?
    requires k < |tx.meta.value.postTokenBalances.value|
    requires tx.meta.value.postTokenBalances.value[k].mint == UsdcMint(clusterEnv)
    ensures Verify(keys, clusterEnv, Transaction(tx), signature, Some(recipient), expected, maxAge, now)
         == Invalid(Caught(NoAccountKeys))
  {
  }

  /** A transaction older than the window is refused as too old whatever it pays and to whom. */
  lemma ExpiredRegardlessOfAmount(keys: KeyOracle, clusterEnv: Option<string>, tx: TxRecord, signature: string,
                                  recipient: Option<string>, expected: Num, maxAge: int, now: int)
    requires Age(tx, now) > maxAge
    ensures Verify(keys, clusterEnv, Transaction(tx), signature, recipient, expected, maxAge, now) == Invalid(TxTooOld)
  {
  }

  /** Age exactly equal to the window is not too old; a null block time counts as time 0. */
  lemma FreshnessBoundary(keys: KeyOracle, clusterEnv: Option<string>, tx: TxRecord, signature: string,
                          recipient: Option<string>, expected: Num, maxAge: int, now: int)
    ensures tx.blockTime == Some(now - maxAge) ==>
      Verify(keys, clusterEnv, Transaction(tx), signature, recipient, expected, maxAge, now) != Invalid(TxTooOld)
    ensures tx.blockTime.None? && now > maxAge ==>
      Verify(keys, clusterEnv, Transaction(tx), signature, recipient, expected, maxAge, now) == Invalid(TxTooOld)
  {
  }

  /*** Paying out ***/

  /** The `transferChecked` instruction `transferUSDC` submits. */
  datatype TransferInstruction = TransferChecked(
    source: string, mint: string, destination: string, owner: string, amount: int, decimals: nat)

  /** What `connection.sendTransaction` answered. */
  datatype SendResult = Sent(signature: string) | SendThrew(message: string)

  /**
   * What `connection.confirmTransaction` answered: it resolves (reporting whether execution
   * recorded an error) or throws, for instance when the confirmation times out.
   */
  datatype Confirmation = ConfirmResolved(executionFailed: bool) | ConfirmThrew(message: string)

  /** The answers of the ledger calls `transferUSDC` makes. */
  datatype Ledger = Ledger(
    accountExists: string -> bool,   // `getAccount` on a token account does not throw
    send: TransferInstruction -> SendResult,
    confirm: string -> Confirmation)

  datatype TransferCause =
    | KeyCause(error: KeyError)
    | InvalidRecipient(message: string)       // `new PublicKey(toAddress)` threw
    | DerivationFailed(message: string)       // `getAssociatedTokenAddress` threw
    | NoRecipientAccount
    | AmountNotInteger                        // `BigInt(Math.floor(amount * 10^6))` threw: the amount is NaN
    | SendFailed(message: string)
    | ConfirmFailed(message: string)
    | ExecutionFailed                         // only the confirmation-checking variant reports this

  /** A completed transfer: its signature and the instruction submitted. */
  datatype Transfer = Transfer(signature: string, instruction: TransferInstruction)

  /** The message of the error `transferUSDC` throws. */
  function TransferErrorText(cause: TransferCause): (text: string)
    ensures Text.StartsWith(text, TRANSFER_FAILED_PREFIX)
    ensures cause == NoRecipientAccount ==> text == TRANSFER_FAILED_PREFIX + NO_RECIPIENT_ACCOUNT_MESSAGE
    ensures cause == AmountNotInteger ==> text == TRANSFER_FAILED_PREFIX + AMOUNT_NOT_INTEGER_MESSAGE
  {
    var inner :=
      match cause
      case KeyCause(e) => KeyErrorText(e)
      case InvalidRecipient(m) => m
      case DerivationFailed(m) => m
      case NoRecipientAccount => NO_RECIPIENT_ACCOUNT_MESSAGE
      case AmountNotInteger => AMOUNT_NOT_INTEGER_MESSAGE
      case SendFailed(m) => m
      case ConfirmFailed(m) => m
      case ExecutionFailed => "Transaction failed on chain";
    assert (TRANSFER_FAILED_PREFIX + inner)[..|TRANSFER_FAILED_PREFIX|] == TRANSFER_FAILED_PREFIX;
    TRANSFER_FAILED_PREFIX + inner
  }

  /**
   * The transfer up to and including submission: load the operator key, derive both associated
   * token accounts, require the recipient's to exist, and submit `floor(amount * 10^6)` smallest
   * units with 6 decimals. A NaN amount cannot be converted to a `BigInt`, so it fails after the
   * recipient's account was found and before anything is sent.
   */
  function SubmitTransfer(keys: KeyOracle, codecs: KeyCodecs, secretEnv: Option<string>, clusterEnv: Option<string>,
                          ledger: Ledger, to: string, amount: Num): (r: Result<Transfer, TransferCause>)
    ensures r.Ok? ==> ledger.accountExists(r.value.instruction.destination)
    ensures r.Ok? ==> ledger.send(r.value.instruction) == Sent(r.value.signature)
    ensures r.Ok? ==>
      && amount.Finite?
      && r.value.instruction.amount == SmallestUnits(amount.value)
      && r.value.instruction.decimals == USDC_DECIMALS
      && r.value.instruction.mint == UsdcMint(clusterEnv)
      && keys.parse(to).Ok?
      && keys.ata(UsdcMint(clusterEnv), keys.parse(to).value) == Ok(r.value.instruction.destination)
    ensures LoadKeypair(secretEnv, codecs).Err? ==> r == Err(KeyCause(LoadKeypair(secretEnv, codecs).error))
    ensures LoadKeypair(secretEnv, codecs).Ok? && keys.parse(to).Err? ==> r == Err(InvalidRecipient(keys.parse(to).error))
    ensures LoadKeypair(secretEnv, codecs).Ok? && keys.parse(to).Ok? ==>
      var wallet := LoadKeypair(secretEnv, codecs).value;
      var mint := UsdcMint(clusterEnv);
      var source := keys.ata(mint, wallet.publicKey);
      var destination := keys.ata(mint, keys.parse(to).value);
      && (source.Err? ==> r == Err(DerivationFailed(source.error)))
      && (source.Ok? && destination.Err? ==> r == Err(DerivationFailed(destination.error)))
      && (source.Ok? && destination.Ok? ==>
            && (!ledger.accountExists(destination.value) ==> r == Err(NoRecipientAccount))
            && (ledger.accountExists(destination.value) && amount.NaN? ==> r == Err(AmountNotInteger))
            && (ledger.accountExists(destination.value) && amount.Finite? ==>
                  var instruction := TransferChecked(source.value, mint, destination.value, wallet.publicKey,
                                                     SmallestUnits(amount.value), USDC_DECIMALS);
                  && (ledger.send(instruction).Sent? ==> r == Ok(Transfer(ledger.send(instruction).signature, instruction)))
                  && (ledger.send(instruction).SendThrew? ==> r == Err(SendFailed(ledger.send(instruction).message)))))
  {
    match LoadKeypair(secretEnv, codecs)
    case Err(e) => Err(KeyCause(e))
    case Ok(wallet) =>
      var mint := UsdcMint(clusterEnv);
      match keys.parse(to)
      case Err(m) => Err(InvalidRecipient(m))
      case Ok(recipient) =>
        match keys.ata(mint, wallet.publicKey)
        case Err(m) => Err(DerivationFailed(m))
        case Ok(source) =>
          match keys.ata(mint, recipient)
          case Err(m) => Err(DerivationFailed(m))
          case Ok(destination) =>
            if !ledger.accountExists(destination) then Err(NoRecipientAccount)
            else if amount.NaN? then Err(AmountNotInteger)
            else
              var instruction := TransferChecked(source, mint, destination, wallet.publicKey, SmallestUnits(amount.value), USDC_DECIMALS);
              match ledger.send(instruction)
              case SendThrew(m) => Err(SendFailed(m))
              case Sent(signature) => Ok(Transfer(signature, instruction))
  }

  /**
   * `transferUSDC(to, amount)` as written: after submission it waits for confirmation and
   * returns the signature unless the wait throws. A confirmation that resolves reporting an
   * execution error still counts as success.
   */
  function TransferUsdc(keys: KeyOracle, codecs: KeyCodecs, secretEnv: Option<string>, clusterEnv: Option<string>,
                        ledger: Ledger, to: string, amount: Num): (r: Result<Transfer, TransferCause>)
    ensures r.Ok? ==> SubmitTransfer(keys, codecs, secretEnv, clusterEnv, ledger, to, amount) == r
    ensures r.Ok? ==> ledger.confirm(r.value.signature).ConfirmResolved?
    ensures r.Err? ==> r.error != ExecutionFailed
    ensures SubmitTransfer(keys, codecs, secretEnv, clusterEnv, ledger, to, amount).Err? ==>
      r == SubmitTransfer(keys, codecs, secretEnv, clusterEnv, ledger, to, amount)
    ensures SubmitTransfer(keys, codecs, secretEnv, clusterEnv, ledger, to, amount).Ok? ==>
      var submitted := SubmitTransfer(keys, codecs, secretEnv, clusterEnv, ledger, to, amount);
      && (ledger.confirm(submitted.value.signature).ConfirmResolved? ==> r == submitted)
      && (ledger.confirm(submitted.value.signature).ConfirmThrew? ==>
            r == Err(ConfirmFailed(ledger.confirm(submitted.value.signature).message)))
  {
    match SubmitTransfer(keys, codecs, secretEnv, clusterEnv, ledger, to, amount)
    case Err(cause) => Err(cause)
    case Ok(t) =>
      match ledger.confirm(t.signature)
      case ConfirmThrew(m) => Err(ConfirmFailed(m))
      case ConfirmResolved(_) => Ok(t)
  }

  /** A transfer whose confirmation reports an execution error is returned as a success. */
  lemma TransferUsdcIgnoresExecutionError(keys: KeyOracle, codecs: KeyCodecs, secretEnv: Option<string>,
                                          clusterEnv: Option<string>, ledger: Ledger, to: string, amount: Num)
    requires SubmitTransfer(keys, codecs, secretEnv, clusterEnv, ledger, to, amount).Ok?
    requires ledger.confirm(SubmitTransfer(keys, codecs, secretEnv, clusterEnv, ledger, to, amount).value.signature)
          == ConfirmResolved(true)
    ensures TransferUsdc(keys, codecs, secretEnv, clusterEnv, ledger, to, amount).Ok?
  {
  }

  /** An instance of the above: a payout whose execution failed on chain is reported as paid. */
  lemma TransferUsdcFailedExecutionExample()
    ensures
      var keys := KeyOracle(s => Ok(s), s => true, (m, o) => Ok("ata:" + o));
      var codecs := KeyCodecs(s => Ok([1]), s => Ok([1]), b => Ok(Keypair("operator", b)));
      var ledger := Ledger(a => true, i => Sent("sig"), s => ConfirmResolved(true));
      TransferUsdc(keys, codecs, Some("[1]"), None, ledger, "owner", Finite(1.5)).Ok?
  {
  }

  /**
   * `transferUSDC` with the confirmation result checked: a transfer whose execution recorded
   * an error is a failure.
   */
  function TransferUsdcChecked(keys: KeyOracle, codecs: KeyCodecs, secretEnv: Option<string>, clusterEnv: Option<string>,
                               ledger: Ledger, to: string, amount: Num): (r: Result<Transfer, TransferCause>)
    ensures r.Ok? <==>
      && SubmitTransfer(keys, codecs, secretEnv, clusterEnv, ledger, to, amount).Ok?
      && ledger.confirm(SubmitTransfer(keys, codecs, secretEnv, clusterEnv, ledger, to, amount).value.signature)
         == ConfirmResolved(false)
    ensures r.Ok? ==> SubmitTransfer(keys, codecs, secretEnv, clusterEnv, ledger, to, amount) == r
  {
    match SubmitTransfer(keys, codecs, secretEnv, clusterEnv, ledger, to, amount)
    case Err(cause) => Err(cause)
    case Ok(t) =>
      match ledger.confirm(t.signature)
      case ConfirmThrew(m) => Err(ConfirmFailed(m))
      case ConfirmResolved(failed) => if failed then Err(ExecutionFailed) else Ok(t)
  }

  /** The checked transfer agrees with the unchecked one except when execution failed. */
  lemma TransferUsdcCheckedRefines(keys: KeyOracle, codecs: KeyCodecs, secretEnv: Option<string>,
                                   clusterEnv: Option<string>, ledger: Ledger, to: string, amount: Num)
    ensures TransferUsdcChecked(keys, codecs, secretEnv, clusterEnv, ledger, to, amount).Ok? ==>
      TransferUsdcChecked(keys, codecs, secretEnv, clusterEnv, ledger, to, amount)
      == TransferUsdc(keys, codecs, secretEnv, clusterEnv, ledger, to, amount)
    ensures TransferUsdc(keys, codecs, secretEnv, clusterEnv, ledger, to, amount).Err? ==>
      TransferUsdcChecked(keys, codecs, secretEnv, clusterEnv, ledger, to, amount)
      == TransferUsdc(keys, codecs, secretEnv, clusterEnv, ledger, to, amount)
  {
  }

  /*** Balance ***/

  /**
   * `getUSDCBalance(address)`: the raw amount of the address's USDC token account divided by
   * 10^6; 0 when the address does not parse, the derivation throws or the account read throws.
   * `readAccount` answers the raw amount of a token account, `None` where `getAccount` throws.
   */
  function UsdcBalance(keys: KeyOracle, clusterEnv: Option<string>, address: string,
                       readAccount: string -> Option<nat>): (balance: real)
    ensures balance >= 0.0
    ensures keys.parse(address).Err? ==> balance == 0.0
    ensures keys.parse(address).Ok? && keys.ata(UsdcMint(clusterEnv), keys.parse(address).value).Ok? ==>
      var account := keys.ata(UsdcMint(clusterEnv), keys.parse(address).value).value;
      balance == if readAccount(account).Some? then UiAmount(readAccount(account).value) else 0.0
    ensures keys.parse(address).Ok? && keys.ata(UsdcMint(clusterEnv), keys.parse(address).value).Err? ==> balance == 0.0
    ensures balance * UNITS_PER_USDC as real == (balance * UNITS_PER_USDC as real).Floor as real
  {
    match keys.parse(address)
    case Err(_) => 0.0
    case Ok(owner) =>
      match keys.ata(UsdcMint(clusterEnv), owner)
      case Err(_) => 0.0
      case Ok(account) =>
        match readAccount(account)
        case None => 0.0
        case Some(raw) => UiAmount(raw)
  }

  /**
   * The balance read for an existing account converts back to exactly the raw amount the
   * account holds, and every failing step reads as an empty balance.
   */
  lemma BalanceInSmallestUnits(keys: KeyOracle, clusterEnv: Option<string>, address: string,
                               readAccount: string -> Option<nat>)
    ensures var b := UsdcBalance(keys, clusterEnv, address, readAccount);
      var mint := UsdcMint(clusterEnv);
      if keys.parse(address).Ok? && keys.ata(mint, keys.parse(address).value).Ok?
         && readAccount(keys.ata(mint, keys.parse(address).value).value).Some?
      then SmallestUnits(b) == readAccount(keys.ata(mint, keys.parse(address).value).value).value
      else b == 0.0
  {
    var mint := UsdcMint(clusterEnv);
    if keys.parse(address).Ok? && keys.ata(mint, keys.parse(address).value).Ok? {
      var account := keys.ata(mint, keys.parse(address).value).value;
      if readAccount(account).Some? {
        SmallestUnitsOfUiAmount(readAccount(account).value);
      }
    }
  }
}
