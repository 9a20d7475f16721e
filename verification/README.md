# cm-backend faucet core in Dafny

A model of the decision logic of the CRUMBS/NACHO claim faucet backend. The
backend is an Express API that hands out KRC-20 tokens on the Kaspa network.
Each model file follows one source file:

| file | module | models |
|---|---|---|
| `text.dfy` | `Text` | the JavaScript string primitives the code relies on: `split`, `trim`, `indexOf`, `parseInt`, decimal formatting, `||` defaults for environment variables, `error.message` |
| `json.dfy` | `Json` | `JSON.stringify` of flat objects, plus a reader showing that the text reads back, and parsed JSON values for the VPN lookup |
| `signature.dfy` | `Signature` | `generateSignature` / `verifySignature` (src/utils/security.ts), with HMAC-SHA256 as a parameter |
| `request_gate.dfy` | `RequestGate` | the `verifyRequestSignature` middleware (src/middleware/security.ts) |
| `wallet_address.dfy` | `WalletAddress` | the `^kaspa:[a-z0-9]{61,63}$` validator of both routes (src/routes/api.ts) |
| `vpn.dfy` | `VpnCheck` | `isValidIP`, `sanitizeIP`, `isValidVPNResponse` and `checkVPN` (src/controllers/vpnController.ts) |
| `claims.dfy` | `Claims` | `createClaim` and `getClaims` (src/controllers/claimController.ts) over a claim table held as a list |
| `claim_race.dfy` | `ClaimRace` | `createClaim` as concurrent requests interleaving at its `await`s: cooldown query, insert, update |
| `transfer_wrapper.dfy` | `TransferWrapper` | the in-process `transferTokens` (src/utils/transferWrapper.ts) |
| `token_service.dfy` | `TokenService` | the child-process `transferTokens` (src/utils/tokenService.ts) as a resolve-once machine over stdout, stderr, close and timeout events |
| `inscription.dfy` | `Inscription` | the pure parts of `executeTransfer` (src/utils/transfer.ts): payload, redeem script, commit and reveal plans, reveal-input fill |
| `orchestrator.dfy` | `Orchestrator` | the commit → wait → reveal → wait → verify sequence of `executeTransfer`, as a state machine driven by a trace of ledger answers, `utxos-changed` notifications and polling ticks |

Time is a parameter (`now`). The ledger library (key derivation, P2SH
hashing, coin selection, signing), the HMAC, the VPN lookup and the token
transfer are function-valued parameters, so every lemma holds for any
behaviour of them.

Where the code and the design description disagree, the model follows the
code:
- The reveal-verification branch that answers "Reveal transaction not
  accepted" (src/utils/transfer.ts:207-209) can never run. The second wait
  only ends once the matured flag is true, and nothing clears it before the
  check. An unlisted reveal therefore falls through to "No UTXOs available
  for reveal" (`Orchestrator.UnlistedRevealReportsNoUtxos`).
- A VPN lookup answer whose `security` is `null` makes the shape check throw,
  so the reply is 500 from the catch, not 502.
- A `utxos-changed` notice for the commit that arrives late can set the flag
  during the reveal phase. Because the flag is reset before the reveal's
  queries, not after them, this stale notice releases the second wait
  (`Orchestrator.StaleCommitNoticeReleasesRevealWait`).
- `executeTransfer` catches every error itself, so the wrapper's own `catch`
  only runs for a failing executor. The model keeps that path as the
  `Raised` case.
- The two `transferTokens` default to different tickers when `CLAIM_TICKER`
  is unset: NACHO for the child-process service, CRUMBS for the wrapper.

## Model

| member | source | states |
|---|---|---|
| Text.Split | src/controllers/vpnController.ts:21 | the parts contain no separator, there is at least one part, and joining them with the separator gives back the input |
| Text.Trim | src/controllers/vpnController.ts:32 | the result is a slice of the input with only JavaScript white space before and after it, has no white space at either end, and leaves an already trimmed string unchanged |
| Text.TrimUnique | src/controllers/vpnController.ts:32 | only one string is both trimmed and the input with surrounding white space removed, so that description determines `trim` |
| Text.IndexOf | src/middleware/security.ts:25 | the first occurrence of the pattern, and `None` exactly when the pattern does not occur |
| Text.NatToDecimal | src/utils/security.ts:6 | the decimal text has only digits, no leading zero, and denotes the number |
| Text.ParseIntOfDecimal | src/middleware/security.ts:6 | `parseInt` of a timestamp's decimal text gives the timestamp back, so the header the client sends is the number it signed |
| Json.QuoteUnambiguous | src/utils/transfer.ts:116 | a JSON string literal ends where its closing quote is: two quoted strings followed by anything are equal only if the strings and the rests are |
| Json.ReadObjectRoundTrip | src/utils/transfer.ts:116 | reading back `JSON.stringify` of a flat object of strings yields exactly its members, in order |
| Json.Lookup | src/controllers/vpnController.ts:39-48 | property access finds a key iff the object has it, and a duplicated key yields its last value |
| Signature.SignedMessage | src/utils/security.ts:6 | the message is the data, a colon, then a colon-free rest |
| Signature.SignedMessageInjective | src/utils/security.ts:5-11 | distinct (data, timestamp) pairs give distinct messages, so a signature binds both |
| Signature.VerifySignature | src/utils/security.ts:13-26 | a signature older or newer than 300000 ms is rejected whatever it is; a difference of exactly 300000 ms is still fresh; a fresh signature is accepted iff it equals the generated one; a length mismatch is the error outcome `timingSafeEqual` raises |
| Signature.GeneratedSignatureAccepted | src/utils/security.ts:5-26 | a signature made by `generateSignature` for the same data and timestamp passes verification within the window |
| RequestGate.RelativeUrl | src/middleware/security.ts:23-25 | the first "/api" is cut out wherever it occurs, and putting it back at that position rebuilds the original URL; a URL without it is unchanged |
| RequestGate.RelativeUrlCuts | src/middleware/security.ts:25 | when "/api" first occurs after a prefix, the relative URL is the prefix followed by the rest |
| RequestGate.VerifyRequestSignature | src/middleware/security.ts:4-53 | 401 "Missing security headers" iff a header is missing or empty or the timestamp parses to NaN or 0; `next` iff the headers are present and the signature verifies; 401 "Invalid request signature" iff verification returns false; 500 iff it throws |
| RequestGate.SignedDataUnambiguous | src/middleware/security.ts:28-33 | equal signed-data strings come from the same method and URL, and with the same body from the same nonce |
| RequestGate.HeadFieldsUnambiguous | src/middleware/security.ts:28-33 | equal signed-data strings agree on method and URL and on the serialised remainder |
| RequestGate.TailFieldsUnambiguous | src/middleware/security.ts:31-32 | with the same body, equal remainders have the same nonce |
| RequestGate.SignedDataWithoutBody | src/middleware/security.ts:28-33 | without a body the signed data reads back as exactly method, url and nonce, in that order |
| RequestGate.ClientSignedRequestPasses | src/middleware/security.ts:4-53 | a request signed by a client that computes the same relative URL and signed data and sends a fresh non-zero decimal timestamp and a non-empty nonce reaches `next` |
| WalletAddress.MatchAddress | src/routes/api.ts:14 | the matcher answers true iff the text is "kaspa:" followed by 61 to 63 characters from a-z and 0-9 |
| WalletAddress.Validate | src/routes/api.ts:11-24 | no error iff the field is a string matching the rule; a non-matching string gives exactly the format message; a non-string gives "Invalid value" first |
| WalletAddress.AcceptedShape | src/routes/api.ts:12-14 | an accepted address starts with "kaspa:", has 67 to 69 characters and no upper-case letter, colon or white space after the prefix |
| VpnCheck.DottedQuadAccepted | src/controllers/vpnController.ts:19-23 | a dotted quad of 1-3 digit parts is accepted iff each part's value is at most 255 |
| VpnCheck.DecimalQuadAccepted | src/controllers/vpnController.ts:19-23 | four numbers below 1000 written in decimal form a valid address iff each is at most 255 |
| VpnCheck.TrailingDoubleColonRejected | src/controllers/vpnController.ts:26-27 | no string ending in "::" is valid, since a compressed IPv6 address needs a hex group after "::" |
| VpnCheck.NoGroupListEndingInColon | src/controllers/vpnController.ts:26 | a colon-terminated or empty text is never a list of hex groups |
| VpnCheck.SanitizeIP | src/controllers/vpnController.ts:30-33 | the result is the input with a leading "::ffff:" removed and then only surrounding white space cut off, and has none left at either end; with `Text.TrimUnique` this fixes the result |
| VpnCheck.SanitizeKeepsPrefixAfterSpace | src/controllers/vpnController.ts:32 | a "::ffff:" behind leading white space is only trimmed, not removed |
| VpnCheck.SanitizeStripsMappedPrefix | src/controllers/vpnController.ts:32 | "::ffff:1.2.3.4" sanitises to "1.2.3.4" |
| VpnCheck.BeforeComma | src/controllers/vpnController.ts:84 | the text of x-forwarded-for before its first comma: a comma-free prefix of the header followed by a comma or by the header's end |
| VpnCheck.ClientIP | src/controllers/vpnController.ts:56-87 | the client IP is cf-connecting-ip, else x-real-ip, else the trimmed first element of x-forwarded-for, else a non-empty `req.ip` |
| VpnCheck.ShapeOf | src/controllers/vpnController.ts:35-50 | the shape check passes iff security holds four booleans and location two strings, and then carries exactly those values; it throws, reading "vpn" or "country" from `null`, iff security is present and `null`, or the flags are booleans and location is present and `null`; every other failure is a plain false |
| VpnCheck.DetectionTypes | src/controllers/vpnController.ts:149-153 | the list holds exactly the set flags, in the order VPN, Proxy, Tor, Relay, and is empty iff no flag is set |
| VpnCheck.Answer | src/controllers/vpnController.ts:118-183 | 200 with the five-minute private cache header iff the lookup parsed and passed the shape check; 502 iff it parsed and failed it without a null read; a `null` security or location gives 500 with the TypeError's message; 500 with the lookup's message otherwise; `isUsingVPN` iff some flag is set, with details present iff it is |
| VpnCheck.CheckVPN | src/controllers/vpnController.ts:52-183 | a missing key gives 500, a missing client IP 400 and an invalid sanitised IP 400, none of them querying the lookup; otherwise the sanitised IP is looked up and its answer returned |
| Claims.LatestBlocking | src/controllers/claimController.ts:57-68 | `None` iff no claim of the wallet younger than 24 h and not failed exists; otherwise such a claim, with the newest creation time among them |
| Claims.HoursRemaining | src/controllers/claimController.ts:69-71 | the smallest whole number of hours covering the time left until 24 h after the claim |
| Claims.HoursRemainingInRange | src/controllers/claimController.ts:69-71 | for a blocking claim created no later than now the hours lie in 1..24 |
| Claims.NextId | src/controllers/claimController.ts:81-86 | the new claim's id differs from every id in the table |
| Claims.CreateClaim | src/controllers/claimController.ts:42-121 | invalid input gives 400 with the first error and no lookup, insert or transfer; a blocking claim gives 400 with the hours message and no transfer; otherwise the transfer runs exactly once and one settled claim is appended; the status is 201 iff the transfer succeeded, else 500, and `success` is the transfer's |
| Claims.FailedClaimsNeverBlock | src/controllers/claimController.ts:57-65 | a wallet whose recent claims all failed is paid |
| Claims.ClaimStartsCooldown | src/controllers/claimController.ts:57-114 | after a successful claim, a second claim within 24 h is refused with 1..24 hours remaining, with no transfer and no table change |
| Claims.RowsOf | src/controllers/claimController.ts:22-25 | exactly the table's rows for the wallet |
| Claims.Insert | src/controllers/claimController.ts:23 | inserting into a newest-first list keeps it newest first and adds exactly the one row |
| Claims.SortNewestFirst | src/controllers/claimController.ts:23 | the result is ordered newest first and is a permutation of the input |
| Claims.GetClaims | src/controllers/claimController.ts:19-29 | the rows are exactly the wallet's, as a permutation of them, newest first |
| Claims.GetClaimsRoute | src/controllers/claimController.ts:19-40 | the route answers 200 with exactly the wallet's rows, each as often as in the table, newest first |
| Claims.InvalidAddressAnswered | src/controllers/claimController.ts:19-40 | "kaspa:" fails the route's validator, yet the handler answers 200 for it |
| Claims.GetClaimsChecked | src/routes/api.ts:11-16 | with the validator applied, 200 iff the address matches, else 400 with the format message and no rows |
| Claims.CheckedListsOnlyValidAddresses | src/routes/api.ts:11-16 | every row the checked handler returns belongs to the requested, valid address |
| ClaimRace.Admit | src/controllers/claimController.ts:43-78 | a request goes on to insert iff its address is valid and no claim blocks it; otherwise it is refused with 400 and no data |
| ClaimRace.RacingClaimsBothPay | src/controllers/claimController.ts:57-87 | as written, two requests for one wallet whose queries both run before either insert both start a transfer and leave two clashing live claims |
| ClaimRace.AtomicClaimsExclusive | src/controllers/claimController.ts:57-106 | with the query and the insert done as one step, every interleaving of requests keeps the table free of two live claims of one wallet less than 24 h apart |
| ClaimRace.AtomicRaceRefused | src/controllers/claimController.ts:57-87 | under that schedule the atomic version pays once and refuses the second request with 400 |
| ClaimRace.LoneRequestIsCreateClaim | src/controllers/claimController.ts:42-121 | a request running alone, in either version, gives exactly the response, table and transfer of `Claims.CreateClaim` |
| TransferWrapper.TransferTokens | src/utils/transferWrapper.ts:1-37 | `executeTransfer` runs iff a private key is configured; without one the result is the fixed failure; success, hash and error are copied from its result, and a rejection becomes a failure with its message |
| TransferWrapper.SuccessOnlyFromExecution | src/utils/transferWrapper.ts:27-31 | a success is always a mainnet execution for the claimant that itself succeeded |
| TokenService.LowerHexRun | src/utils/tokenService.ts:46 | `[a-f0-9]+` is greedy: the longest lower-case hex prefix |
| TokenService.StartArgsReadBack | src/utils/tokenService.ts:19-38 | without a private key the outcome is at once the fixed failure; with one, the child's argument tokens read back under their flags as the key, the destination, the amount, the ticker (NACHO by default) and mainnet |
| TokenService.MatchHash | src/utils/tokenService.ts:46 | a match exists iff the marker occurs in the chunk followed by a lower-case hex digit; the capture is the whole hex run after the leftmost such occurrence |
| TokenService.MatchCaptures | src/utils/tokenService.ts:46-50 | wherever the marker occurs, the run after it is non-empty hex and forms part of the chunk |
| TokenService.Step | src/utils/tokenService.ts:43-80 | stdout is accumulated and a matching chunk settles success with its hash; stderr is only accumulated; a non-zero close settles failure with stderr or the default; a zero close settles "no hash" only when the output lacks the marker; a timeout settles the timeout failure |
| TokenService.RunAppend | src/utils/tokenService.ts:43-80 | running two traces one after the other is running their concatenation |
| TokenService.SettledStaysSettled | src/utils/tokenService.ts:18 | no later event changes a settled result |
| TokenService.FirstResolutionWins | src/utils/tokenService.ts:18-80 | once a trace has settled the outcome, any continuation leaves it unchanged |
| TokenService.TimeoutSettles | src/utils/tokenService.ts:73-80 | every trace containing the timeout has an outcome, and it is the timeout failure when nothing settled before |
| TokenService.WholeHashLineSucceeds | src/utils/tokenService.ts:43-53 | a chunk holding the marker line after any text without an earlier marker settles success with exactly its hash |
| TokenService.MatchOfLine | src/utils/tokenService.ts:46 | after such a prefix, the marker followed by a hex run and a non-hex rest matches with exactly that run |
| TokenService.RevealLogLineSucceeds | src/utils/tokenService.ts:43-53 | the reveal line as the transfer prints it, timestamp and level prefix included (src/utils/transfer.ts:36, 182), settles success with its hash |
| TokenService.SplitChunksDoNotMatch | src/utils/tokenService.ts:46 | neither half of a marker line split across two chunks matches |
| TokenService.SplitHashLineTimesOut | src/utils/tokenService.ts:43-80 | a transfer whose hash line arrives in two chunks and that exits cleanly ends with the timeout failure |
| TokenService.StepOnExit | src/utils/tokenService.ts:59-71 | with the match also tried on the accumulated output at close, every close settles the promise |
| TokenService.ExitSettles | src/utils/tokenService.ts:59-71 | under that fix, every trace containing a close has an outcome |
| TokenService.SplitHashLineSucceedsOnExit | src/utils/tokenService.ts:43-71 | under that fix, the split hash line ends in success with the hash |
| Inscription.PayloadReadsBack | src/utils/transfer.ts:105-116 | the payload text reads back as exactly p="krc-20", op="transfer", tick, amt, to, in that order |
| Inscription.PayloadInjective | src/utils/transfer.ts:105-116 | different transfers give different payload texts |
| Inscription.ScriptCarriesTransfer | src/utils/transfer.ts:109-117 | an indexer reading the script's envelope finds the signer's key, the "kasplex" tag, and a content that reads back as the transfer's members |
| Inscription.RedeemScriptInjective | src/utils/transfer.ts:109-117 | equal scripts only come from the same key, ticker, amount and destination |
| Inscription.RevealSpendsCommitAddress | src/utils/transfer.ts:126-168 | the commit pays exactly 0.3 KAS to the P2SH address and nothing else; the reveal asks for no outputs, forces in the first P2SH coin, at that same address, as its only priority entry, pays the 0.3 KAS fee, and both send change to the signer |
| Inscription.FirstUnsigned | src/utils/transfer.ts:175 | the index of the first input with an empty script, `None` iff there is none |
| Inscription.FillReveal | src/utils/transfer.ts:175-180 | only the first unsigned input receives the unlocking script; with none, no input changes |
| Inscription.FillTouchesFirstUnsignedOnly | src/utils/transfer.ts:175-180 | any two changed inputs are the same one, and it is the earliest unsigned input |
| Orchestrator.WrapperInscribesClaimant | src/utils/transferWrapper.ts:17-25 | the script a wrapper call inscribes reads back as a transfer of the claim amount and ticker to the claimant, on mainnet |
| Orchestrator.WrapperLogLevel | src/utils/transferWrapper.ts:17-25 | through `log` (src/utils/transfer.ts:31-37), a DEBUG line is printed iff NODE_ENV is development, and an INFO line is always printed with its timestamp and level |
| Orchestrator.RevealLineReachesService | src/utils/transfer.ts:181-182 | the reveal hash line is printed at every log level, and the printed line settles the child-process service with the same hash |
| Orchestrator.SignerPayload | src/utils/transfer.ts:83 | `split(':')[1]`: present iff the address has a colon, and then the colon-free text after the first colon, up to the next colon or the end |
| Orchestrator.FindChange | src/utils/transfer.ts:82-87 | the first entry for the payload, `None` iff there is none |
| Orchestrator.Correlate | src/utils/transfer.ts:79-102 | the flag becomes true only when a removed entry for the signer exists and the signer's added entry has the tracked id; nothing else changes |
| Orchestrator.ConnectionInscribesConfig | src/utils/transfer.ts:69-119 | after the connection, the P2SH address is that of a script an indexer reads as the configured transfer under the signer's key, and the signer is the key's address; a rejected key ends the run with its message |
| Orchestrator.ForeignIdLeavesFlag | src/utils/transfer.ts:94-98 | a notification whose added entries all carry other ids changes nothing |
| Orchestrator.Resume | src/utils/transfer.ts:56-221 | every answer moves the run forward; a thrown error outside the waits ends it with the error's message |
| Orchestrator.PhaseNeverDecreases | src/utils/transfer.ts:56-221 | no event moves the run back to an earlier phase |
| Orchestrator.StepAdvances | src/utils/transfer.ts:56-221 | apart from notifications reaching the listener, every event keeps the run moving forward |
| Orchestrator.FlagClearedOnlyAfterCommitWait | src/utils/transfer.ts:148-153 | the flag is only ever cleared when leaving the commit wait for the reveal queries |
| Orchestrator.RevealOnlyAfterMaturity | src/utils/transfer.ts:148-153 | the run only gets past the commit wait, other than by failing, when the flag was set, and it clears it on the way |
| Orchestrator.SubmitTracksHash | src/utils/transfer.ts:139-145 | each submission tracks its own hash and appends it to the sent hashes; a reveal's is the reveal hash |
| Orchestrator.VerifyOutcome | src/utils/transfer.ts:191-217 | from verification, success with the reveal hash iff the reveal is listed; otherwise a failure |
| Orchestrator.SuccessOnlyWhenRevealListed | src/utils/transfer.ts:186-206 | a whole run ends in success with hash h only if some answer of the trace, given while waiting on the verification query, listed h among the signer's coins |
| Orchestrator.ListedRevealSucceeds | src/utils/transfer.ts:191-206 | conversely, a run whose verification query lists the reveal hash ends, after the disconnect, in success with that hash |
| Orchestrator.WrapperReportsRun | src/utils/transferWrapper.ts:17-31 | for a run of `executeTransfer` on the wrapper's options that returned, the wrapper reports success iff the run succeeded, and then with a hash the verification query listed; otherwise no hash and the run's error |
| Orchestrator.StepKeepsReachable | src/utils/transfer.ts:139-184 | every step keeps the tracked id equal to the last hash submitted |
| Orchestrator.RunKeepsReachable | src/utils/transfer.ts:139-184 | whole runs keep that invariant |
| Orchestrator.TrackedIsLastSubmitted | src/utils/transfer.ts:139-145 | after any trace the tracked id is the hash of the last transaction submitted |
| Orchestrator.UnlistedRevealReportsNoUtxos | src/utils/transfer.ts:202-217 | an unlisted reveal always ends in "No UTXOs available for reveal"; the "not accepted" branch is never taken |
| Orchestrator.RunAppend | src/utils/transfer.ts:56-221 | running two traces one after the other is running their concatenation |
| Orchestrator.QuietStep | src/utils/transfer.ts:148-150 | an event that does not touch the signer's coins neither sets the flag nor passes the commit wait |
| Orchestrator.NoSignerActivityNoReveal | src/utils/transfer.ts:148-150 | with no notification for the signer, no trace reaches the reveal: the run waits or fails |
| Orchestrator.FinishedStays | src/utils/transfer.ts:56-221 | a finished run, successful or not, is unaffected by any later events that do not touch the signer's coins |
| Orchestrator.StaleCommitNoticeReleasesRevealWait | src/utils/transfer.ts:79-189 | a late commit notice during the reveal queries sets the flag, so the reveal's submission goes straight to verification without waiting for its own notice |
| Orchestrator.P2shAnswerBuilds | src/utils/transfer.ts:157-161 | the P2SH answer leads to building the reveal and leaves the flag alone |
| Orchestrator.SingleRevealSubmits | src/utils/transfer.ts:161-184 | a one-transaction reveal plan with nothing to fill goes to submission of that transaction |
| Orchestrator.LastRevealVerifies | src/utils/transfer.ts:184-191 | submitting the last reveal with the flag already set goes straight to verification |

## Left out

- Kaspa WASM and RPC: key derivation, P2SH hashing, coin selection, fees, signing and `kaspaToSompi` are parameters (`Ledger`). Amounts are integer sompi constants in place of the float `gasFee = 0.3`.
- Concurrency: the 500 ms polling loops and the asynchronous `utxos-changed` listener are an ordered trace of answers, notifications and ticks.
- The unused `timeout` option of `executeTransfer`: the waits are unbounded, as in the code.
- The listener's TypeError: a notification with a removed entry for the signer but no added one makes the `async` listener reject (src/utils/transfer.ts:94), and nothing handles that rejection. Under Node 15 and later an unhandled rejection ends the process: the child for the child-process service, the whole server for the wrapper. The model does not model that crash; it leaves the flag unchanged and carries on.
- The HMAC, `timingSafeEqual` internals and `generateNonce`: the HMAC is a parameter, and `timingSafeEqual` is equality with an error outcome on a byte-length mismatch.
- Postgres (src/config/database.ts): the claim table is a list of rows. SQL errors, the serial counter (approximated by `Claims.NextId`), `updated_at` and `healthCheck` are not modelled.
- The clock is the parameter `now`. The `fetch` to vpnapi.io is the parameter `lookup`, with its possible outcomes as a datatype.
- Express wiring, helmet, cors and the error handler (src/app.ts). The error handler is modelled only as the 500 "Internal Server Error" of `RequestGate.VerifyRequestSignature`.
- TokenService.StartArgsReadBack: the read-back is of argument tokens. The script's parser (minimist without a `string` option, src/utils/transfer.ts:226) turns every numeric-looking value into a number, so an amount such as "0100", "1.50" or "1e3" reaches `executeTransfer` as 100, 1.5 or 1000 and is inscribed as that number's text, a long digit string loses precision, and a key "0" becomes the falsy 0 and is refused. That conversion is not modelled.
- Child-process spawn and kill, dotenv, `printResolverUrls`, and the command-line block of src/utils/transfer.ts:224-252 apart from reading `--flag value` pairs (`TokenService.ArgValue`; minimist's arrays for repeated flags and its other syntax are not modelled). Of the logging, only `log`'s choice of stream and line format is modelled (`Orchestrator.Log`), and only for the lines the lemmas use.
- Claims.CreateClaim: runs one request at a time; the interleaving of concurrent requests is modelled separately in `ClaimRace`.
- JSON escapes of surrogate pairs, objects nested in the signed body (the body is its serialised text) and numbers beyond safe integers.
- Signature.VerifySignature: strings are sequences of Unicode scalar values, so a signature header holding a lone UTF-16 surrogate, which `Buffer.from` encodes as three replacement bytes, is not representable.
- VpnCheck.Answer: the `message` of a non-OK lookup's body is a string or absent; a truthy non-string `message` is not modelled.
- TokenService.Outcome: a trace without a timeout may leave the promise unsettled. The 180-second timer itself is one `Timeout` event, not a clock.

## Findings

| source | as written | input that shows it | evidently intended | confidence | as-written member | corrected member |
|---|---|---|---|---|---|---|
| src/controllers/claimController.ts:19-40 | `getClaims` never reads the result of the route's address validator (src/routes/api.ts:11-16), so invalid addresses are answered as valid ones | GET /claims/kaspa: → 200 with an empty list | 400 "Invalid Kaspa wallet address format", as `createClaim` does | medium, not executed | Claims.InvalidAddressAnswered | Claims.GetClaimsChecked, Claims.CheckedListsOnlyValidAddresses |
| src/utils/tokenService.ts:43-71 | the hash is matched per stdout chunk, and a clean exit whose output holds the marker resolves nothing | chunks "submitted reveal tx sequence" and " transaction: ab12\n", then close with code 0 → timeout failure after 180 s | success with hash "ab12", read from the accumulated output at close | medium, not executed | TokenService.SplitHashLineTimesOut | TokenService.SplitHashLineSucceedsOnExit, TokenService.ExitSettles |
| src/controllers/claimController.ts:57-87 | the cooldown query and the insert of the processing row are separate awaited statements, so two requests for one wallet can both pass the query before either inserts | two POST /claim requests for the same valid wallet, both queries answered before either insert → two transfers and two live claims | at most one transfer per wallet per 24 h, e.g. by doing the check and the insert in one transaction or under a unique constraint | medium, not executed | ClaimRace.RacingClaimsBothPay | ClaimRace.AtomicClaimsExclusive, ClaimRace.AtomicRaceRefused |
