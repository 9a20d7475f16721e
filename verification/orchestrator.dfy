/** `executeTransfer` (src/utils/transfer.ts) as a state machine over an
    ordered trace of events: the completion of the call the function is
    awaiting, a `utxos-changed` notification delivered to its listener, or
    a wake-up of one of its 500 ms polling loops. The ledger library is a
    set of function parameters; the chain of awaits is the `Stage`. */
module Orchestrator {
  import opened Text
  import opened Inscription
  import opened TransferWrapper
  import Json
  import TokenService

  /** What the ledger library computes without a round trip: the signer's
      address and x-only public key for a private key (or the exception
      `new PrivateKey` throws), the P2SH address of a redeem script, and
      the unlocking script for a signature. */
  datatype Ledger = Ledger(
    keys: string -> KeyPair,
    p2shAddress: seq<ScriptItem> -> string,
    unlockScript: (seq<ScriptItem>, string) -> string)

  datatype KeyPair = Keys(address: string, xOnlyKey: string) | KeyError(thrown: Thrown)

  /** The options `executeTransfer` uses, after defaults; the priority fee
      is already in sompi. */
  datatype Config = Config(
    privateKey: string, dest: string, amount: string, ticker: string, network: string, priorityFee: Sompi)

  const DefaultPriorityFee: string := "0.1"

  /** The options after the destructuring defaults. Every field but the
      priority fee comes from the wrapper, which always passes them; the
      fee falls back to `PRIORITY_FEE` or 0.1 KAS, converted by
      `kaspaToSompi` (a parameter). */
  function ConfigOf(o: TransferOptions, priorityFeeEnv: Option<string>, toSompi: string -> Sompi): (c: Config)
    ensures c.privateKey == o.privateKey && c.dest == o.dest && c.amount == o.amount
    ensures c.ticker == o.ticker && c.network == o.network
    ensures c.priorityFee == toSompi(EnvOr(priorityFeeEnv, DefaultPriorityFee))
  {
    Config(o.privateKey, o.dest, o.amount, o.ticker, o.network, toSompi(EnvOr(priorityFeeEnv, DefaultPriorityFee)))
  }

  /** A transfer started by the claim wrapper inscribes a KRC-20 transfer
      of the claim's ticker and amount to the claimant's address, on the
      mainnet. */
  lemma WrapperInscribesClaimant(walletAddress: string, amount: Option<string>, settings: Settings,
                                 priorityFeeEnv: Option<string>, toSompi: string -> Sompi, xOnlyKey: string)
    requires settings.walletPrivateKey.Some? && settings.walletPrivateKey.value != ""
    ensures var c := ConfigOf(Options(settings.walletPrivateKey.value, walletAddress, amount, settings), priorityFeeEnv, toSompi);
      var script := RedeemScript(xOnlyKey, c.ticker, c.amount, c.dest);
      && c.network == Network
      && Json.ReadObject(script[6].text) == Some(PayloadFields(EnvOr(settings.claimTicker, TransferWrapper.DefaultTicker),
                                                          AmountOr(amount, settings), walletAddress))
  {
    var c := ConfigOf(Options(settings.walletPrivateKey.value, walletAddress, amount, settings), priorityFeeEnv, toSompi);
    ScriptCarriesTransfer(xOnlyKey, c.ticker, c.amount, c.dest);
  }

  /** A transaction built by `createTransactions`, already signed by the
      signer (its P2SH input, if any, left with an empty script). */
  datatype Tx = Tx(id: string, inputs: seq<Input>)

  /** An entry of a `utxos-changed` notification: the address payload and
      the id of the transaction that created the output. */
  datatype Change = Change(payload: string, transactionId: string)

  /** How an awaited call completes. `Listed` is the final UTXO query, one
      outpoint transaction id per entry (`None` for an entry without an
      outpoint). */
  datatype Reply =
    | Threw(thrown: Thrown)
    | Done
    | Entries(utxos: seq<Utxo>)
    | Transactions(txs: seq<Tx>)
    | Signature(signature: string)
    | Submitted(hash: string)
    | Listed(outpoints: seq<Option<string>>)

  datatype Event = Notify(added: seq<Change>, removed: seq<Change>) | Tick | Answer(reply: Reply)

  /** What `executeTransfer` resolves to. */
  datatype Result = Succeeded(txHash: Option<string>) | FailedWith(error: string)

  /** Where the function is: the call it awaits, a polling loop, or done. */
  datatype Stage =
    | FirstDisconnect
    | Connecting
    | Subscribing
    | QueryCommitUtxos
    | BuildCommit
    | SubmitCommit(current: Tx, rest: seq<Tx>)
    | WaitCommit
    | QuerySignerUtxos
    | QueryP2shUtxos(signerUtxos: seq<Utxo>)
    | BuildReveal
    | SignReveal(current: Tx, rest: seq<Tx>, input: nat)
    | SubmitReveal(filled: Tx, rest: seq<Tx>)
    | WaitReveal
    | Verify
    | FinalDisconnect
    | Finished(result: Result)

  /** The function's locals and closure variables: `eventReceived` is
      `matured`, `SubmittedtrxId` is `tracked`. `plans` and `sent` record
      what was passed to `createTransactions` and `submit`, and `hashes`
      every hash `submit` returned. */
  datatype Machine = Machine(
    stage: Stage, listening: bool, signer: string, script: seq<ScriptItem>, p2sh: string,
    tracked: Option<string>, matured: bool, revealHash: Option<string>,
    plans: seq<Plan>, sent: seq<Tx>, hashes: seq<string>)

  const NotAccepted: string := "Reveal transaction not accepted"
  const NoUtxos: string := "No UTXOs available for reveal"

  function Start(): (m: Machine)
    ensures m.stage == FirstDisconnect && !m.listening && !m.matured && m.tracked.None? && m.hashes == []
  {
    Machine(FirstDisconnect, false, "", [], "", None, false, None, [], [], [])
  }

  /** `address.toString().split(':')[1]`, `None` for `undefined`: the text
      between the first colon and the next one (or the end). */
  function SignerPayload(address: string): (r: Option<string>)
    ensures r.Some? <==> ':' in address
    ensures r.Some? ==>
      var i := FirstIndexOf(address, ':');
      && ':' !in r.value
      && StartsWith(address[i + 1..], r.value)
      && (i + 1 + |r.value| == |address| || address[i + 1 + |r.value|] == ':')
  {
    var parts := Split(address, ':');
    if |parts| > 1 then
      var i := FirstIndexOf(address, ':');
      assert parts[1] == Split(address[i + 1..], ':')[0];
      SplitHead(address[i + 1..], ':');
      Some(parts[1])
    else
      assert Join(parts, ':') == parts[0];
      None
  }

  /** `list.find(entry => entry.address.payload === payload)` */
  function FindChange(list: seq<Change>, payload: string): (r: Option<Change>)
    ensures r.None? <==> forall i :: 0 <= i < |list| ==> list[i].payload != payload
    ensures r.Some? ==> exists i :: (
      && 0 <= i < |list| && list[i] == r.value && r.value.payload == payload
      && forall j :: 0 <= j < i ==> list[j].payload != payload)
    decreases |list|
  {
    if list == [] then None
    else if list[0].payload == payload then Some(list[0])
    else
      var r := FindChange(list[1..], payload);
      if r.Some? then
        var i :| 0 <= i < |list[1..]| && list[1..][i] == r.value && r.value.payload == payload
          && forall j :: 0 <= j < i ==> list[1..][j].payload != payload;
        assert list[i + 1] == r.value;
        r
      else r
  }

  /** The `utxos-changed` listener: the flag is set when the event removes
      an output of the signer and the first added output of the signer was
      created by the tracked transaction. When no added entry is the
      signer's, reading its outpoint throws inside the listener, and the
      flag is left alone. */
  function Correlate(m: Machine, added: seq<Change>, removed: seq<Change>): (r: Machine)
    ensures r == m.(matured := r.matured)
    ensures r.matured <==> (m.matured || (
      && SignerPayload(m.signer).Some?
      && FindChange(removed, SignerPayload(m.signer).value).Some?
      && FindChange(added, SignerPayload(m.signer).value).Some?
      && Some(FindChange(added, SignerPayload(m.signer).value).value.transactionId) == m.tracked))
  {
    match SignerPayload(m.signer)
    case None => m
    case Some(payload) =>
      if FindChange(removed, payload).None? then m
      else
        match FindChange(added, payload)
        case None => m
        case Some(entry) => if Some(entry.transactionId) == m.tracked then m.(matured := true) else m
  }

  /** A notification about some other transaction never sets the flag. */
  lemma ForeignIdLeavesFlag(m: Machine, added: seq<Change>, removed: seq<Change>)
    requires forall i :: 0 <= i < |added| ==> Some(added[i].transactionId) != m.tracked
    ensures Correlate(m, added, removed) == m
  {
    var r := Correlate(m, added, removed);
    if SignerPayload(m.signer).Some? && FindChange(added, SignerPayload(m.signer).value).Some? {
      var i :| 0 <= i < |added| && added[i] == FindChange(added, SignerPayload(m.signer).value).value;
    }
  }

  /** The stages in the order the function passes through them; signing
      and submitting a reveal share a phase, as the loop alternates them. */
  function Phase(s: Stage): (n: nat)
    ensures n <= 14
    ensures n == 14 <==> s.Finished?
  {
    match s
    case FirstDisconnect => 0
    case Connecting => 1
    case Subscribing => 2
    case QueryCommitUtxos => 3
    case BuildCommit => 4
    case SubmitCommit(_, _) => 5
    case WaitCommit => 6
    case QuerySignerUtxos => 7
    case QueryP2shUtxos(_) => 8
    case BuildReveal => 9
    case SignReveal(_, _, _) => 10
    case SubmitReveal(_, _) => 10
    case WaitReveal => 11
    case Verify => 12
    case FinalDisconnect => 13
    case Finished(_) => 14
  }

  /** `while (!eventReceived)` after the commit loop, and the `if` after
      it: pass at once, clearing the flag, when it is already set. */
  function EnterWaitCommit(m: Machine): (r: Machine)
    ensures m.matured ==> r == m.(stage := QuerySignerUtxos, matured := false)
    ensures !m.matured ==> r == m.(stage := WaitCommit)
  {
    if m.matured then m.(stage := QuerySignerUtxos, matured := false) else m.(stage := WaitCommit)
  }

  /** `while (!eventReceived)` after the reveal loop. */
  function EnterWaitReveal(m: Machine): (r: Machine)
    ensures m.matured ==> r == m.(stage := Verify)
    ensures !m.matured ==> r == m.(stage := WaitReveal)
  {
    if m.matured then m.(stage := Verify) else m.(stage := WaitReveal)
  }

  /** The `for` loop over the commit transactions. */
  function NextCommit(m: Machine, txs: seq<Tx>): (r: Machine)
    ensures txs == [] ==> r == EnterWaitCommit(m)
    ensures txs != [] ==> r == m.(stage := SubmitCommit(txs[0], txs[1..]))
  {
    if txs == [] then EnterWaitCommit(m) else m.(stage := SubmitCommit(txs[0], txs[1..]))
  }

  /** The `for` loop over the reveal transactions: the first unsigned
      input, if any, first needs a signature. */
  function NextReveal(m: Machine, txs: seq<Tx>): (r: Machine)
    ensures txs == [] ==> r == EnterWaitReveal(m)
    ensures txs != [] ==> r.stage.SignReveal? || r.stage.SubmitReveal?
    ensures txs != [] ==> r == m.(stage := r.stage)
  {
    if txs == [] then EnterWaitReveal(m)
    else
      match FirstUnsigned(txs[0].inputs)
      case Some(i) => m.(stage := SignReveal(txs[0], txs[1..], i))
      case None => m.(stage := SubmitReveal(txs[0], txs[1..]))
  }

  /** `revealAccepted`: some entry's outpoint id is `revealHash`, with
      `undefined === undefined` counting as equal. */
  predicate RevealListed(outpoints: seq<Option<string>>, revealHash: Option<string>) {
    exists i :: 0 <= i < |outpoints| && outpoints[i] == revealHash
  }

  /** After `connect`: derive the signer's keys, build the script and its
      P2SH address. */
  function Connected(m: Machine, config: Config, ledger: Ledger): (r: Machine)
    ensures r == m.(stage := r.stage, signer := r.signer, script := r.script, p2sh := r.p2sh)
    ensures r.stage == Subscribing || (r.stage.Finished? && r.stage.result.FailedWith?)
    ensures ledger.keys(config.privateKey).KeyError? ==>
      r == m.(stage := Finished(FailedWith(MessageOr(ledger.keys(config.privateKey).thrown, UnknownError))))
    ensures ledger.keys(config.privateKey).Keys? ==>
      var keys := ledger.keys(config.privateKey);
      var script := RedeemScript(keys.xOnlyKey, config.ticker, config.amount, config.dest);
      r == m.(stage := Subscribing, signer := keys.address, script := script, p2sh := ledger.p2shAddress(script))
  {
    match ledger.keys(config.privateKey)
    case KeyError(t) => m.(stage := Finished(FailedWith(MessageOr(t, UnknownError))))
    case Keys(address, xOnly) =>
      var script := RedeemScript(xOnly, config.ticker, config.amount, config.dest);
      m.(stage := Subscribing, signer := address, script := script, p2sh := ledger.p2shAddress(script))
  }

  /** `submit` returned `hash`: it is recorded and becomes the tracked id. */
  function Record(m: Machine, tx: Tx, hash: string): (r: Machine)
    ensures r == m.(tracked := Some(hash), sent := m.sent + [tx], hashes := m.hashes + [hash])
  {
    m.(tracked := Some(hash), sent := m.sent + [tx], hashes := m.hashes + [hash])
  }

  /** The reveal with the unlocking script for `signature` in its first
      unsigned input. */
  function Signed(tx: Tx, script: seq<ScriptItem>, signature: string, ledger: Ledger): (r: Tx)
    ensures r.id == tx.id && r.inputs == FillReveal(tx.inputs, (_: nat) => ledger.unlockScript(script, signature))
  {
    var unlock := ledger.unlockScript(script, signature);
    tx.(inputs := FillReveal(tx.inputs, (_: nat) => unlock))
  }

  /** The verification `try` block: success only when the reveal is
      listed; the `!eventReceived` branch otherwise, and the final return
      when the flag is set. */
  function Verdict(m: Machine, outpoints: seq<Option<string>>): (r: Machine)
    ensures r == m.(stage := r.stage)
    ensures r.stage == FinalDisconnect <==> RevealListed(outpoints, m.revealHash)
    ensures !RevealListed(outpoints, m.revealHash) ==>
      r.stage == Finished(FailedWith(if m.matured then NoUtxos else NotAccepted))
  {
    if RevealListed(outpoints, m.revealHash) then m.(stage := FinalDisconnect)
    else if !m.matured then m.(stage := Finished(FailedWith(NotAccepted)))
    else m.(stage := Finished(FailedWith(NoUtxos)))
  }

  /** What one completion of an awaited call may change: the stage only
      moves forward; the flag is never set, and cleared only on the way
      out of the first wait; the function gets past that wait only with the
      flag set, and reaches verification only with it set; the listener,
      once registered, stays; the signer is fixed at connection; `submit`
      appends one hash and tracks it; success comes only after the final
      disconnect. */
  predicate Advances(m: Machine, r: Machine) {
    && Phase(m.stage) <= Phase(r.stage)
    && (r.matured ==> m.matured)
    && (m.matured && !r.matured ==> r.stage == QuerySignerUtxos && Phase(m.stage) <= Phase(WaitCommit))
    && (Phase(m.stage) <= Phase(WaitCommit) < Phase(r.stage) && !r.stage.Finished? ==> r.stage == QuerySignerUtxos && m.matured)
    && (r.stage == Verify && m.stage != Verify ==> r.matured)
    && (r.stage == Verify && m.stage == Verify ==> r.matured == m.matured)
    && (m.listening ==> r.listening)
    && (Phase(m.stage) < Phase(QueryCommitUtxos) <= Phase(r.stage) && !r.stage.Finished? ==> r.listening)
    && (r.signer == m.signer || m.stage == Connecting)
    && ((r.hashes == m.hashes && r.tracked == m.tracked) ||
        (|r.hashes| == |m.hashes| + 1 && r.hashes[..|m.hashes|] == m.hashes && r.tracked == Some(r.hashes[|m.hashes|])))
    && (r.stage.Finished? && r.stage.result.Succeeded? && !m.stage.Finished? ==> m.stage == FinalDisconnect)
  }

  /** The completion of `connect`. */
  function ResumeConnecting(m: Machine, reply: Reply, config: Config, ledger: Ledger): (r: Machine)
    requires m.stage == Connecting
    ensures Advances(m, r)
  {
    if reply.Done? then
      var r := Connected(m, config, ledger);
      assert Phase(m.stage) < Phase(r.stage);
      r
    else m
  }

  /** The awaited calls before the commit: the reconnection, the key
      derivation, the subscription and the signer's UTXO query. */
  function ResumeSetup(m: Machine, reply: Reply, config: Config, ledger: Ledger): (r: Machine)
    requires Phase(m.stage) <= Phase(QueryCommitUtxos) && !reply.Threw?
    ensures Advances(m, r)
  {
    match m.stage
    case FirstDisconnect => if reply.Done? then m.(stage := Connecting) else m
    case Connecting => ResumeConnecting(m, reply, config, ledger)
    case Subscribing => if reply.Done? then m.(stage := QueryCommitUtxos, listening := true) else m
    case QueryCommitUtxos =>
      if reply.Entries? then
        m.(stage := BuildCommit,
           plans := m.plans + [CommitPlan(reply.utxos, m.p2sh, m.signer, config.priorityFee, config.network)])
      else m
  }

  /** The commit: building it and submitting each transaction. */
  function ResumeCommit(m: Machine, reply: Reply): (r: Machine)
    requires (m.stage == BuildCommit || m.stage.SubmitCommit?) && !reply.Threw?
    ensures Advances(m, r)
  {
    match m.stage
    case BuildCommit => if reply.Transactions? then NextCommit(m, reply.txs) else m
    case SubmitCommit(current, rest) =>
      if reply.Submitted? then NextCommit(Record(m, current, reply.hash), rest) else m
  }

  /** The two UTXO queries before the reveal: the signer's coins, then
      the P2SH address's, which go into the reveal plan. */
  function ResumeRevealQueries(m: Machine, reply: Reply, config: Config): (r: Machine)
    requires (m.stage == QuerySignerUtxos || m.stage.QueryP2shUtxos?) && !reply.Threw?
    ensures Advances(m, r)
    ensures Phase(r.stage) <= Phase(Verify)
  {
    match m.stage
    case QuerySignerUtxos => if reply.Entries? then m.(stage := QueryP2shUtxos(reply.utxos)) else m
    case QueryP2shUtxos(signerUtxos) =>
      if reply.Entries? then
        m.(stage := BuildReveal, plans := m.plans + [RevealPlan(signerUtxos, reply.utxos, m.signer, config.network)])
      else m
  }

  /** A signature for the reveal's P2SH input: the filled transaction is
      submitted next. */
  function ResumeSign(m: Machine, reply: Reply, ledger: Ledger): (r: Machine)
    requires m.stage.SignReveal? && !reply.Threw?
    ensures Advances(m, r)
    ensures Phase(r.stage) <= Phase(Verify)
  {
    if reply.Signature? then
      m.(stage := SubmitReveal(Signed(m.stage.current, m.script, reply.signature, ledger), m.stage.rest))
    else m
  }

  /** A reveal transaction submitted: its hash is recorded as the reveal
      hash, and the loop goes on. */
  function ResumeSubmitReveal(m: Machine, reply: Reply): (r: Machine)
    requires m.stage.SubmitReveal? && !reply.Threw?
    ensures Advances(m, r)
    ensures Phase(r.stage) <= Phase(Verify)
  {
    if reply.Submitted? then
      var n := Record(m, m.stage.filled, reply.hash).(revealHash := Some(reply.hash));
      assert n.hashes[..|m.hashes|] == m.hashes;
      NextReveal(n, m.stage.rest)
    else m
  }

  /** The reveal loop: building the transactions, signing the P2SH input
      and submitting each transaction. */
  function ResumeRevealLoop(m: Machine, reply: Reply, ledger: Ledger): (r: Machine)
    requires (m.stage == BuildReveal || m.stage.SignReveal? || m.stage.SubmitReveal?) && !reply.Threw?
    ensures Advances(m, r)
    ensures Phase(r.stage) <= Phase(Verify)
  {
    if m.stage.SignReveal? then ResumeSign(m, reply, ledger)
    else if m.stage.SubmitReveal? then ResumeSubmitReveal(m, reply)
    else if reply.Transactions? then NextReveal(m, reply.txs)
    else m
  }

  /** The reveal: the UTXO queries, then the loop. */
  function ResumeReveal(m: Machine, reply: Reply, config: Config, ledger: Ledger): (r: Machine)
    requires Phase(QuerySignerUtxos) <= Phase(m.stage) < Phase(WaitReveal) && !reply.Threw?
    ensures Advances(m, r)
    ensures Phase(r.stage) <= Phase(Verify)
  {
    if Phase(m.stage) <= Phase(QueryP2shUtxos([])) then ResumeRevealQueries(m, reply, config)
    else ResumeRevealLoop(m, reply, ledger)
  }

  /** The completion of the awaited call. A reply of the wrong kind for the
      stage leaves the machine as it is; an exception ends the function
      with its message. */
  function Resume(m: Machine, reply: Reply, config: Config, ledger: Ledger): (r: Machine)
    ensures Advances(m, r)
    ensures reply.Threw? && !m.stage.Finished? && m.stage != WaitCommit && m.stage != WaitReveal ==>
      r == m.(stage := Finished(FailedWith(MessageOr(reply.thrown, UnknownError))))
  {
    if m.stage.Finished? || m.stage == WaitCommit || m.stage == WaitReveal then m
    else if reply.Threw? then m.(stage := Finished(FailedWith(MessageOr(reply.thrown, UnknownError))))
    else if Phase(m.stage) <= Phase(QueryCommitUtxos) then ResumeSetup(m, reply, config, ledger)
    else if Phase(m.stage) <= Phase(WaitCommit) then ResumeCommit(m, reply)
    else if Phase(m.stage) <= Phase(WaitReveal) then ResumeReveal(m, reply, config, ledger)
    else if m.stage == Verify then (if reply.Listed? then Verdict(m, reply.outpoints) else m)
    else if reply.Done? then m.(stage := Finished(Succeeded(m.revealHash)))
    else m
  }

  /** One event. The listener runs only once registered; a wake-up leaves
      a polling loop when the flag is set. */
  function Step(m: Machine, e: Event, config: Config, ledger: Ledger): (r: Machine)
    ensures e.Answer? ==> r == Resume(m, e.reply, config, ledger)
    ensures e.Notify? ==> r == (if m.listening then Correlate(m, e.added, e.removed) else m)
    ensures e.Tick? && m.matured && m.stage == WaitCommit ==> r == m.(stage := QuerySignerUtxos, matured := false)
    ensures e.Tick? && m.matured && m.stage == WaitReveal ==> r == m.(stage := Verify)
    ensures e.Tick? && !(m.matured && (m.stage == WaitCommit || m.stage == WaitReveal)) ==> r == m
  {
    match e
    case Notify(added, removed) => if m.listening then Correlate(m, added, removed) else m
    case Tick =>
      if m.stage == WaitCommit && m.matured then m.(stage := QuerySignerUtxos, matured := false)
      else if m.stage == WaitReveal && m.matured then m.(stage := Verify)
      else m
    case Answer(reply) => Resume(m, reply, config, ledger)
  }

  function Run(m: Machine, trace: seq<Event>, config: Config, ledger: Ledger): Machine
    decreases |trace|
  {
    if trace == [] then m else Run(Step(m, trace[0], config, ledger), trace[1..], config, ledger)
  }

  /** The promise's value, once the function has returned. */
  function Outcome(trace: seq<Event>, config: Config, ledger: Ledger): (r: Option<Result>)
    ensures r.Some? <==> Run(Start(), trace, config, ledger).stage.Finished?
  {
    var m := Run(Start(), trace, config, ledger);
    if m.stage.Finished? then Some(m.stage.result) else None
  }

  /** The wrapper's view: `executeTransfer` catches everything itself, so
      it always returns a result object and never rejects. */
  function AsExecution(r: Result): (e: Execution)
    ensures e.Returned?
    ensures e.success <==> r.Succeeded?
    ensures e.success ==> e.txHash == r.txHash && e.error.None?
    ensures !e.success ==> e.txHash.None? && e.error == Some(r.error)
  {
    match r
    case Succeeded(h) => Returned(true, h, None)
    case FailedWith(msg) => Returned(false, None, Some(msg))
  }

  // ---- The log ----

  /** Where a `log` call's line goes. */
  datatype Printed = ToStdout(line: string) | ToStderr(line: string) | Silent

  /** `log(message, level)` at time `timestamp`: an ERROR line goes to
      stderr; any other line is printed when its level is INFO or the
      configured level is DEBUG. */
  function Log(message: string, level: string, logLevel: string, timestamp: string): Printed
  {
    var line := "[" + timestamp + "] [" + level + "] " + message;
    if level == "ERROR" then ToStderr(line)
    else if logLevel == "DEBUG" || level == "INFO" then ToStdout(line)
    else Silent
  }

  /** The log level the claim wrapper passes decides the debug output: a
      DEBUG line is printed iff NODE_ENV is development, while INFO lines
      are printed either way. */
  lemma WrapperLogLevel(key: string, walletAddress: string, amount: Option<string>, settings: Settings,
                        message: string, timestamp: string)
    ensures var o := Options(key, walletAddress, amount, settings);
      && (Log(message, "DEBUG", o.logLevel, timestamp).ToStdout? <==> settings.nodeEnv == Some("development"))
      && Log(message, "INFO", o.logLevel, timestamp) == ToStdout("[" + timestamp + "] [INFO] " + message)
  {
  }

  /** The reveal hash line is logged at INFO, so it is printed at every
      log level; read by the child-process service as one stdout chunk
      (with the newline `console.log` adds), it settles that service's
      promise with the same hash. */
  lemma RevealLineReachesService(hash: string, logLevel: string, timestamp: string, args: seq<string>)
    requires 's' !in timestamp
    requires hash != [] && forall i :: 0 <= i < |hash| ==> IsLowerHex(hash[i])
    ensures Log(TokenService.HashMarker + hash, "INFO", logLevel, timestamp).ToStdout?
    ensures TokenService.Outcome(TokenService.Spawned(args),
              [TokenService.Stdout(Log(TokenService.HashMarker + hash, "INFO", logLevel, timestamp).line + "\n")])
         == Some(TransferResult(true, Some(hash), None))
  {
    var line := "[" + timestamp + "] [INFO] " + (TokenService.HashMarker + hash);
    assert Log(TokenService.HashMarker + hash, "INFO", logLevel, timestamp) == ToStdout(line);
    assert line + "\n" == "[" + timestamp + "] [INFO] " + TokenService.HashMarker + hash + "\n";
    TokenService.RevealLogLineSucceeds(timestamp, hash, args);
  }

  /** Completing the connection derives the keys and builds the redeem
      script: the P2SH address is the one of a script an indexer reads as
      the configured transfer under the signer's key, and the signer is
      the key's address; a key the library rejects ends the function with
      its message. */
  lemma ConnectionInscribesConfig(m: Machine, config: Config, ledger: Ledger)
    requires m.stage == Connecting
    ensures var n := Step(m, Answer(Done), config, ledger);
      match ledger.keys(config.privateKey)
      case Keys(address, xOnlyKey) =>
        && n.stage == Subscribing && n.signer == address && n.p2sh == ledger.p2shAddress(n.script)
        && ReadEnvelope(n.script) == Some((xOnlyKey, Protocol, Payload(config.ticker, config.amount, config.dest)))
      case KeyError(t) => n.stage == Finished(FailedWith(MessageOr(t, UnknownError)))
  {
    var keys := ledger.keys(config.privateKey);
    if keys.Keys? {
      ScriptCarriesTransfer(keys.xOnlyKey, config.ticker, config.amount, config.dest);
    }
  }

  // ---- Properties of single steps ----

  /** Every event respects `Advances`, except that the listener may set
      the flag. */
  lemma StepAdvances(m: Machine, e: Event, config: Config, ledger: Ledger)
    requires !(e.Notify? && m.listening)
    ensures Advances(m, Step(m, e, config, ledger))
  {
  }

  /** The function only moves forward through its stages. */
  lemma PhaseNeverDecreases(m: Machine, e: Event, config: Config, ledger: Ledger)
    ensures Phase(Step(m, e, config, ledger).stage) >= Phase(m.stage)
  {
  }

  /** The flag is cleared only on the way out of the first wait, into the
      signer's UTXO query. */
  lemma FlagClearedOnlyAfterCommitWait(m: Machine, e: Event, config: Config, ledger: Ledger)
    requires m.matured && !Step(m, e, config, ledger).matured
    ensures Step(m, e, config, ledger).stage == QuerySignerUtxos && Phase(m.stage) <= Phase(WaitCommit)
  {
  }

  /** The reveal phase is entered only from the commit phase, only with the
      flag seen set, and with the flag cleared. */
  lemma RevealOnlyAfterMaturity(m: Machine, e: Event, config: Config, ledger: Ledger)
    requires Phase(m.stage) <= Phase(WaitCommit) < Phase(Step(m, e, config, ledger).stage)
    requires !Step(m, e, config, ledger).stage.Finished?
    ensures m.matured && !Step(m, e, config, ledger).matured
    ensures Step(m, e, config, ledger).stage == QuerySignerUtxos
  {
  }

  /** Each `submit` makes its hash the tracked id. */
  lemma SubmitTracksHash(m: Machine, hash: string, config: Config, ledger: Ledger)
    requires m.stage.SubmitCommit? || m.stage.SubmitReveal?
    ensures var n := Step(m, Answer(Submitted(hash)), config, ledger);
      n.tracked == Some(hash) && n.hashes == m.hashes + [hash]
    ensures m.stage.SubmitReveal? ==> Step(m, Answer(Submitted(hash)), config, ledger).revealHash == Some(hash)
  {
  }

  /** The verification step: with the reveal listed, the function goes on
      to disconnect and then succeeds with the reveal hash; otherwise it
      fails, with which message depending on the flag. */
  lemma VerifyOutcome(m: Machine, outpoints: seq<Option<string>>, config: Config, ledger: Ledger)
    requires m.stage == Verify
    ensures var n := Step(m, Answer(Listed(outpoints)), config, ledger);
      && (n.stage == FinalDisconnect <==> RevealListed(outpoints, m.revealHash))
      && (!RevealListed(outpoints, m.revealHash) ==>
            n.stage == Finished(FailedWith(if m.matured then NoUtxos else NotAccepted)))
      && (RevealListed(outpoints, m.revealHash) ==>
            Step(n, Answer(Done), config, ledger).stage == Finished(Succeeded(m.revealHash)))
  {
  }

  // ---- Invariants of every run ----

  function LastOf(hashes: seq<string>): (r: Option<string>)
    ensures r.None? <==> hashes == []
    ensures r.Some? ==> r.value == hashes[|hashes| - 1]
  {
    if hashes == [] then None else Some(hashes[|hashes| - 1])
  }

  /** What holds in every state a run reaches: the tracked id is the last
      submitted hash, the flag is set whenever the function verifies, and
      the listener is registered from the UTXO queries on. */
  predicate Reachable(m: Machine) {
    && m.tracked == LastOf(m.hashes)
    && (m.stage == Verify ==> m.matured)
    && (Phase(QueryCommitUtxos) <= Phase(m.stage) && !m.stage.Finished? ==> m.listening)
  }

  lemma StepKeepsReachable(m: Machine, e: Event, config: Config, ledger: Ledger)
    requires Reachable(m)
    ensures Reachable(Step(m, e, config, ledger))
  {
    var n := Step(m, e, config, ledger);
    if e.Answer? {
      assert Advances(m, n);
      if n.hashes != m.hashes {
        assert n.hashes == n.hashes[..|m.hashes|] + [n.hashes[|m.hashes|]];
      }
    }
  }

  lemma {:induction false} RunKeepsReachable(m: Machine, trace: seq<Event>, config: Config, ledger: Ledger)
    requires Reachable(m)
    ensures Reachable(Run(m, trace, config, ledger))
    decreases |trace|
  {
    if trace != [] {
      StepKeepsReachable(m, trace[0], config, ledger);
      RunKeepsReachable(Step(m, trace[0], config, ledger), trace[1..], config, ledger);
    }
  }

  /** After any trace, the tracked id is the hash of the last transaction
      submitted, in whichever phase. */
  lemma TrackedIsLastSubmitted(trace: seq<Event>, config: Config, ledger: Ledger)
    ensures var m := Run(Start(), trace, config, ledger); m.tracked == LastOf(m.hashes)
  {
    RunKeepsReachable(Start(), trace, config, ledger);
  }

  /** The `else if (!eventReceived)` branch is dead: the function reaches
      verification only with the flag set, so a reveal that is not listed
      always ends with 'No UTXOs available for reveal'. */
  lemma UnlistedRevealReportsNoUtxos(trace: seq<Event>, outpoints: seq<Option<string>>, config: Config, ledger: Ledger)
    requires Run(Start(), trace, config, ledger).stage == Verify
    requires !RevealListed(outpoints, Run(Start(), trace, config, ledger).revealHash)
    ensures Run(Start(), trace + [Answer(Listed(outpoints))], config, ledger).stage == Finished(FailedWith(NoUtxos))
  {
    var m := Run(Start(), trace, config, ledger);
    RunKeepsReachable(Start(), trace, config, ledger);
    assert m.matured;
    VerifyOutcome(m, outpoints, config, ledger);
    RunAppend(Start(), trace, [Answer(Listed(outpoints))], config, ledger);
    RunOne(m, Answer(Listed(outpoints)), config, ledger);
  }

  /** Past the verification with `h` as the reveal hash: disconnecting,
      or returned with success and `h`. */
  predicate Verified(m: Machine, h: Option<string>) {
    || (m.stage == FinalDisconnect && m.revealHash == h)
    || m.stage == Finished(Succeeded(h))
  }

  /** The event at `i` is the verification query's answer, listing `h`
      while the function waits on it with `h` as its reveal hash. */
  predicate ListedAt(m: Machine, trace: seq<Event>, i: nat, config: Config, ledger: Ledger, h: Option<string>)
    requires i < |trace|
  {
    var v := Run(m, trace[..i], config, ledger);
    && v.stage == Verify && v.revealHash == h
    && trace[i].Answer? && trace[i].reply.Listed? && RevealListed(trace[i].reply.outpoints, h)
  }

  /** The only step into `Verified` is the verification query listing the
      reveal hash. */
  lemma VerifiedOnlyFromListing(m: Machine, e: Event, config: Config, ledger: Ledger, h: Option<string>)
    requires !Verified(m, h) && Verified(Step(m, e, config, ledger), h)
    ensures m.stage == Verify && m.revealHash == h
    ensures e.Answer? && e.reply.Listed? && RevealListed(e.reply.outpoints, h)
  {
  }

  lemma {:induction false} VerifiedAfterListing(m: Machine, trace: seq<Event>, config: Config, ledger: Ledger,
                                                h: Option<string>)
    requires !Verified(m, h) && Verified(Run(m, trace, config, ledger), h)
    ensures exists i :: 0 <= i < |trace| && ListedAt(m, trace, i, config, ledger, h)
    decreases |trace|
  {
    if trace == [] {
    } else {
      var n := Step(m, trace[0], config, ledger);
      if Verified(n, h) {
        VerifiedOnlyFromListing(m, trace[0], config, ledger, h);
        assert trace[..0] == [];
        assert ListedAt(m, trace, 0, config, ledger, h);
      } else {
        VerifiedAfterListing(n, trace[1..], config, ledger, h);
        var i :| 0 <= i < |trace[1..]| && ListedAt(n, trace[1..], i, config, ledger, h);
        assert trace[..i + 1][0] == trace[0] && trace[..i + 1][1..] == trace[1..][..i];
        assert trace[i + 1] == trace[1..][i];
        assert ListedAt(m, trace, i + 1, config, ledger, h);
      }
    }
  }

  /** Success is reported only after the verification query listed the
      reveal hash, and with exactly that hash: some event of the trace is
      that answer, given while the function waited on it. */
  lemma SuccessOnlyWhenRevealListed(trace: seq<Event>, config: Config, ledger: Ledger, h: Option<string>)
    requires Outcome(trace, config, ledger) == Some(Succeeded(h))
    ensures exists i :: 0 <= i < |trace| && ListedAt(Start(), trace, i, config, ledger, h)
  {
    VerifiedAfterListing(Start(), trace, config, ledger, h);
  }

  /** Conversely, once the verification query lists the reveal hash, the
      disconnect that follows ends the function with success and that
      hash. */
  lemma ListedRevealSucceeds(trace: seq<Event>, outpoints: seq<Option<string>>, config: Config, ledger: Ledger)
    requires Run(Start(), trace, config, ledger).stage == Verify
    requires RevealListed(outpoints, Run(Start(), trace, config, ledger).revealHash)
    ensures Outcome(trace + [Answer(Listed(outpoints)), Answer(Done)], config, ledger)
         == Some(Succeeded(Run(Start(), trace, config, ledger).revealHash))
  {
    var m := Run(Start(), trace, config, ledger);
    var tail := [Answer(Listed(outpoints)), Answer(Done)];
    VerifyOutcome(m, outpoints, config, ledger);
    RunAppend(Start(), trace, tail, config, ledger);
    assert tail[1..] == [Answer(Done)] && [Answer(Done)][1..] == [];
  }

  /** What the claim wrapper reports for a run of `executeTransfer` on its
      options that has returned: success exactly when the run succeeded,
      and then with a hash the verification query listed; otherwise the
      run's error message. */
  lemma WrapperReportsRun(walletAddress: string, amount: Option<string>, settings: Settings,
                          priorityFeeEnv: Option<string>, toSompi: string -> Sompi,
                          trace: seq<Event>, ledger: Ledger, execute: TransferOptions -> Execution)
    requires settings.walletPrivateKey.Some? && settings.walletPrivateKey.value != ""
    requires var c := ConfigOf(Options(settings.walletPrivateKey.value, walletAddress, amount, settings), priorityFeeEnv, toSompi);
      && Outcome(trace, c, ledger).Some?
      && execute(Options(settings.walletPrivateKey.value, walletAddress, amount, settings)) == AsExecution(Outcome(trace, c, ledger).value)
    ensures var c := ConfigOf(Options(settings.walletPrivateKey.value, walletAddress, amount, settings), priorityFeeEnv, toSompi);
      var o := Outcome(trace, c, ledger).value;
      var r := TransferTokens(walletAddress, amount, settings, execute).result;
      && (r.success <==> o.Succeeded?)
      && (r.success ==> exists i :: 0 <= i < |trace| && ListedAt(Start(), trace, i, c, ledger, r.transactionHash))
      && (!r.success ==> r.transactionHash.None? && r.error == Some(o.error))
  {
    var c := ConfigOf(Options(settings.walletPrivateKey.value, walletAddress, amount, settings), priorityFeeEnv, toSompi);
    var o := Outcome(trace, c, ledger).value;
    if o.Succeeded? {
      SuccessOnlyWhenRevealListed(trace, c, ledger, o.txHash);
    }
  }

  lemma RunOne(m: Machine, e: Event, config: Config, ledger: Ledger)
    ensures Run(m, [e], config, ledger) == Step(m, e, config, ledger)
  {
    assert [e][1..] == [];
  }

  lemma {:induction false} RunAppend(m: Machine, a: seq<Event>, b: seq<Event>, config: Config, ledger: Ledger)
    ensures Run(m, a + b, config, ledger) == Run(Run(m, a, config, ledger), b, config, ledger)
    decreases |a|
  {
    if a != [] {
      assert (a + b)[0] == a[0] && (a + b)[1..] == a[1..] + b;
      RunAppend(Step(m, a[0], config, ledger), a[1..], b, config, ledger);
    } else {
      assert a + b == b;
    }
  }

  // ---- Liveness gap ----

  /** A notification that could set the flag: it removes an output of the
      signer. */
  predicate TouchesSigner(e: Event, signer: string) {
    e.Notify? && SignerPayload(signer).Some? && FindChange(e.removed, SignerPayload(signer).value).Some?
  }

  /** One event that does not touch the signer, before the first wait is
      passed and with the flag clear, leaves the flag clear and the
      function before the reveal phase, unless it fails. */
  lemma QuietStep(m: Machine, e: Event, config: Config, ledger: Ledger)
    requires !m.matured && Phase(m.stage) <= Phase(WaitCommit) && !TouchesSigner(e, m.signer)
    ensures var n := Step(m, e, config, ledger);
      !n.matured && (Phase(n.stage) <= Phase(WaitCommit) || (n.stage.Finished? && n.stage.result.FailedWith?))
  {
    var n := Step(m, e, config, ledger);
    if e.Answer? {
      assert Advances(m, n);
    }
  }

  /** Without a notification that removes one of the signer's outputs, the
      flag is never set and the function never gets past the first wait:
      it is still running there or before, or it has failed. */
  lemma {:induction false} NoSignerActivityNoReveal(m: Machine, trace: seq<Event>, config: Config, ledger: Ledger)
    requires !m.matured && Phase(m.stage) <= Phase(WaitCommit)
    requires forall i :: 0 <= i < |trace| ==> !TouchesSigner(trace[i], Run(m, trace[..i], config, ledger).signer)
    ensures var n := Run(m, trace, config, ledger);
      !n.matured && (Phase(n.stage) <= Phase(WaitCommit) || (n.stage.Finished? && n.stage.result.FailedWith?))
    decreases |trace|
  {
    if trace != [] {
      var n := Step(m, trace[0], config, ledger);
      assert trace[..0] == [];
      QuietStep(m, trace[0], config, ledger);
      QuietTail(m, trace, config, ledger);
      if Phase(n.stage) <= Phase(WaitCommit) {
        NoSignerActivityNoReveal(n, trace[1..], config, ledger);
      } else {
        FinishedStays(n, trace[1..], config, ledger);
      }
    }
  }

  /** The no-touch condition of a trace carries over to its tail, run
      from the state after the first event. */
  lemma QuietTail(m: Machine, trace: seq<Event>, config: Config, ledger: Ledger)
    requires trace != []
    requires forall i :: 0 <= i < |trace| ==> !TouchesSigner(trace[i], Run(m, trace[..i], config, ledger).signer)
    ensures var n := Step(m, trace[0], config, ledger);
      forall i :: 0 <= i < |trace[1..]| ==> !TouchesSigner(trace[1..][i], Run(n, trace[1..][..i], config, ledger).signer)
  {
    var n := Step(m, trace[0], config, ledger);
    forall i | 0 <= i < |trace[1..]|
      ensures !TouchesSigner(trace[1..][i], Run(n, trace[1..][..i], config, ledger).signer)
    {
      assert trace[..i + 1] == [trace[0]] + trace[1..][..i];
      RunAppend(m, [trace[0]], trace[1..][..i], config, ledger);
      RunOne(m, trace[0], config, ledger);
    }
  }

  /** A finished run is left as it is by any later events that do not
      touch the signer's coins, whichever way it finished. */
  lemma {:induction false} FinishedStays(m: Machine, trace: seq<Event>, config: Config, ledger: Ledger)
    requires m.stage.Finished?
    requires forall i :: 0 <= i < |trace| ==> !TouchesSigner(trace[i], Run(m, trace[..i], config, ledger).signer)
    ensures Run(m, trace, config, ledger) == m
    decreases |trace|
  {
    if trace != [] {
      assert trace[..0] == [];
      assert Step(m, trace[0], config, ledger) == m;
      QuietTail(m, trace, config, ledger);
      FinishedStays(m, trace[1..], config, ledger);
    }
  }

  // ---- A stale notification ----

  /** Between clearing the flag and submitting the reveal, the tracked id
      is still the commit's. A late notification for the commit in that
      window sets the flag again, and once the reveal is submitted the
      second wait passes at once, before anything is known about the
      reveal. */
  lemma StaleCommitNoticeReleasesRevealWait(m: Machine, commit: string, payload: string, spent: string,
                                            p2shUtxos: seq<Utxo>, revealTx: Tx, hash: string,
                                            config: Config, ledger: Ledger)
    requires m.stage.QueryP2shUtxos? && m.listening && !m.matured && m.tracked == Some(commit)
    requires SignerPayload(m.signer) == Some(payload)
    requires FirstUnsigned(revealTx.inputs).None?
    ensures var n := Step(m, Notify([Change(payload, commit)], [Change(payload, spent)]), config, ledger);
      var built := Step(n, Answer(Entries(p2shUtxos)), config, ledger);
      var planned := Step(built, Answer(Transactions([revealTx])), config, ledger);
      && n.matured && n.stage == m.stage
      && planned.stage == SubmitReveal(revealTx, [])
      && Step(planned, Answer(Submitted(hash)), config, ledger).stage == Verify
  {
    var added := [Change(payload, commit)];
    var removed := [Change(payload, spent)];
    assert FindChange(removed, payload) == Some(removed[0]);
    assert FindChange(added, payload) == Some(added[0]);
    var n := Step(m, Notify(added, removed), config, ledger);
    assert n == m.(matured := true);
    var built := Step(n, Answer(Entries(p2shUtxos)), config, ledger);
    P2shAnswerBuilds(n, p2shUtxos, config, ledger);
    var planned := Step(built, Answer(Transactions([revealTx])), config, ledger);
    SingleRevealSubmits(built, revealTx, config, ledger);
    LastRevealVerifies(planned, revealTx, hash, config, ledger);
  }

  /** The P2SH query's answer moves on to building the reveal. */
  lemma P2shAnswerBuilds(m: Machine, utxos: seq<Utxo>, config: Config, ledger: Ledger)
    requires m.stage.QueryP2shUtxos?
    ensures var n := Step(m, Answer(Entries(utxos)), config, ledger);
      n.stage == BuildReveal && n.matured == m.matured
  {
    assert Step(m, Answer(Entries(utxos)), config, ledger) == ResumeRevealQueries(m, Entries(utxos), config);
  }

  /** A single reveal transaction with no unsigned input goes straight to
      submission. */
  lemma SingleRevealSubmits(m: Machine, revealTx: Tx, config: Config, ledger: Ledger)
    requires m.stage == BuildReveal && FirstUnsigned(revealTx.inputs).None?
    ensures Step(m, Answer(Transactions([revealTx])), config, ledger) == m.(stage := SubmitReveal(revealTx, []))
  {
    var txs := [revealTx];
    assert txs[0] == revealTx && txs[1..] == [];
    assert Step(m, Answer(Transactions(txs)), config, ledger) == ResumeRevealLoop(m, Transactions(txs), ledger);
  }

  /** Submitting the last reveal with the flag set passes the second wait. */
  lemma LastRevealVerifies(m: Machine, revealTx: Tx, hash: string, config: Config, ledger: Ledger)
    requires m.stage == SubmitReveal(revealTx, []) && m.matured
    ensures Step(m, Answer(Submitted(hash)), config, ledger).stage == Verify
  {
    assert Step(m, Answer(Submitted(hash)), config, ledger) == ResumeSubmitReveal(m, Submitted(hash));
  }
}
