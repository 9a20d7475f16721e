/** The in-process `transferTokens` (src/utils/transferWrapper.ts) that the
    claim controller calls: it checks that a private key is configured,
    fills in the transfer options, runs `executeTransfer` (a parameter
    here) and renames its result fields. */
module TransferWrapper {
  import opened Text

  /** What `transferTokens` returns; absent fields are `None`. */
  datatype TransferResult = TransferResult(success: bool, transactionHash: Option<string>, error: Option<string>)

  /** The options handed to `executeTransfer`. */
  datatype TransferOptions = TransferOptions(
    privateKey: string, dest: string, amount: string, ticker: string, network: string, logLevel: string)

  /** What awaiting `executeTransfer` gives: its result object, or a
      rejection. */
  datatype Execution =
    | Returned(success: bool, txHash: Option<string>, error: Option<string>)
    | Raised(thrown: Thrown)

  /** The environment variables the wrapper reads. */
  datatype Settings = Settings(
    walletPrivateKey: Option<string>, claimTicker: Option<string>,
    nodeEnv: Option<string>, defaultClaimAmount: Option<string>)

  const NoPrivateKey: string := "Wallet private key not configured"
  const UnknownError: string := "Unknown error occurred"
  const DefaultTicker: string := "CRUMBS"
  const DefaultAmount: string := "1000"
  const Network: string := "mainnet"

  /** The amount argument, or its default when the caller leaves it out. */
  function AmountOr(amount: Option<string>, settings: Settings): (r: string)
    ensures amount.Some? ==> r == amount.value
    ensures amount.None? ==> r == EnvOr(settings.defaultClaimAmount, DefaultAmount)
  {
    if amount.Some? then amount.value else EnvOr(settings.defaultClaimAmount, DefaultAmount)
  }

  /** The options built for a configured private key. */
  function Options(key: string, walletAddress: string, amount: Option<string>, settings: Settings): (o: TransferOptions)
    ensures o.privateKey == key && o.dest == walletAddress && o.amount == AmountOr(amount, settings)
    ensures o.network == Network
    ensures o.ticker == EnvOr(settings.claimTicker, DefaultTicker)
    ensures o.logLevel == "DEBUG" <==> settings.nodeEnv == Some("development")
    ensures o.logLevel == "INFO" <==> settings.nodeEnv != Some("development")
  {
    TransferOptions(key, walletAddress, AmountOr(amount, settings), EnvOr(settings.claimTicker, DefaultTicker),
                    Network, if settings.nodeEnv == Some("development") then "DEBUG" else "INFO")
  }

  /** The result of `transferTokens`, with the options `executeTransfer`
      was called with (`None` when it was not called). */
  datatype Call = Call(result: TransferResult, executed: Option<TransferOptions>)

  function TransferTokens(walletAddress: string, amount: Option<string>, settings: Settings,
                          execute: TransferOptions -> Execution): (r: Call)
    ensures r.executed.None? <==> settings.walletPrivateKey.None? || settings.walletPrivateKey.value == ""
    ensures r.executed.None? ==> r.result == TransferResult(false, None, Some(NoPrivateKey))
    ensures r.executed.Some? ==>
      r.executed.value == Options(settings.walletPrivateKey.value, walletAddress, amount, settings)
    ensures r.executed.Some? && execute(r.executed.value).Returned? ==>
      var e := execute(r.executed.value);
      r.result.success == e.success && r.result.transactionHash == e.txHash && r.result.error == e.error
    ensures r.executed.Some? && execute(r.executed.value).Raised? ==>
      r.result == TransferResult(false, None, Some(MessageOr(execute(r.executed.value).thrown, UnknownError)))
  {
    if settings.walletPrivateKey.None? || settings.walletPrivateKey.value == "" then
      Call(TransferResult(false, None, Some(NoPrivateKey)), None)
    else
      var options := Options(settings.walletPrivateKey.value, walletAddress, amount, settings);
      var result :=
        match execute(options)
        case Returned(success, txHash, error) => TransferResult(success, txHash, error)
        case Raised(t) => TransferResult(false, None, Some(MessageOr(t, UnknownError)));
      Call(result, Some(options))
  }

  /** A successful result always comes from a run of `executeTransfer` on
      the mainnet that itself reported success, for the given address;
      every failure carries an error message unless `executeTransfer`
      itself returned a failure without one. */
  lemma SuccessOnlyFromExecution(walletAddress: string, amount: Option<string>, settings: Settings,
                                 execute: TransferOptions -> Execution)
    ensures var r := TransferTokens(walletAddress, amount, settings, execute);
      && (r.result.success ==>
            r.executed.Some? && r.executed.value.dest == walletAddress && r.executed.value.network == Network
            && execute(r.executed.value) == Returned(true, r.result.transactionHash, r.result.error))
      && (!r.result.success && r.result.error.None? ==>
            r.executed.Some? && execute(r.executed.value) == Returned(false, r.result.transactionHash, None))
  {
  }
}
