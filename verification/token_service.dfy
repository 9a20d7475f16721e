/** The child-process `transferTokens` (src/utils/tokenService.ts): it
    spawns the transfer script and settles its promise on the first of
    four kinds of event — a stdout chunk that shows the reveal hash, the
    child's exit, or the three-minute timeout. The promise settles once;
    later calls to `resolve` are ignored. Events are an ordered trace. */
module TokenService {
  import opened Text
  import opened TransferWrapper

  const DefaultTicker: string := "NACHO"
  const TimeoutMillis: nat := 180000
  const HashMarker: string := "submitted reveal tx sequence transaction: "
  const RevealMarker: string := "submitted reveal tx"
  const NoStderr: string := "Transfer failed with no specific error message"
  const NoHash: string := "Transfer completed but no transaction hash found"
  const TimedOut: string := "Transfer timeout after 180 seconds"

  /** How the promise starts: settled at once because no private key is
      set, or a child spawned with these command-line arguments (after the
      script path). */
  datatype Launch = Immediate(result: TransferResult) | Spawned(args: seq<string>)

  function Start(privateKey: Option<string>, claimTicker: Option<string>, walletAddress: string,
                 amount: string): (r: Launch)
    ensures r.Immediate? <==> privateKey.None? || privateKey.value == ""
    ensures r.Immediate? ==> r.result == TransferResult(false, None, Some(NoPrivateKey))
    ensures r.Spawned? ==>
      && |r.args| == 10
      && r.args[0] == "--privKey" && r.args[1] == privateKey.value
      && r.args[2] == "--dest" && r.args[3] == walletAddress
      && r.args[4] == "--amount" && r.args[5] == amount
      && r.args[6] == "--ticker" && r.args[7] == EnvOr(claimTicker, DefaultTicker)
      && r.args[8] == "--network" && r.args[9] == "mainnet"
  {
    if privateKey.None? || privateKey.value == "" then Immediate(TransferResult(false, None, Some(NoPrivateKey)))
    else Spawned(["--privKey", privateKey.value, "--dest", walletAddress, "--amount", amount,
                  "--ticker", EnvOr(claimTicker, DefaultTicker), "--network", "mainnet"])
  }

  /** How the transfer script's argument parser reads `<flag> <value>`:
      the token after the first `flag` that is followed by a token not
      starting with `-` (a dash would make the flag a boolean). */
  function ArgValue(args: seq<string>, flag: string): (r: Option<string>)
    ensures r.Some? ==> exists i :: 0 <= i < |args| - 1 && args[i] == flag && args[i + 1] == r.value
    decreases |args|
  {
    if |args| < 2 then None
    else if args[0] == flag && !StartsWith(args[1], "-") then Some(args[1])
    else
      var r := ArgValue(args[1..], flag);
      if r.Some? then
        var i :| 0 <= i < |args| - 2 && args[1..][i] == flag && args[1..][i + 1] == r.value;
        assert args[i + 1] == flag && args[i + 2] == r.value;
        r
      else r
  }

  /** The first `flag`, at `i`, is read with its value. */
  lemma {:induction false} ArgValueAt(args: seq<string>, flag: string, i: nat)
    requires i < |args| - 1 && args[i] == flag && !StartsWith(args[i + 1], "-")
    requires forall j :: 0 <= j < i ==> args[j] != flag
    ensures ArgValue(args, flag) == Some(args[i + 1])
    decreases i
  {
    if i > 0 {
      ArgValueAt(args[1..], flag, i - 1);
    }
  }

  /** A value that does not start with a dash is no flag. */
  lemma NoDashNoFlag(v: string, flag: string)
    requires !StartsWith(v, "-") && StartsWith(flag, "-")
    ensures v != flag
  {
  }

  /** The tokens the spawned script reads back from its command line: the
      key, the destination, the amount, the ticker (the configured one,
      else NACHO) and the mainnet network, each under its own flag,
      provided no value starts with a dash. The parser's later conversion
      of numeric-looking tokens to numbers is not part of this. Without a key nothing is spawned and every
      trace ends in the missing-key failure. */
  lemma StartArgsReadBack(privateKey: Option<string>, claimTicker: Option<string>, walletAddress: string,
                          amount: string, trace: seq<Event>)
    ensures privateKey.None? || privateKey.value == "" ==>
      Outcome(Start(privateKey, claimTicker, walletAddress, amount), trace) == Some(TransferResult(false, None, Some(NoPrivateKey)))
    ensures (&& privateKey.Some? && privateKey.value != "" && !StartsWith(privateKey.value, "-")
             && !StartsWith(walletAddress, "-") && !StartsWith(amount, "-")
             && !StartsWith(EnvOr(claimTicker, DefaultTicker), "-")) ==>
      var args := Start(privateKey, claimTicker, walletAddress, amount).args;
      && ArgValue(args, "--privKey") == privateKey
      && ArgValue(args, "--dest") == Some(walletAddress)
      && ArgValue(args, "--amount") == Some(amount)
      && ArgValue(args, "--ticker") == Some(EnvOr(claimTicker, DefaultTicker))
      && ArgValue(args, "--network") == Some("mainnet")
  {
    if && privateKey.Some? && privateKey.value != "" && !StartsWith(privateKey.value, "-")
       && !StartsWith(walletAddress, "-") && !StartsWith(amount, "-")
       && !StartsWith(EnvOr(claimTicker, DefaultTicker), "-")
    {
      ArgsReadBack(privateKey.value, walletAddress, amount, EnvOr(claimTicker, DefaultTicker));
    }
  }

  lemma ArgsReadBack(key: string, dest: string, amount: string, ticker: string)
    requires !StartsWith(key, "-") && !StartsWith(dest, "-") && !StartsWith(amount, "-") && !StartsWith(ticker, "-")
    ensures var args := ["--privKey", key, "--dest", dest, "--amount", amount, "--ticker", ticker, "--network", "mainnet"];
      && ArgValue(args, "--privKey") == Some(key)
      && ArgValue(args, "--dest") == Some(dest)
      && ArgValue(args, "--amount") == Some(amount)
      && ArgValue(args, "--ticker") == Some(ticker)
      && ArgValue(args, "--network") == Some("mainnet")
  {
    var args := ["--privKey", key, "--dest", dest, "--amount", amount, "--ticker", ticker, "--network", "mainnet"];
    assert !StartsWith("mainnet", "-") by {
      assert "mainnet"[..1] == "m";
    }
    assert forall j :: 0 <= j < 10 ==> (j % 2 == 1 <==> !StartsWith(args[j], "-"));
    assert |args[0]| == 9 && |args[2]| == 6 && |args[4]| == 8 && |args[6]| == 8 && |args[8]| == 9;
    assert args[0][2] == 'p' && args[8][2] == 'n' && args[4][2] == 'a' && args[6][2] == 't';
    ReadFlag(args, 0);
    ReadFlag(args, 1);
    ReadFlag(args, 2);
    ReadFlag(args, 3);
    ReadFlag(args, 4);
  }

  /** In flag–value pairs with distinct flags and dash-free values, each
      flag reads its own value. */
  lemma ReadFlag(args: seq<string>, k: nat)
    requires |args| == 10 && k < 5
    requires forall j :: 0 <= j < 10 ==> (j % 2 == 1 <==> !StartsWith(args[j], "-"))
    requires forall i, j :: 0 <= i < j < 5 ==> args[2 * i] != args[2 * j]
    ensures ArgValue(args, args[2 * k]) == Some(args[2 * k + 1])
  {
    forall j | 0 <= j < 2 * k
      ensures args[j] != args[2 * k]
    {
      if j % 2 == 0 {
        assert args[2 * (j / 2)] != args[2 * k];
      }
    }
    ArgValueAt(args, args[2 * k], 2 * k);
  }

  /** The longest run of lowercase hexadecimal digits at the start of `s`. */
  function LowerHexRun(s: string): (r: string)
    ensures StartsWith(s, r) && forall i :: 0 <= i < |r| ==> IsLowerHex(r[i])
    ensures |r| < |s| ==> !IsLowerHex(s[|r|])
  {
    if |s| > 0 && IsLowerHex(s[0]) then [s[0]] + LowerHexRun(s[1..]) else ""
  }

  /** The marker at `i`, followed by at least one lowercase hex digit. */
  predicate MatchAt(chunk: string, i: int) {
    OccursAt(chunk, HashMarker, i) && i + |HashMarker| < |chunk| && IsLowerHex(chunk[i + |HashMarker|])
  }

  /** The regular expression `submitted reveal tx sequence transaction: ([a-f0-9]+)`
      searched from position `i`: the leftmost match, and its greedy group. */
  function MatchFrom(chunk: string, i: nat): (r: Option<string>)
    requires i <= |chunk|
    ensures r.None? <==> forall j :: i <= j <= |chunk| ==> !MatchAt(chunk, j)
    ensures r.Some? ==> exists j :: (
      && i <= j <= |chunk| && MatchAt(chunk, j)
      && (forall k :: i <= k < j ==> !MatchAt(chunk, k))
      && r.value == LowerHexRun(chunk[j + |HashMarker|..]))
    decreases |chunk| - i
  {
    if MatchAt(chunk, i) then Some(LowerHexRun(chunk[i + |HashMarker|..]))
    else if i == |chunk| then None
    else MatchFrom(chunk, i + 1)
  }

  /** The captured hash of a chunk, if the chunk matches: the whole run
      of lowercase hex digits after the leftmost marker that has one, a
      non-empty run that follows the marker in the chunk. */
  function MatchHash(chunk: string): (r: Option<string>)
    ensures r.None? <==> forall j :: 0 <= j <= |chunk| ==> !MatchAt(chunk, j)
    ensures r.Some? ==> exists j :: (
      && 0 <= j <= |chunk| && MatchAt(chunk, j)
      && (forall k :: 0 <= k < j ==> !MatchAt(chunk, k))
      && r.value == LowerHexRun(chunk[j + |HashMarker|..]))
    ensures r.Some? ==>
      && r.value != [] && (forall i :: 0 <= i < |r.value| ==> IsLowerHex(r.value[i]))
      && Contains(chunk, HashMarker + r.value)
  {
    var r := MatchFrom(chunk, 0);
    if r.Some? then
      var j :| 0 <= j <= |chunk| && MatchAt(chunk, j) && r.value == LowerHexRun(chunk[j + |HashMarker|..]);
      MatchCaptures(chunk, j);
      r
    else r
  }

  /** A match at `j` captures a non-empty hex run that, with the marker,
      occurs in the chunk. */
  lemma MatchCaptures(chunk: string, j: nat)
    requires MatchAt(chunk, j)
    ensures var h := LowerHexRun(chunk[j + |HashMarker|..]);
      h != [] && (forall i :: 0 <= i < |h| ==> IsLowerHex(h[i])) && Contains(chunk, HashMarker + h)
  {
    var h := LowerHexRun(chunk[j + |HashMarker|..]);
    assert chunk[j + |HashMarker|..][0] == chunk[j + |HashMarker|];
    FollowedBy(chunk, HashMarker, h, j);
    assert OccursAt(chunk, HashMarker + h, j);
  }

  /** `m` at `j` followed by a prefix `h` of what comes after it is `m + h` at `j`. */
  lemma FollowedBy(s: string, m: string, h: string, j: nat)
    requires OccursAt(s, m, j) && StartsWith(s[j + |m|..], h)
    ensures OccursAt(s, m + h, j)
  {
    assert s[j..j + |m + h|] == s[j..j + |m|] + s[j + |m|..][..|h|];
  }

  datatype Event = Stdout(chunk: string) | Stderr(chunk: string) | Close(code: Option<int>) | Timeout

  /** The closure's state: the text read from each stream and what the
      promise settled to, if anything. */
  datatype Child = Child(output: string, errors: string, settled: Option<TransferResult>)

  /** `resolve(v)`: only the first call counts. */
  function Resolve(c: Child, v: TransferResult): (r: Child)
    ensures r.settled == if c.settled.Some? then c.settled else Some(v)
    ensures r.output == c.output && r.errors == c.errors
  {
    if c.settled.Some? then c else c.(settled := Some(v))
  }

  /** One event handler run. */
  function Step(c: Child, e: Event): (r: Child)
    ensures c.settled.Some? ==> r.settled == c.settled
    ensures e.Stdout? ==> r.output == c.output + e.chunk && r.errors == c.errors
    ensures e.Stderr? ==> r.output == c.output && r.errors == c.errors + e.chunk && r.settled == c.settled
    ensures !e.Stdout? && !e.Stderr? ==> r.output == c.output && r.errors == c.errors
    ensures c.settled.None? && e.Stdout? ==>
      r.settled == (if MatchHash(e.chunk).Some? then Some(TransferResult(true, MatchHash(e.chunk), None)) else None)
    ensures c.settled.None? && e.Close? && e.code != Some(0) ==>
      r.settled == Some(TransferResult(false, None, Some(if c.errors != "" then c.errors else NoStderr)))
    ensures c.settled.None? && e.Close? && e.code == Some(0) ==>
      r.settled == (if Contains(c.output, RevealMarker) then None else Some(TransferResult(false, None, Some(NoHash))))
    ensures c.settled.None? && e.Timeout? ==> r.settled == Some(TransferResult(false, None, Some(TimedOut)))
  {
    match e
    case Stdout(chunk) =>
      var c' := c.(output := c.output + chunk);
      var m := MatchHash(chunk);
      if m.Some? then Resolve(c', TransferResult(true, m, None)) else c'
    case Stderr(chunk) => c.(errors := c.errors + chunk)
    case Close(code) =>
      if code != Some(0) then
        Resolve(c, TransferResult(false, None, Some(if c.errors != "" then c.errors else NoStderr)))
      else if !Contains(c.output, RevealMarker) then Resolve(c, TransferResult(false, None, Some(NoHash)))
      else c
    case Timeout => Resolve(c, TransferResult(false, None, Some(TimedOut)))
  }

  /** The handlers run over a trace, in order. */
  function Run(c: Child, trace: seq<Event>): Child
    decreases |trace|
  {
    if trace == [] then c else Run(Step(c, trace[0]), trace[1..])
  }

  const Fresh: Child := Child("", "", None)

  /** The settled value of the promise after the whole trace. */
  function Outcome(launch: Launch, trace: seq<Event>): (r: Option<TransferResult>)
    ensures launch.Immediate? ==> r == Some(launch.result)
  {
    match launch
    case Immediate(result) => Some(result)
    case Spawned(_) => Run(Fresh, trace).settled
  }

  /** Running a trace in two pieces is running it whole. */
  lemma {:induction false} RunAppend(c: Child, a: seq<Event>, b: seq<Event>)
    ensures Run(c, a + b) == Run(Run(c, a), b)
    decreases |a|
  {
    if a != [] {
      assert (a + b)[0] == a[0] && (a + b)[1..] == a[1..] + b;
      RunAppend(Step(c, a[0]), a[1..], b);
    } else {
      assert a + b == b;
    }
  }

  /** Once settled, no later event changes the result. */
  lemma {:induction false} SettledStaysSettled(c: Child, trace: seq<Event>)
    requires c.settled.Some?
    ensures Run(c, trace).settled == c.settled
    decreases |trace|
  {
    if trace != [] {
      SettledStaysSettled(Step(c, trace[0]), trace[1..]);
    }
  }

  /** Only the first resolution counts: whatever follows a trace that has
      settled the promise leaves its result as it was. */
  lemma FirstResolutionWins(launch: Launch, first: seq<Event>, later: seq<Event>)
    requires Outcome(launch, first).Some?
    ensures Outcome(launch, first + later) == Outcome(launch, first)
  {
    if launch.Spawned? {
      RunAppend(Fresh, first, later);
      SettledStaysSettled(Run(Fresh, first), later);
    }
  }

  /** The timeout always settles the promise: after it, the outcome is
      fixed, and it is the timeout failure unless something settled it
      earlier. */
  lemma TimeoutSettles(launch: Launch, before: seq<Event>, after: seq<Event>)
    ensures Outcome(launch, before + [Timeout] + after).Some?
    ensures Outcome(launch, before).None? ==>
      Outcome(launch, before + [Timeout] + after) == Some(TransferResult(false, None, Some(TimedOut)))
  {
    if launch.Spawned? {
      RunAppend(Fresh, before, [Timeout]);
      assert Run(Run(Fresh, before), [Timeout]) == Step(Run(Fresh, before), Timeout);
      FirstResolutionWins(launch, before + [Timeout], after);
    }
  }

  /** The hash is looked for in each chunk alone, and the exit check looks
      for the shorter marker in the whole output: when the line with the
      hash arrives split over two chunks, neither chunk matches and a clean
      exit settles nothing, so the transfer ends as a timeout. */
  lemma SplitHashLineTimesOut()
    ensures var trace := [Stdout("submitted reveal tx sequence"), Stdout(" transaction: ab12\n"),
                          Close(Some(0)), Timeout];
      Outcome(Spawned([]), trace) == Some(TransferResult(false, None, Some(TimedOut)))
  {
    var a := "submitted reveal tx sequence";
    var b := " transaction: ab12\n";
    SplitChunksDoNotMatch();
    assert MatchHash(a).None? && MatchHash(b).None?;
    var c1 := Step(Fresh, Stdout(a));
    assert c1 == Child(a, "", None);
    var c2 := Step(c1, Stdout(b));
    assert c2 == Child(a + b, "", None);
    assert OccursAt(a + b, RevealMarker, 0) by {
      assert (a + b)[0..|RevealMarker|] == RevealMarker;
    }
    var c3 := Step(c2, Close(Some(0)));
    assert c3 == c2;
    var trace := [Stdout(a), Stdout(b), Close(Some(0)), Timeout];
    assert trace[1..] == [Stdout(b), Close(Some(0)), Timeout];
    assert trace[1..][1..] == [Close(Some(0)), Timeout];
    assert trace[1..][1..][1..] == [Timeout];
    assert Run(c3, [Timeout]) == Run(Step(c3, Timeout), []);
  }

  /** Neither half of the split line matches on its own: each is shorter
      than the marker. */
  lemma SplitChunksDoNotMatch()
    ensures MatchHash("submitted reveal tx sequence").None? && MatchHash(" transaction: ab12\n").None?
  {
    var a := "submitted reveal tx sequence";
    var b := " transaction: ab12\n";
    forall j | 0 <= j <= |a|
      ensures !MatchAt(a, j)
    {
      assert !(j + |HashMarker| <= |a|);
    }
    forall j | 0 <= j <= |b|
      ensures !MatchAt(b, j)
    {
      assert !(j + |HashMarker| <= |b|);
    }
  }

  /** A chunk holding a whole marker line, after text in which the marker
      does not begin, settles the promise with the line's hash. */
  lemma WholeHashLineSucceeds(prefix: string, hash: string, rest: string, args: seq<string>)
    requires forall j :: 0 <= j < |prefix| ==> !OccursAt(prefix + HashMarker, HashMarker, j)
    requires hash != [] && forall i :: 0 <= i < |hash| ==> IsLowerHex(hash[i])
    requires rest == [] || !IsLowerHex(rest[0])
    ensures Outcome(Spawned(args), [Stdout(prefix + HashMarker + hash + rest)])
         == Some(TransferResult(true, Some(hash), None))
  {
    var chunk := prefix + HashMarker + hash + rest;
    MatchOfLine(prefix, hash, rest);
    assert Run(Fresh, [Stdout(chunk)]) == Run(Step(Fresh, Stdout(chunk)), []);
  }

  /** The marker after such a prefix, then a hex run and a rest that does
      not continue it, matches with exactly that run. */
  lemma MatchOfLine(prefix: string, hash: string, rest: string)
    requires forall j :: 0 <= j < |prefix| ==> !OccursAt(prefix + HashMarker, HashMarker, j)
    requires hash != [] && forall i :: 0 <= i < |hash| ==> IsLowerHex(hash[i])
    requires rest == [] || !IsLowerHex(rest[0])
    ensures MatchHash(prefix + HashMarker + hash + rest) == Some(hash)
  {
    var n := |prefix|;
    var tail := hash + rest;
    var chunk := (prefix + HashMarker) + tail;
    assert prefix + HashMarker + hash + rest == chunk;
    NoMatchBefore(prefix, tail);
    assert chunk[n..n + |HashMarker|] == HashMarker;
    assert chunk[n + |HashMarker|..] == tail;
    LowerHexRunOf(hash, rest);
    assert chunk[n + |HashMarker|] == tail[0] == hash[0];
    LeftmostMatchAt(chunk, n);
  }

  /** No match starts inside a prefix in which the marker does not begin. */
  lemma NoMatchBefore(prefix: string, tail: string)
    requires forall j :: 0 <= j < |prefix| ==> !OccursAt(prefix + HashMarker, HashMarker, j)
    ensures forall k :: 0 <= k < |prefix| ==> !MatchAt((prefix + HashMarker) + tail, k)
  {
    forall k | 0 <= k < |prefix|
      ensures !MatchAt((prefix + HashMarker) + tail, k)
    {
      if OccursAt((prefix + HashMarker) + tail, HashMarker, k) {
        OccursBeforeTail(prefix + HashMarker, tail, HashMarker, k);
      }
    }
  }

  /** The leftmost match decides the capture. */
  lemma LeftmostMatchAt(chunk: string, n: nat)
    requires n <= |chunk| && MatchAt(chunk, n) && forall k :: 0 <= k < n ==> !MatchAt(chunk, k)
    ensures MatchHash(chunk) == Some(LowerHexRun(chunk[n + |HashMarker|..]))
  {
    var j :| 0 <= j <= |chunk| && MatchAt(chunk, j) && (forall k :: 0 <= k < j ==> !MatchAt(chunk, k))
      && MatchHash(chunk).value == LowerHexRun(chunk[j + |HashMarker|..]);
    assert j == n;
  }

  /** The marker line with nothing before it. */
  lemma MatchOfBareLine(hash: string, rest: string)
    requires hash != [] && forall i :: 0 <= i < |hash| ==> IsLowerHex(hash[i])
    requires rest == [] || !IsLowerHex(rest[0])
    ensures MatchHash(HashMarker + hash + rest) == Some(hash)
  {
    assert [] + HashMarker == HashMarker;
    MatchOfLine([], hash, rest);
  }

  /** An occurrence that ends inside `a` is an occurrence in `a`. */
  lemma OccursBeforeTail(a: string, b: string, p: string, k: nat)
    requires k + |p| <= |a| && OccursAt(a + b, p, k)
    ensures OccursAt(a, p, k)
  {
    assert (a + b)[k..k + |p|] == a[k..k + |p|];
  }

  /** The line the transfer script logs once the reveal is submitted,
      `[<time>] [INFO] submitted reveal tx sequence transaction: <hash>`
      and a newline, settles the promise with the hash when it arrives as
      one chunk. An ISO timestamp has no `s` in it, so the marker cannot
      begin before its place in the line. */
  lemma RevealLogLineSucceeds(timestamp: string, hash: string, args: seq<string>)
    requires 's' !in timestamp
    requires hash != [] && forall i :: 0 <= i < |hash| ==> IsLowerHex(hash[i])
    ensures Outcome(Spawned(args), [Stdout("[" + timestamp + "] [INFO] " + HashMarker + hash + "\n")])
         == Some(TransferResult(true, Some(hash), None))
  {
    var prefix := "[" + timestamp + "] [INFO] ";
    forall j | 0 <= j < |prefix|
      ensures !OccursAt(prefix + HashMarker, HashMarker, j)
    {
      assert prefix[j] != 's' by {
        if 1 <= j <= |timestamp| {
          assert prefix[j] == timestamp[j - 1];
        }
      }
      var line := prefix + HashMarker;
      assert line[j] == prefix[j];
      if j + |HashMarker| <= |line| {
        assert line[j..j + |HashMarker|][0] == line[j];
      }
    }
    WholeHashLineSucceeds(prefix, hash, "\n", args);
  }

  lemma {:induction false} LowerHexRunOf(hash: string, rest: string)
    requires forall i :: 0 <= i < |hash| ==> IsLowerHex(hash[i])
    requires rest == [] || !IsLowerHex(rest[0])
    ensures LowerHexRun(hash + rest) == hash
    decreases |hash|
  {
    if hash != [] {
      assert (hash + rest)[1..] == hash[1..] + rest;
      LowerHexRunOf(hash[1..], rest);
    } else {
      assert hash + rest == rest;
    }
  }

  // ---- The exit check as evidently intended ----

  /** The handlers with the exit check completed: a clean exit settles the
      promise too, with the hash found in the whole output when there is
      one, and with the no-hash failure otherwise. */
  function StepOnExit(c: Child, e: Event): (r: Child)
    ensures e.Close? ==> r.settled.Some?
    ensures !e.Close? ==> r == Step(c, e)
    ensures c.settled.Some? ==> r.settled == c.settled
    ensures c.settled.None? && e.Close? && e.code == Some(0) ==>
      r.settled == Some(if MatchHash(c.output).Some? then TransferResult(true, MatchHash(c.output), None)
                        else TransferResult(false, None, Some(NoHash)))
  {
    match e
    case Close(code) =>
      if code != Some(0) then Step(c, e)
      else if MatchHash(c.output).Some? then Resolve(c, TransferResult(true, MatchHash(c.output), None))
      else Resolve(c, TransferResult(false, None, Some(NoHash)))
    case _ => Step(c, e)
  }

  function RunOnExit(c: Child, trace: seq<Event>): Child
    decreases |trace|
  {
    if trace == [] then c else RunOnExit(StepOnExit(c, trace[0]), trace[1..])
  }

  function OutcomeOnExit(launch: Launch, trace: seq<Event>): (r: Option<TransferResult>)
    ensures launch.Immediate? ==> r == Some(launch.result)
  {
    match launch
    case Immediate(result) => Some(result)
    case Spawned(_) => RunOnExit(Fresh, trace).settled
  }

  lemma {:induction false} RunOnExitAppend(c: Child, a: seq<Event>, b: seq<Event>)
    ensures RunOnExit(c, a + b) == RunOnExit(RunOnExit(c, a), b)
    decreases |a|
  {
    if a != [] {
      assert (a + b)[0] == a[0] && (a + b)[1..] == a[1..] + b;
      RunOnExitAppend(StepOnExit(c, a[0]), a[1..], b);
    } else {
      assert a + b == b;
    }
  }

  lemma {:induction false} SettledStaysSettledOnExit(c: Child, trace: seq<Event>)
    requires c.settled.Some?
    ensures RunOnExit(c, trace).settled == c.settled
    decreases |trace|
  {
    if trace != [] {
      SettledStaysSettledOnExit(StepOnExit(c, trace[0]), trace[1..]);
    }
  }

  /** The child's exit always settles the promise: nothing is left to the
      timer once the process has closed. */
  lemma ExitSettles(launch: Launch, before: seq<Event>, code: Option<int>, after: seq<Event>)
    ensures OutcomeOnExit(launch, before + [Close(code)] + after).Some?
  {
    if launch.Spawned? {
      var c := RunOnExit(Fresh, before);
      RunOnExitAppend(Fresh, before, [Close(code)]);
      assert RunOnExit(c, [Close(code)]) == RunOnExit(StepOnExit(c, Close(code)), []);
      RunOnExitAppend(Fresh, before + [Close(code)], after);
      SettledStaysSettledOnExit(StepOnExit(c, Close(code)), after);
    }
  }

  /** With the completed exit check, the hash line split over two chunks
      is found in the whole output at the clean exit. */
  lemma SplitHashLineSucceedsOnExit()
    ensures var trace := [Stdout("submitted reveal tx sequence"), Stdout(" transaction: ab12\n"),
                          Close(Some(0)), Timeout];
      OutcomeOnExit(Spawned([]), trace) == Some(TransferResult(true, Some("ab12"), None))
  {
    var a := "submitted reveal tx sequence";
    var b := " transaction: ab12\n";
    var trace := [Stdout(a), Stdout(b), Close(Some(0)), Timeout];
    var c2 := SplitLineRead();
    var c3 := StepOnExit(c2, Close(Some(0)));
    assert c3.settled == Some(TransferResult(true, Some("ab12"), None)) by {
      WholeOutputMatches();
    }
    assert trace[1..] == [Stdout(b), Close(Some(0)), Timeout];
    assert trace[1..][1..] == [Close(Some(0)), Timeout];
    assert RunOnExit(Fresh, trace) == RunOnExit(c2, [Close(Some(0)), Timeout]);
    SettledStaysSettledOnExit(c3, [Timeout]);
    assert RunOnExit(c2, [Close(Some(0)), Timeout]) == RunOnExit(c3, [Timeout]);
  }

  /** Reading the two halves leaves the promise pending with the whole
      line in the output. */
  lemma SplitLineRead() returns (c: Child)
    ensures c == Child("submitted reveal tx sequence" + " transaction: ab12\n", "", None)
    ensures StepOnExit(StepOnExit(Fresh, Stdout("submitted reveal tx sequence")), Stdout(" transaction: ab12\n")) == c
  {
    SplitChunksDoNotMatch();
    c := Child("submitted reveal tx sequence" + " transaction: ab12\n", "", None);
  }

  lemma WholeOutputMatches()
    ensures MatchHash("submitted reveal tx sequence" + " transaction: ab12\n") == Some("ab12")
  {
    assert "submitted reveal tx sequence" + " transaction: ab12\n" == HashMarker + "ab12" + "\n";
    MatchOfBareLine("ab12", "\n");
  }
}
