/** The claim endpoints (src/controllers/claimController.ts): the 24-hour
    cooldown, the processing → completed/failed record of a claim, and
    the claim history of a wallet, newest first. The `claims` table is a
    list of records, the clock a parameter, and the transfer a function of
    the wallet address. */
module Claims {
  import opened Text
  import opened WalletAddress
  import opened TransferWrapper

  datatype Status = Processing | Completed | Failed

  /** A row of the `claims` table; times are milliseconds. */
  datatype Claim = Claim(
    id: nat, wallet: string, amount: string, status: Status, createdAt: int,
    transactionHash: Option<string>, transactionError: Option<string>)

  const HourMillis: nat := 60 * 60 * 1000
  const DayMillis: nat := 24 * HourMillis
  const DefaultAmount: string := "1000"

  /** A claim that blocks `wallet` at `now`: the wallet's, created in the
      last 24 hours (strictly), and not failed. */
  predicate Blocks(c: Claim, wallet: string, now: int) {
    c.wallet == wallet && c.createdAt > now - DayMillis && c.status != Failed
  }

  /** The most recent blocking claim, the row `ORDER BY created_at DESC
      LIMIT 1` returns (the first such row among equal times). */
  function LatestBlocking(table: seq<Claim>, wallet: string, now: int): (r: Option<Claim>)
    ensures r.None? <==> forall c :: c in table ==> !Blocks(c, wallet, now)
    ensures r.Some? ==> r.value in table && Blocks(r.value, wallet, now)
    ensures r.Some? ==> forall c :: c in table && Blocks(c, wallet, now) ==> c.createdAt <= r.value.createdAt
    decreases |table|
  {
    if table == [] then None
    else
      var rest := LatestBlocking(table[1..], wallet, now);
      var head := table[0];
      assert forall c :: c in table ==> c == head || c in table[1..];
      if !Blocks(head, wallet, now) then rest
      else if rest.Some? && rest.value.createdAt > head.createdAt then rest
      else Some(head)
  }

  /** `Math.ceil(t / 3600000)` for an integer number of milliseconds `t`. */
  function CeilHours(t: int): (r: int)
    ensures (r - 1) * HourMillis < t <= r * HourMillis
  {
    -((-t) / HourMillis)
  }

  /** The hours left before the next claim, counted from the newest
      blocking claim. */
  function HoursRemaining(createdAt: int, now: int): (r: int)
    ensures (r - 1) * HourMillis < createdAt + DayMillis - now <= r * HourMillis
  {
    CeilHours(createdAt + DayMillis - now)
  }

  /** For a blocking claim made no later than `now`, the message names
      between 1 and 24 hours. */
  lemma HoursRemainingInRange(createdAt: int, now: int)
    requires now - DayMillis < createdAt <= now
    ensures 1 <= HoursRemaining(createdAt, now) <= 24
  {
    var r := HoursRemaining(createdAt, now);
    var t := createdAt + DayMillis - now;
    assert 0 < t <= DayMillis;
  }

  function CooldownMessage(hours: int): string
  {
    "You can only claim once every 24 hours. Please try again in " + IntToDecimal(hours) + " hours."
  }

  /** `x || null` for an optional string: empty and absent are both null. */
  function NullIfEmpty(x: Option<string>): (r: Option<string>)
    ensures r.Some? <==> x.Some? && x.value != ""
    ensures r.Some? ==> r == x
  {
    if x.Some? && x.value != "" then x else None
  }

  /** The JSON answer: `success`, `data` (a claim, or absent) and `error`. */
  datatype Reply = Reply(status: int, success: bool, data: Option<Claim>, error: Option<string>)

  /** The response, the table afterwards, and the address the transfer was
      made to (`None` when no transfer was attempted). */
  datatype Handled = Handled(reply: Reply, table: seq<Claim>, transferredTo: Option<string>)

  /** The next id of the table's serial column. */
  function NextId(table: seq<Claim>): (r: nat)
    ensures forall c :: c in table ==> c.id < r
    decreases |table|
  {
    if table == [] then 1
    else
      var rest := NextId(table[1..]);
      assert forall c :: c in table ==> c == table[0] || c in table[1..];
      if table[0].id >= rest then table[0].id + 1 else rest
  }

  /** The row written back after the transfer: the inserted row with its
      status and transfer fields set. */
  function Settle(c: Claim, t: TransferResult): (r: Claim)
    ensures r.id == c.id && r.wallet == c.wallet && r.amount == c.amount && r.createdAt == c.createdAt
    ensures r.status == (if t.success then Completed else Failed)
    ensures r.transactionHash == NullIfEmpty(t.transactionHash)
    ensures r.transactionError == NullIfEmpty(t.error)
  {
    c.(status := if t.success then Completed else Failed,
       transactionHash := NullIfEmpty(t.transactionHash),
       transactionError := NullIfEmpty(t.error))
  }

  /** `createClaim`, given the validated `walletAddress` field, the table,
      the clock, `DEFAULT_CLAIM_AMOUNT`, and the transfer's result for
      each address. */
  function CreateClaim(field: Field, table: seq<Claim>, now: int, defaultAmount: Option<string>,
                       transfer: string -> TransferResult): (r: Handled)
    ensures Validate(field) != [] ==>
      r == Handled(Reply(400, false, None, Some(Validate(field)[0])), table, None)
    ensures Validate(field) == [] && LatestBlocking(table, field.s, now).Some? ==>
      var last := LatestBlocking(table, field.s, now).value;
      r == Handled(Reply(400, false, None, Some(CooldownMessage(HoursRemaining(last.createdAt, now)))), table, None)
    ensures r.transferredTo.Some? <==> Validate(field) == [] && LatestBlocking(table, field.s, now).None?
    ensures r.transferredTo.Some? ==>
      var t := transfer(field.s);
      && r.transferredTo.value == field.s
      && |r.table| == |table| + 1 && r.table[..|table|] == table
      && r.table[|table|] == Settle(Claim(NextId(table), field.s, EnvOr(defaultAmount, DefaultAmount),
                                          Processing, now, None, None), t)
      && r.reply == Reply(if t.success then 201 else 500, t.success, Some(r.table[|table|]), t.error)
  {
    var errors := Validate(field);
    if errors != [] then Handled(Reply(400, false, None, Some(errors[0])), table, None)
    else
      var wallet := field.s;
      match LatestBlocking(table, wallet, now)
      case Some(last) =>
        Handled(Reply(400, false, None, Some(CooldownMessage(HoursRemaining(last.createdAt, now)))), table, None)
      case None =>
        var inserted := Claim(NextId(table), wallet, EnvOr(defaultAmount, DefaultAmount), Processing, now, None, None);
        var t := transfer(wallet);
        var updated := Settle(inserted, t);
        Handled(Reply(if t.success then 201 else 500, t.success, Some(updated), t.error), table + [updated], Some(wallet))
  }

  /** Failed claims never block: a wallet whose only recent claims failed
      can claim again, and the new claim is the only row added. */
  lemma FailedClaimsNeverBlock(wallet: string, table: seq<Claim>, now: int, defaultAmount: Option<string>,
                               transfer: string -> TransferResult)
    requires Matches(wallet)
    requires forall c :: c in table && c.wallet == wallet && c.createdAt > now - DayMillis ==> c.status == Failed
    ensures var r := CreateClaim(Text(wallet), table, now, defaultAmount, transfer);
      r.transferredTo == Some(wallet) && |r.table| == |table| + 1
  {
  }

  /** A successful claim leaves the wallet blocked for the next 24 hours:
      a second request at any time `later` in that window is refused
      without a transfer, and the table is left as it is. */
  lemma ClaimStartsCooldown(wallet: string, table: seq<Claim>, now: int, later: int,
                            defaultAmount: Option<string>, transfer: string -> TransferResult)
    requires Matches(wallet) && now <= later < now + DayMillis
    requires LatestBlocking(table, wallet, now).None? && transfer(wallet).success
    ensures var first := CreateClaim(Text(wallet), table, now, defaultAmount, transfer);
      var second := CreateClaim(Text(wallet), first.table, later, defaultAmount, transfer);
      && first.reply.status == 201
      && second.reply.status == 400 && second.transferredTo.None? && second.table == first.table
      && 1 <= HoursRemaining(LatestBlocking(first.table, wallet, later).value.createdAt, later) <= 24
  {
    var first := CreateClaim(Text(wallet), table, now, defaultAmount, transfer);
    var added := first.table[|table|];
    assert added in first.table;
    assert Blocks(added, wallet, later);
    var last := LatestBlocking(first.table, wallet, later).value;
    assert last.createdAt >= now;
    assert last.createdAt <= now;
    HoursRemainingInRange(last.createdAt, later);
  }

  /** Newest first by `created_at`. */
  predicate NewestFirst(s: seq<Claim>) {
    forall i, j :: 0 <= i < j < |s| ==> s[i].createdAt >= s[j].createdAt
  }

  /** The wallet's rows, in table order. */
  function RowsOf(table: seq<Claim>, wallet: string): (r: seq<Claim>)
    ensures forall c :: c in r <==> c in table && c.wallet == wallet
    ensures |r| <= |table|
    decreases |table|
  {
    if table == [] then []
    else
      var rest := RowsOf(table[1..], wallet);
      assert forall c :: c in table ==> c == table[0] || c in table[1..];
      if table[0].wallet == wallet then [table[0]] + rest else rest
  }

  /** `c` placed into a newest-first list. */
  function Insert(c: Claim, s: seq<Claim>): (r: seq<Claim>)
    requires NewestFirst(s)
    ensures NewestFirst(r)
    ensures multiset(r) == multiset(s) + multiset{c}
    ensures |r| == |s| + 1 && (r[0] == c || (s != [] && r[0] == s[0]))
    decreases |s|
  {
    if s == [] || c.createdAt >= s[0].createdAt then [c] + s
    else
      var rest := Insert(c, s[1..]);
      assert s == [s[0]] + s[1..];
      ConsNewestFirst(s[0], rest);
      [s[0]] + rest
  }

  lemma ConsNewestFirst(x: Claim, s: seq<Claim>)
    requires NewestFirst(s)
    requires s != [] ==> x.createdAt >= s[0].createdAt
    ensures NewestFirst([x] + s)
  {
    var r := [x] + s;
    forall i, j | 0 <= i < j < |r|
      ensures r[i].createdAt >= r[j].createdAt
    {
      if i == 0 && j > 1 {
        assert r[j] == s[j - 1];
      }
    }
  }

  function SortNewestFirst(s: seq<Claim>): (r: seq<Claim>)
    ensures NewestFirst(r)
    ensures multiset(r) == multiset(s)
    decreases |s|
  {
    if s == [] then []
    else
      assert s == [s[0]] + s[1..];
      Insert(s[0], SortNewestFirst(s[1..]))
  }

  /** `getClaims`: the wallet's claims, newest first — every one of them,
      each as often as in the table, and no other rows. */
  function GetClaims(table: seq<Claim>, wallet: string): (r: seq<Claim>)
    ensures NewestFirst(r)
    ensures multiset(r) == multiset(RowsOf(table, wallet))
    ensures forall c :: c in r <==> c in table && c.wallet == wallet
  {
    var r := SortNewestFirst(RowsOf(table, wallet));
    assert forall c :: c in r <==> c in multiset(r);
    r
  }

  /** The answer of the claim-history route. */
  datatype History = History(status: int, success: bool, data: seq<Claim>, error: Option<string>)

  /** The history route as written: the route attaches the address
      validator, but `getClaims` never reads its verdict, so any path
      parameter is looked up and answered with 200. */
  function GetClaimsRoute(walletAddress: string, table: seq<Claim>): (r: History)
    ensures r.status == 200 && r.success && r.error.None?
    ensures NewestFirst(r.data)
    ensures multiset(r.data) == multiset(RowsOf(table, walletAddress))
    ensures forall c :: c in r.data <==> c in table && c.wallet == walletAddress
  {
    History(200, true, GetClaims(table, walletAddress), None)
  }

  /** A parameter the validator rejects still gets a successful answer. */
  lemma InvalidAddressAnswered(table: seq<Claim>)
    ensures Validate(Text("kaspa:")) == [InvalidFormat]
    ensures GetClaimsRoute("kaspa:", table).status == 200 && GetClaimsRoute("kaspa:", table).success
  {
    assert |"kaspa:"| < |Prefix| + MinSuffix;
  }

  /** The history route with the validator's verdict honoured the way
      `createClaim` honours it: the first error, with status 400. */
  function GetClaimsChecked(walletAddress: string, table: seq<Claim>): (r: History)
    ensures r.status == 200 <==> Matches(walletAddress)
    ensures !Matches(walletAddress) ==> r == History(400, false, [], Some(InvalidFormat))
    ensures Matches(walletAddress) ==> r == GetClaimsRoute(walletAddress, table)
  {
    var errors := Validate(Text(walletAddress));
    if errors != [] then History(400, false, [], Some(errors[0]))
    else GetClaimsRoute(walletAddress, table)
  }

  /** With the check in place, every row the route returns belongs to a
      well-formed address, and a table can only ever answer for such
      addresses: rows stored under a malformed wallet are never listed. */
  lemma CheckedListsOnlyValidAddresses(walletAddress: string, table: seq<Claim>, c: Claim)
    requires c in GetClaimsChecked(walletAddress, table).data
    ensures c.wallet == walletAddress && Matches(c.wallet) && c in table
  {
  }
}
