/** `createClaim` (src/controllers/claimController.ts) as concurrent
    requests. A request runs in three steps separated by `await`s: the
    cooldown query, the insert of the processing row (the transfer starts
    right after it), and the update once the transfer has settled.
    Requests for the same wallet interleave at those points. The clock of
    each request is the time it arrived; the transfer is a function of
    the wallet address. */
module ClaimRace {
  import opened Text
  import opened WalletAddress
  import opened TransferWrapper
  import opened Claims

  /** Validation and the cooldown query: the refusal, or `None` when the
      request goes on to insert its row. */
  function Admit(field: Field, table: seq<Claim>, now: int): (r: Option<Reply>)
    ensures r.None? <==> Validate(field) == [] && LatestBlocking(table, field.s, now).None?
    ensures r.Some? ==> r.value.status == 400 && !r.value.success && r.value.data.None?
  {
    var errors := Validate(field);
    if errors != [] then Some(Reply(400, false, None, Some(errors[0])))
    else
      match LatestBlocking(table, field.s, now)
      case Some(last) => Some(Reply(400, false, None, Some(CooldownMessage(HoursRemaining(last.createdAt, now)))))
      case None => None
  }

  /** Where one request is: not yet queried, past the query but not yet
      inserted, paying (its row is at index `row`), or answered. */
  datatype Request =
    | Arrived(field: Field, now: int)
    | Admitted(wallet: string, now: int)
    | Paying(row: nat)
    | Answered(reply: Reply)

  /** The table, the requests in flight, and the wallets a transfer was
      started for, in order. */
  datatype World = World(table: seq<Claim>, requests: seq<Request>, paid: seq<string>)

  /** Request `i` inserts its processing row and starts the transfer. */
  function Open(w: World, i: nat, wallet: string, now: int, amount: string): World
    requires i < |w.requests|
  {
    World(w.table + [Claim(NextId(w.table), wallet, amount, Processing, now, None, None)],
          w.requests[i := Paying(|w.table|)], w.paid + [wallet])
  }

  /** Request `i` writes the transfer's outcome into its row and answers. */
  function Close(w: World, i: nat, k: nat, transfer: string -> TransferResult): World
    requires i < |w.requests|
  {
    if k < |w.table| then
      var t := transfer(w.table[k].wallet);
      var settled := Settle(w.table[k], t);
      World(w.table[k := settled],
            w.requests[i := Answered(Reply(if t.success then 201 else 500, t.success, Some(settled), t.error))],
            w.paid)
    else w
  }

  /** One step of request `i`, as the controller is written: the query and
      the insert are separate steps. */
  function StepAsWritten(w: World, i: nat, amount: string, transfer: string -> TransferResult): World
  {
    if i >= |w.requests| then w
    else
      match w.requests[i]
      case Arrived(field, now) =>
        (match Admit(field, w.table, now)
         case Some(reply) => w.(requests := w.requests[i := Answered(reply)])
         case None => w.(requests := w.requests[i := Admitted(field.s, now)]))
      case Admitted(wallet, now) => Open(w, i, wallet, now, amount)
      case Paying(k) => Close(w, i, k, transfer)
      case Answered(_) => w
  }

  /** One step of request `i` with the query and the insert made a single
      step, as a transaction or a per-wallet lock would make them. */
  function StepAtomic(w: World, i: nat, amount: string, transfer: string -> TransferResult): World
  {
    if i >= |w.requests| then w
    else
      match w.requests[i]
      case Arrived(field, now) =>
        (match Admit(field, w.table, now)
         case Some(reply) => w.(requests := w.requests[i := Answered(reply)])
         case None => Open(w, i, field.s, now, amount))
      case Admitted(_, _) => w
      case Paying(k) => Close(w, i, k, transfer)
      case Answered(_) => w
  }

  /** The world after the requests have stepped in the order `schedule`
      names them. */
  function RunAsWritten(w: World, schedule: seq<nat>, amount: string, transfer: string -> TransferResult): World
    decreases |schedule|
  {
    if schedule == [] then w
    else RunAsWritten(StepAsWritten(w, schedule[0], amount, transfer), schedule[1..], amount, transfer)
  }

  function RunAtomic(w: World, schedule: seq<nat>, amount: string, transfer: string -> TransferResult): World
    decreases |schedule|
  {
    if schedule == [] then w
    else RunAtomic(StepAtomic(w, schedule[0], amount, transfer), schedule[1..], amount, transfer)
  }

  /** Two claims of one wallet, neither failed, made less than 24 hours
      apart: what the cooldown exists to prevent. */
  predicate Clash(c: Claim, d: Claim) {
    && c.wallet == d.wallet && c.status != Failed && d.status != Failed
    && d.createdAt - DayMillis < c.createdAt < d.createdAt + DayMillis
  }

  predicate Exclusive(table: seq<Claim>) {
    forall i, j :: 0 <= i < j < |table| ==> !Clash(table[i], table[j])
  }

  /** The invariant of the atomic version: no clash in the table, every
      paying request's row still processing, and no row shared by two
      paying requests. */
  predicate Good(w: World) {
    && Exclusive(w.table)
    && (forall i :: 0 <= i < |w.requests| && w.requests[i].Paying? ==>
          w.requests[i].row < |w.table| && w.table[w.requests[i].row].status == Processing)
    && (forall i, j :: 0 <= i < j < |w.requests| && w.requests[i].Paying? && w.requests[j].Paying? ==>
          w.requests[i].row != w.requests[j].row)
  }

  /** An admitted insert adds no clash: every earlier claim of the wallet
      that is not failed is at least 24 hours old. */
  lemma AdmittedInsertExclusive(table: seq<Claim>, c: Claim, now: int)
    requires Exclusive(table) && LatestBlocking(table, c.wallet, now).None? && c.createdAt == now
    ensures Exclusive(table + [c])
  {
    var t := table + [c];
    forall i, j | 0 <= i < j < |t|
      ensures !Clash(t[i], t[j])
    {
      if j == |table| {
        assert t[i] in table;
        assert !Blocks(t[i], c.wallet, now);
      }
    }
  }

  /** Settling a processing row adds no clash: it either stays counted
      (completed) or stops counting (failed). */
  lemma SettleExclusive(table: seq<Claim>, k: nat, t: TransferResult)
    requires Exclusive(table) && k < |table| && table[k].status == Processing
    ensures Exclusive(table[k := Settle(table[k], t)])
  {
    var u := table[k := Settle(table[k], t)];
    forall i, j | 0 <= i < j < |u|
      ensures !Clash(u[i], u[j])
    {
      assert !Clash(table[i], table[j]);
    }
  }

  lemma StepAtomicGood(w: World, i: nat, amount: string, transfer: string -> TransferResult)
    requires Good(w)
    ensures Good(StepAtomic(w, i, amount, transfer))
  {
    if i < |w.requests| {
      match w.requests[i]
      case Arrived(field, now) =>
        if Admit(field, w.table, now).None? {
          AdmittedInsertExclusive(w.table, Claim(NextId(w.table), field.s, amount, Processing, now, None, None), now);
        }
      case Admitted(_, _) =>
      case Paying(k) =>
        SettleExclusive(w.table, k, transfer(w.table[k].wallet));
      case Answered(_) =>
    }
  }

  /** With the query and the insert atomic, no schedule of any number of
      requests ever puts two live claims of one wallet less than 24 hours
      apart into the table. */
  lemma {:induction false} AtomicClaimsExclusive(w: World, schedule: seq<nat>, amount: string,
                                                 transfer: string -> TransferResult)
    requires Good(w)
    ensures Good(RunAtomic(w, schedule, amount, transfer))
    ensures Exclusive(RunAtomic(w, schedule, amount, transfer).table)
    decreases |schedule|
  {
    if schedule != [] {
      StepAtomicGood(w, schedule[0], amount, transfer);
      AtomicClaimsExclusive(StepAtomic(w, schedule[0], amount, transfer), schedule[1..], amount, transfer);
    }
  }

  /** Requests that have not started yet meet the invariant whenever the
      table has no clash. */
  lemma FreshRequestsGood(table: seq<Claim>, requests: seq<Request>)
    requires Exclusive(table)
    requires forall i :: 0 <= i < |requests| ==> requests[i].Arrived?
    ensures Good(World(table, requests, []))
  {
  }

  /** As written: two requests for a wallet with no claim in the last 24
      hours that both run their query before either inserts both start a
      transfer, and leave two live claims of the same moment behind. */
  lemma RacingClaimsBothPay(wallet: string, table: seq<Claim>, now: int, amount: string,
                            transfer: string -> TransferResult)
    requires Matches(wallet) && LatestBlocking(table, wallet, now).None?
    ensures var w := RunAsWritten(World(table, [Arrived(Text(wallet), now), Arrived(Text(wallet), now)], []),
                                  [0, 1, 0, 1], amount, transfer);
      && w.paid == [wallet, wallet]
      && !Exclusive(w.table)
  {
    var w0 := World(table, [Arrived(Text(wallet), now), Arrived(Text(wallet), now)], []);
    var w1 := StepAsWritten(w0, 0, amount, transfer);
    assert w1.requests == [Admitted(wallet, now), Arrived(Text(wallet), now)];
    var w2 := StepAsWritten(w1, 1, amount, transfer);
    assert w2.table == table;
    assert w2.requests == [Admitted(wallet, now), Admitted(wallet, now)];
    var w3 := StepAsWritten(w2, 0, amount, transfer);
    var w4 := StepAsWritten(w3, 1, amount, transfer);
    assert w4.paid == [wallet, wallet];
    assert Clash(w4.table[|table|], w4.table[|table| + 1]);
    assert [0, 1, 0, 1][1..] == [1, 0, 1] && [1, 0, 1][1..] == [0, 1] && [0, 1][1..] == [1];
  }

  /** Request `i` has been answered with a refusal. */
  predicate Refused(w: World, i: nat) {
    i < |w.requests| && w.requests[i].Answered? && w.requests[i].reply.status == 400
  }

  /** The same schedule with the query and the insert atomic: the first
      request pays, the second is refused with the cooldown message. */
  lemma AtomicRaceRefused(wallet: string, table: seq<Claim>, now: int, amount: string,
                          transfer: string -> TransferResult)
    requires Matches(wallet) && LatestBlocking(table, wallet, now).None?
    ensures var w := RunAtomic(World(table, [Arrived(Text(wallet), now), Arrived(Text(wallet), now)], []),
                               [0, 1, 0, 1], amount, transfer);
      && w.paid == [wallet]
      && Refused(w, 1)
  {
    var w0 := World(table, [Arrived(Text(wallet), now), Arrived(Text(wallet), now)], []);
    var w1 := StepAtomic(w0, 0, amount, transfer);
    assert w1.paid == [wallet];
    var c := w1.table[|table|];
    assert c in w1.table && Blocks(c, wallet, now);
    var w2 := StepAtomic(w1, 1, amount, transfer);
    assert Refused(w2, 1);
    var w3 := StepAtomic(w2, 0, amount, transfer);
    var w4 := StepAtomic(w3, 1, amount, transfer);
    assert w4.paid == [wallet] && w4.requests[1] == w2.requests[1];
    assert [0, 1, 0, 1][1..] == [1, 0, 1] && [1, 0, 1][1..] == [0, 1] && [0, 1][1..] == [1];
  }

  /** A request alone, run to its answer, is `createClaim`: the same
      response, the same table, and a transfer to the wallet exactly when
      `CreateClaim` makes one — in both versions. */
  lemma LoneRequestIsCreateClaim(field: Field, table: seq<Claim>, now: int, defaultAmount: Option<string>,
                                 transfer: string -> TransferResult)
    ensures var amount := EnvOr(defaultAmount, Claims.DefaultAmount);
      var h := CreateClaim(field, table, now, defaultAmount, transfer);
      var w := RunAsWritten(World(table, [Arrived(field, now)], []), [0, 0, 0], amount, transfer);
      var v := RunAtomic(World(table, [Arrived(field, now)], []), [0, 0], amount, transfer);
      && w == v
      && w.table == h.table && w.requests == [Answered(h.reply)]
      && w.paid == (if h.transferredTo.Some? then [h.transferredTo.value] else [])
  {
    var amount := EnvOr(defaultAmount, Claims.DefaultAmount);
    var w0 := World(table, [Arrived(field, now)], []);
    assert [0, 0, 0][1..] == [0, 0] && [0, 0][1..] == [0];
    var w1 := StepAsWritten(w0, 0, amount, transfer);
    var w2 := StepAsWritten(w1, 0, amount, transfer);
    var v1 := StepAtomic(w0, 0, amount, transfer);
    assert v1 == w2;
    var w3 := StepAsWritten(w2, 0, amount, transfer);
    assert StepAtomic(v1, 0, amount, transfer) == w3;
  }
}
