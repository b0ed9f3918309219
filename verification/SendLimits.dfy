/** The sending limits are exact: what they count, when they refuse, and that they let go again. */
module SendLimits {
  import opened MailTypes
  import opened SendPolicy
  import opened Ledger
  import opened LedgerInvariants
  import R = RateWindow
  import S = SendServiceSpec

  /** Which reservations of this user and mailbox are stamped at or after `since`. */
  function Stamped(events: seq<RateEvent>, u: UserKey, m: MailboxId, since: Time): set<nat> {
    set i: nat | i < |events| && events[i].user == u && events[i].mailbox == m && events[i].at >= since
  }

  lemma StampedMore(events: seq<RateEvent>, e: RateEvent, u: UserKey, m: MailboxId, since: Time)
    ensures |Stamped(events + [e], u, m, since)|
         == |Stamped(events, u, m, since)| + if e.user == u && e.mailbox == m && e.at >= since then 1 else 0
  {
    var counts := e.user == u && e.mailbox == m && e.at >= since;
    assert Stamped(events + [e], u, m, since) == Stamped(events, u, m, since) + if counts then {|events|} else {};
  }

  lemma {:induction false} CountIsStamped(events: seq<RateEvent>, u: UserKey, m: MailboxId, since: Time)
    ensures CountSince(events, u, m, since) == |Stamped(events, u, m, since)|
  {
    if events != [] {
      var init, n := events[..|events| - 1], |events| - 1;
      CountIsStamped(init, u, m, since);
      assert events == init + [events[n]];
      StampedMore(init, events[n], u, m, since);
    }
  }

  /** How many of them the last hour and the last day before `at` hold. */
  function Hourly(t: Tables, u: UserKey, m: MailboxId, at: Time): nat {
    |Stamped(t.rateEvents, u, m, at - 3_600_000)|
  }

  function Daily(t: Tables, u: UserKey, m: MailboxId, at: Time): nat {
    |Stamped(t.rateEvents, u, m, at - 86_400_000)|
  }

  lemma UsageIsStamped(t: Tables, u: UserKey, m: MailboxId, at: Time)
    ensures SendUsage(t, u, m, at) == Usage(Hourly(t, u, m, at), Daily(t, u, m, at))
  {
    CountIsStamped(t.rateEvents, u, m, at - 3_600_000);
    CountIsStamped(t.rateEvents, u, m, at - 86_400_000);
  }

  /** A new key is refused by the hourly limit exactly if that many reservations of the mailbox are at most an hour old,
      otherwise by the daily limit exactly if that many are at most a day old; past the limits it is reserved unless
      the mailbox is missing or the id taken. A known key is never refused by a limit. */
  lemma ReserveIsLimitedExactlyWhen(
    t: Tables, u: UserKey, key: SendKey, m: MailboxId, hash: PayloadHash, policy: Policy, recipients: nat,
    externals: nat, id: OperationId, checkedAt: Time, now: Time)
    ensures var tx := ReserveSendOperation(t, u, key, m, hash, policy, recipients, externals, id, checkedAt, now);
            var hour, day := Hourly(t, u, m, checkedAt), Daily(t, u, m, checkedAt);
            && (tx.result == Err(HourlyLimitExceeded) <==> Owned(u, key) !in t.operations && hour >= policy.maxPerHour)
            && (tx.result == Err(DailyLimitExceeded) <==>
                  Owned(u, key) !in t.operations && hour < policy.maxPerHour && day >= policy.maxPerDay)
            && (Owned(u, key) !in t.operations ==>
                  (tx.result.Ok? <==>
                     && hour < policy.maxPerHour && day < policy.maxPerDay && Owned(u, m) in t.mailboxes
                     && !OperationIdUsed(t, u, id)))
  {
    UsageIsStamped(t, u, m, checkedAt);
  }

  /** What is reserved: one row in flight under this key, one rate event and one audit row, all stamped now. */
  lemma ReservedRows(
    t: Tables, u: UserKey, key: SendKey, m: MailboxId, hash: PayloadHash, policy: Policy, recipients: nat,
    externals: nat, id: OperationId, checkedAt: Time, now: Time)
    ensures var tx := ReserveSendOperation(t, u, key, m, hash, policy, recipients, externals, id, checkedAt, now);
            tx.tables != t ==>
              && tx.result == Ok(Fresh(tx.tables.operations[Owned(u, key)]))
              && Hourly(tx.tables, u, m, now) == Hourly(t, u, m, now) + 1
              && var op := tx.tables.operations[Owned(u, key)];
                 && op.id == id && op.mailbox == m && op.payloadHash == hash && op.state == Submitting
                 && op.createdAt == now && op.updatedAt == now && op.errorCode.None?
                 && op.accepted == 0 && op.rejected == 0
  {
    var tx := ReserveSendOperation(t, u, key, m, hash, policy, recipients, externals, id, checkedAt, now);
    if tx.tables != t {
      assert tx.tables.rateEvents == t.rateEvents + [RateEvent(u, id, m, now)];
      assert tx.tables.rateEvents[..|t.rateEvents|] == t.rateEvents;
      CountIsStamped(t.rateEvents, u, m, now - 3_600_000);
      CountIsStamped(tx.tables.rateEvents, u, m, now - 3_600_000);
    }
  }

  /** The gate reads the same numbers: each limit is reported exactly if its window is full, and the two remaining
      budgets are what is left of it. */
  lemma GateCountsTheSame(
    reg: S.Registry, t: Tables, u: UserKey, draft: DraftId, version: nat, payload: Payload, now: Time)
    ensures var r, m := S.Validate(reg, t, u, draft, version, payload, now), payload.mailbox;
            var policy := CurrentPolicy(t, u, m).policy;
            r.Ok? ==>
              && (HourlyLimit in r.value.reasons <==> Hourly(t, u, m, now) >= policy.maxPerHour)
              && (DailyLimit in r.value.reasons <==> Daily(t, u, m, now) >= policy.maxPerDay)
              && r.value.remainingHour
                 == (if Hourly(t, u, m, now) < policy.maxPerHour then policy.maxPerHour - Hourly(t, u, m, now) else 0)
              && r.value.remainingDay
                 == (if Daily(t, u, m, now) < policy.maxPerDay then policy.maxPerDay - Daily(t, u, m, now) else 0)
  {
    var r, m := S.Validate(reg, t, u, draft, version, payload, now), payload.mailbox;
    if r.Ok? {
      var view, usage := CurrentPolicy(t, u, m), SendUsage(t, u, m, now);
      UsageIsStamped(t, u, m, now);
      GateIsExact(reg[m].own, draft, version, payload, view, usage);
      assert HourlyLimit in r.value.reasons <==> multiset(r.value.reasons)[HourlyLimit] > 0;
      assert DailyLimit in r.value.reasons <==> multiset(r.value.reasons)[DailyLimit] > 0;
    }
  }

  // ----- over runs -----

  predicate Reserves(command: (UserKey, Command), e: RateEvent) {
    && command.0 == e.user && command.1.DoReserve? && command.1.m == e.mailbox && command.1.id == e.operation
    && command.1.now == e.at
  }

  predicate ReservedIn(commands: seq<(UserKey, Command)>, e: RateEvent) {
    exists i | 0 <= i < |commands| :: Reserves(commands[i], e)
  }

  lemma ReservedMore(commands: seq<(UserKey, Command)>, e: RateEvent)
    requires commands != []
    requires ReservedIn(commands[..|commands| - 1], e) || Reserves(commands[|commands| - 1], e)
    ensures ReservedIn(commands, e)
  {
    var init := commands[..|commands| - 1];
    if ReservedIn(init, e) {
      var i :| 0 <= i < |init| && Reserves(init[i], e);
      assert commands[i] == init[i];
    }
  }

  lemma NewEvent(t: Tables, u: UserKey, c: Command, e: RateEvent)
    requires e in Execute(t, u, c).rateEvents && e !in t.rateEvents
    ensures Reserves((u, c), e)
  {
    R.EventsGrow(t, u, c);
  }

  /** Every rate event stems from a reservation of the run. */
  lemma {:induction false} EventsAreReservations(
    mailboxes: set<Owned<MailboxId>>, commands: seq<(UserKey, Command)>, e: RateEvent)
    requires e in ExecuteAll(EmptyTables(mailboxes), commands).rateEvents
    ensures ReservedIn(commands, e)
  {
    if commands != [] {
      var init, n := commands[..|commands| - 1], |commands| - 1;
      var before := ExecuteAll(EmptyTables(mailboxes), init);
      if e in before.rateEvents {
        EventsAreReservations(mailboxes, init, e);
      } else {
        NewEvent(before, commands[n].0, commands[n].1, e);
      }
      ReservedMore(commands, e);
    }
  }

  lemma NoneStamped(events: seq<RateEvent>, u: UserKey, m: MailboxId, since: Time)
    requires forall e <- events | e.user == u && e.mailbox == m :: e.at < since
    ensures Stamped(events, u, m, since) == {}
  {
  }

  /** The limits let go: if every reservation of the mailbox that the run made is more than a day old, then no limit of
      at least one refuses the next. */
  lemma {:induction false} OldReservationsAreForgotten(
    mailboxes: set<Owned<MailboxId>>, commands: seq<(UserKey, Command)>, u: UserKey, m: MailboxId, key: SendKey,
    hash: PayloadHash, policy: Policy, recipients: nat, externals: nat, id: OperationId, checkedAt: Time, now: Time)
    requires policy.maxPerHour >= 1 && policy.maxPerDay >= 1
    requires forall i | 0 <= i < |commands| && commands[i].0 == u && commands[i].1.DoReserve? && commands[i].1.m == m ::
               commands[i].1.now < checkedAt - 86_400_000
    ensures var t := ExecuteAll(EmptyTables(mailboxes), commands);
            var r := ReserveSendOperation(t, u, key, m, hash, policy, recipients, externals, id, checkedAt, now).result;
            r != Err(HourlyLimitExceeded) && r != Err(DailyLimitExceeded)
  {
    var t := ExecuteAll(EmptyTables(mailboxes), commands);
    forall e <- t.rateEvents | e.user == u && e.mailbox == m ensures e.at < checkedAt - 86_400_000 {
      EventsAreReservations(mailboxes, commands, e);
    }
    NoneStamped(t.rateEvents, u, m, checkedAt - 86_400_000);
    NoneStamped(t.rateEvents, u, m, checkedAt - 3_600_000);
    ReserveIsLimitedExactlyWhen(t, u, key, m, hash, policy, recipients, externals, id, checkedAt, now);
  }
}
