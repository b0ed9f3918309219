/** The sending limits bound every closed window, not only the windows that end at a check. */
module RateWindow {
  import opened MailTypes
  import opened Ledger
  import opened LedgerInvariants

  /** Reservations of one mailbox stamped within the closed interval [from, to]. */
  function CountWithin(events: seq<RateEvent>, u: UserKey, m: MailboxId, from: Time, to: Time): nat {
    if events == [] then 0
    else
      var e := events[|events| - 1];
      CountWithin(events[..|events| - 1], u, m, from, to)
      + if e.user == u && e.mailbox == m && from <= e.at <= to then 1 else 0
  }

  lemma {:induction false} WindowWithinSince(
    events: seq<RateEvent>, u: UserKey, m: MailboxId, from: Time, to: Time, since: Time)
    requires since <= from
    ensures CountWithin(events, u, m, from, to) <= CountSince(events, u, m, since)
  {
    if events != [] {
      WindowWithinSince(events[..|events| - 1], u, m, from, to, since);
    }
  }

  /** A reservation of this mailbox reads its clock twice, in order, and was admitted under limits of at most
      `perHour` and `perDay`. */
  predicate Limited(u: UserKey, m: MailboxId, perHour: nat, perDay: nat, v: UserKey, c: Command) {
    v == u && c.DoReserve? && c.m == m ==>
      c.checkedAt <= c.now && c.policy.maxPerHour <= perHour && c.policy.maxPerDay <= perDay
  }

  predicate WindowsHold(
    events: seq<RateEvent>, u: UserKey, m: MailboxId, perHour: nat, perDay: nat, from: Time)
  {
    && CountWithin(events, u, m, from, from + HOUR) <= perHour
    && CountWithin(events, u, m, from, from + DAY) <= perDay
  }

  lemma AppendKeepsWindow(
    events: seq<RateEvent>, e: RateEvent, u: UserKey, m: MailboxId, perHour: nat, perDay: nat, checkedAt: Time,
    from: Time)
    requires WindowsHold(events, u, m, perHour, perDay, from)
    requires e.user == u && e.mailbox == m ==>
               && checkedAt <= e.at
               && CountSince(events, u, m, checkedAt - HOUR) < perHour
               && CountSince(events, u, m, checkedAt - DAY) < perDay
    ensures WindowsHold(events + [e], u, m, perHour, perDay, from)
  {
    assert (events + [e])[..|events|] == events;
    if e.user == u && e.mailbox == m {
      if from <= e.at <= from + HOUR {
        WindowWithinSince(events, u, m, from, from + HOUR, checkedAt - HOUR);
      }
      if from <= e.at <= from + DAY {
        WindowWithinSince(events, u, m, from, from + DAY, checkedAt - DAY);
      }
    }
  }

  /** Rate events are only ever added by a reservation that found both counts below its limits. */
  lemma EventsGrow(t: Tables, v: UserKey, c: Command)
    ensures var events := Execute(t, v, c).rateEvents;
            events == t.rateEvents
            || (&& c.DoReserve? && events == t.rateEvents + [RateEvent(v, c.id, c.m, c.now)]
                && CountSince(t.rateEvents, v, c.m, c.checkedAt - HOUR) < c.policy.maxPerHour
                && CountSince(t.rateEvents, v, c.m, c.checkedAt - DAY) < c.policy.maxPerDay)
  {
    if WritesLedger(c) {
      match c
      case DoReserve(key, m, hash, policy, recipients, externals, id, checkedAt, now) =>
        assert Execute(t, v, c)
            == ReserveSendOperation(t, v, key, m, hash, policy, recipients, externals, id, checkedAt, now).tables;
      case DoComplete(key, receipt, recipients, externals) =>
      case DoMarkUnknown(key, code, recipients, externals, now) =>
    } else {
      OtherWritesKeep(t, v, c);
    }
  }

  lemma StepKeepsWindow(
    t: Tables, u: UserKey, m: MailboxId, perHour: nat, perDay: nat, v: UserKey, c: Command, from: Time)
    requires Limited(u, m, perHour, perDay, v, c) && WindowsHold(t.rateEvents, u, m, perHour, perDay, from)
    ensures WindowsHold(Execute(t, v, c).rateEvents, u, m, perHour, perDay, from)
  {
    EventsGrow(t, v, c);
    if Execute(t, v, c).rateEvents != t.rateEvents {
      AppendKeepsWindow(t.rateEvents, RateEvent(v, c.id, c.m, c.now), u, m, perHour, perDay, c.checkedAt, from);
    }
  }

  /** Over every run of store transactions, in any order and with clocks that may even step back between
      transactions: if no reservation of the mailbox was admitted under more than `perHour` and `perDay`,
      then no closed hour holds more than `perHour` of them and no closed day more than `perDay`. */
  lemma {:induction false} SlidingWindowBound(
    mailboxes: set<Owned<MailboxId>>, commands: seq<(UserKey, Command)>, u: UserKey, m: MailboxId, perHour: nat,
    perDay: nat, from: Time)
    requires forall i :: 0 <= i < |commands| ==> Limited(u, m, perHour, perDay, commands[i].0, commands[i].1)
    ensures WindowsHold(ExecuteAll(EmptyTables(mailboxes), commands).rateEvents, u, m, perHour, perDay, from)
  {
    if commands != [] {
      var (v, c) := commands[|commands| - 1];
      SlidingWindowBound(mailboxes, commands[..|commands| - 1], u, m, perHour, perDay, from);
      assert Limited(u, m, perHour, perDay, v, c);
      StepKeepsWindow(ExecuteAll(EmptyTables(mailboxes), commands[..|commands| - 1]), u, m, perHour, perDay, v, c,
                      from);
    }
  }
}
