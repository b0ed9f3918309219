/** The per-mailbox policy gate that every outgoing message passes. */
module SendPolicy {
  import opened MailTypes

  datatype Reason =
    | PolicyDisabled | TooManyRecipients | DomainDenied | DomainNotAllowed | ExternalBlocked
    | HourlyLimit | DailyLimit

  datatype Validation = Validation(
    draft: DraftId, draftVersion: nat, mailbox: MailboxId, policyVersion: nat, blocked: bool, reasons: seq<Reason>,
    externalWarning: bool, recipients: nat, externals: nat, remainingHour: nat, remainingDay: nat)

  /** The policy row as the service reads it; version 0 when the mailbox has no row. */
  datatype PolicyView = PolicyView(policy: Policy, version: nat)

  function Recipients(p: Payload): seq<Address> {
    p.to + p.cc + p.bcc
  }

  function ExternalCount(recipients: seq<Address>, own: Domain): nat {
    if recipients == [] then 0
    else ExternalCount(recipients[..|recipients| - 1], own)
         + (if recipients[|recipients| - 1].domain == Some(own) then 0 else 1)
  }

  lemma {:induction false} ExternalCountPositive(recipients: seq<Address>, own: Domain)
    ensures ExternalCount(recipients, own) > 0 <==> exists a :: a in recipients && a.domain != Some(own)
  {
    if recipients != [] {
      var init, last := recipients[..|recipients| - 1], recipients[|recipients| - 1];
      ExternalCountPositive(init, own);
      assert recipients == init + [last];
    }
  }

  predicate SomeDenied(recipients: seq<Address>, policy: Policy) {
    exists a <- recipients :: a.domain in policy.denied
  }

  predicate SomeNotAllowed(recipients: seq<Address>, policy: Policy) {
    policy.allowed != [] && exists a <- recipients :: a.domain !in policy.allowed
  }

  predicate SomeExternal(recipients: seq<Address>, own: Domain) {
    exists a <- recipients :: a.domain != Some(own)
  }

  /** What each refusal means, stated over the recipients rather than over the way they are counted. */
  predicate Violates(reason: Reason, own: Domain, recipients: seq<Address>, policy: Policy, usage: Usage) {
    match reason
    case PolicyDisabled => policy.mode == Disabled
    case TooManyRecipients => |recipients| > policy.maxRecipients
    case DomainDenied => SomeDenied(recipients, policy)
    case DomainNotAllowed => SomeNotAllowed(recipients, policy)
    case ExternalBlocked => policy.external == Block && SomeExternal(recipients, own)
    case HourlyLimit => usage.lastHour >= policy.maxPerHour
    case DailyLimit => usage.lastDay >= policy.maxPerDay
  }

  /** The rules in the order in which the code checks them. */
  const RULES := [PolicyDisabled, TooManyRecipients, DomainDenied, DomainNotAllowed, ExternalBlocked, HourlyLimit,
                  DailyLimit]

  function Push(reasons: seq<Reason>, broken: bool, reason: Reason): seq<Reason> {
    if broken then reasons + [reason] else reasons
  }

  /** The broken ones among the first `count` rules. */
  function Reported(count: nat, broken: Reason -> bool): seq<Reason>
    requires count <= |RULES|
  {
    if count == 0 then [] else Push(Reported(count - 1, broken), broken(RULES[count - 1]), RULES[count - 1])
  }

  function Broken(own: Domain, recipients: seq<Address>, policy: Policy, usage: Usage): seq<Reason> {
    Reported(|RULES|, x => Violates(x, own, recipients, policy, usage))
  }

  function Minus(a: nat, b: nat): nat {
    if a > b then a - b else 0
  }

  /** The mailbox's own domain, every recipient's and every listed one can be canonicalised; otherwise the
      evaluation throws. */
  predicate Parsed(own: Option<Domain>, payload: Payload, policy: Policy) {
    && own.Some?
    && (forall a <- Recipients(payload) :: a.domain.Some?)
    && (forall d <- policy.allowed + policy.denied :: d.Some?)
  }

  function Evaluate(
    own: Option<Domain>, draft: DraftId, draftVersion: nat, payload: Payload, view: PolicyView, usage: Usage)
    : Result<Validation>
  {
    if !Parsed(own, payload, view.policy) then Err(InvalidDomain)
    else
      var externals := ExternalCount(Recipients(payload), own.value);
      var reasons := Broken(own.value, Recipients(payload), view.policy, usage);
      Ok(Validation(draft, draftVersion, payload.mailbox, view.version, |reasons| > 0, reasons,
                    externals > 0 && view.policy.external == Warn, |Recipients(payload)|, externals,
                    Minus(view.policy.maxPerHour, usage.lastHour), Minus(view.policy.maxPerDay, usage.lastDay)))
  }

  /** The gate is exact: a rule is reported once if it is broken and not at all otherwise,
      and the message is blocked if and only if some rule is broken. */
  lemma GateIsExact(
    own: Option<Domain>, draft: DraftId, draftVersion: nat, payload: Payload, view: PolicyView, usage: Usage)
    ensures var r := Evaluate(own, draft, draftVersion, payload, view, usage);
            && (r.Ok? <==> Parsed(own, payload, view.policy))
            && (r.Ok? ==>
                  && (forall x: Reason :: multiset(r.value.reasons)[x] ==
                        if Violates(x, own.value, Recipients(payload), view.policy, usage) then 1 else 0)
                  && (!r.value.blocked <==>
                        forall x: Reason :: !Violates(x, own.value, Recipients(payload), view.policy, usage)))
  {
    if Parsed(own, payload, view.policy) {
      var recipients := Recipients(payload);
      var reasons := Broken(own.value, recipients, view.policy, usage);
      forall x: Reason
        ensures multiset(reasons)[x] == if Violates(x, own.value, recipients, view.policy, usage) then 1 else 0
      {
        ReportedOnce(|RULES|, y => Violates(y, own.value, recipients, view.policy, usage), x);
      }
      if |reasons| > 0 {
        assert reasons[0] in multiset(reasons);
      } else {
        assert forall x: Reason :: multiset(reasons)[x] == 0;
      }
    }
  }

  predicate Addressed(payload: Payload, a: Address) {
    a in payload.to || a in payload.cc || a in payload.bcc
  }

  lemma NoneListed(p: Policy)
    ensures (forall d <- p.allowed + p.denied :: d.Some?) <==> None !in p.allowed && None !in p.denied
  {
    forall d ensures d in p.allowed + p.denied <==> d in p.allowed || d in p.denied {
    }
    assert forall d: Option<Domain> :: d.None? <==> d == None;
  }

  /** The gate in plain words: what each reason says, of the addresses in the three fields. */
  lemma ReasonsAreExact(
    own: Option<Domain>, draft: DraftId, draftVersion: nat, payload: Payload, view: PolicyView, usage: Usage)
    ensures var r, p := Evaluate(own, draft, draftVersion, payload, view, usage), view.policy;
            r.Ok? ==>
              var reasons := r.value.reasons;
              && (PolicyDisabled in reasons <==> p.mode == Disabled)
              && (TooManyRecipients in reasons <==>
                    |payload.to| + |payload.cc| + |payload.bcc| > p.maxRecipients)
              && (DomainDenied in reasons <==> exists a :: Addressed(payload, a) && a.domain in p.denied)
              && (DomainNotAllowed in reasons <==>
                    |p.allowed| > 0 && exists a :: Addressed(payload, a) && a.domain !in p.allowed)
              && (ExternalBlocked in reasons <==>
                    p.external == Block && exists a :: Addressed(payload, a) && a.domain != own)
              && (HourlyLimit in reasons <==> usage.lastHour >= p.maxPerHour)
              && (DailyLimit in reasons <==> usage.lastDay >= p.maxPerDay)
              && (r.value.blocked <==> reasons != [])
    ensures Evaluate(own, draft, draftVersion, payload, view, usage) == Err(InvalidDomain) <==>
            || own.None? || (exists a :: Addressed(payload, a) && a.domain.None?)
            || None in view.policy.allowed || None in view.policy.denied
  {
    GateIsExact(own, draft, draftVersion, payload, view, usage);
    var r := Evaluate(own, draft, draftVersion, payload, view, usage);
    assert forall a :: Addressed(payload, a) <==> a in Recipients(payload);
    NoneListed(view.policy);
    if r.Ok? {
      forall x: Reason
        ensures x in r.value.reasons <==> Violates(x, own.value, Recipients(payload), view.policy, usage)
      {
        assert x in r.value.reasons <==> x in multiset(r.value.reasons);
      }
    }
  }

  /** The recipients of other domains. */
  function Outsiders(recipients: seq<Address>, own: Domain): set<nat> {
    set i: nat | i < |recipients| && recipients[i].domain != Some(own)
  }

  lemma {:induction false} ExternalsAreOutsiders(recipients: seq<Address>, own: Domain)
    ensures ExternalCount(recipients, own) == |Outsiders(recipients, own)|
  {
    if recipients != [] {
      var init, last := recipients[..|recipients| - 1], recipients[|recipients| - 1];
      ExternalsAreOutsiders(init, own);
      assert Outsiders(recipients, own) == Outsiders(init, own) + if last.domain != Some(own) then {|init|} else {};
    }
  }

  /** The rest of what the sender is shown: how many recipients there are and how many of another domain, a warning
      exactly if there are any and the policy says to warn, what is left of both budgets, and what it was all for. */
  lemma ValidationIsTrue(
    own: Option<Domain>, draft: DraftId, draftVersion: nat, payload: Payload, view: PolicyView, usage: Usage)
    ensures var r := Evaluate(own, draft, draftVersion, payload, view, usage);
            r.Ok? ==>
              var v, p := r.value, view.policy;
              && v.recipients == |payload.to| + |payload.cc| + |payload.bcc|
              && v.externals == |Outsiders(payload.to + payload.cc + payload.bcc, own.value)|
              && (v.externalWarning <==>
                    p.external == Warn
                    && exists a :: (a in payload.to || a in payload.cc || a in payload.bcc) && a.domain != own)
              && v.remainingHour == (if usage.lastHour < p.maxPerHour then p.maxPerHour - usage.lastHour else 0)
              && v.remainingDay == (if usage.lastDay < p.maxPerDay then p.maxPerDay - usage.lastDay else 0)
              && v.draft == draft && v.draftVersion == draftVersion && v.mailbox == payload.mailbox
              && v.policyVersion == view.version
  {
    if Parsed(own, payload, view.policy) {
      ExternalsAreOutsiders(Recipients(payload), own.value);
      ExternalCountPositive(Recipients(payload), own.value);
    }
  }

  function Index(x: Reason): nat {
    match x
    case PolicyDisabled => 0
    case TooManyRecipients => 1
    case DomainDenied => 2
    case DomainNotAllowed => 3
    case ExternalBlocked => 4
    case HourlyLimit => 5
    case DailyLimit => 6
  }

  lemma RuleAt(count: nat, x: Reason)
    requires count < |RULES|
    ensures x == RULES[count] <==> Index(x) == count
  {
  }

  lemma {:induction false} ReportedOnce(count: nat, broken: Reason -> bool, x: Reason)
    requires count <= |RULES|
    ensures multiset(Reported(count, broken))[x] == if Index(x) < count && broken(x) then 1 else 0
  {
    if count > 0 {
      ReportedOnce(count - 1, broken, x);
      RuleAt(count - 1, x);
    }
  }

  /** The rules one after the other, as conditions. */
  function InOrder(own: Domain, recipients: seq<Address>, policy: Policy, usage: Usage): seq<Reason> {
    var first := Push(Push(Push([], policy.mode == Disabled, PolicyDisabled),
                           |recipients| > policy.maxRecipients, TooManyRecipients),
                      SomeDenied(recipients, policy), DomainDenied);
    var second := Push(Push(first, SomeNotAllowed(recipients, policy), DomainNotAllowed),
                       policy.external == Block && SomeExternal(recipients, own), ExternalBlocked);
    Push(Push(second, usage.lastHour >= policy.maxPerHour, HourlyLimit), usage.lastDay >= policy.maxPerDay, DailyLimit)
  }

  lemma NextRule(count: nat, broken: Reason -> bool)
    requires count < |RULES|
    ensures Reported(count + 1, broken) == Push(Reported(count, broken), broken(RULES[count]), RULES[count])
  {
  }

  lemma BrokenInOrder(own: Domain, recipients: seq<Address>, policy: Policy, usage: Usage)
    ensures Broken(own, recipients, policy, usage) == InOrder(own, recipients, policy, usage)
  {
    var broken := x => Violates(x, own, recipients, policy, usage);
    NextRule(0, broken);
    NextRule(1, broken);
    NextRule(2, broken);
    NextRule(3, broken);
    NextRule(4, broken);
    NextRule(5, broken);
    NextRule(6, broken);
  }

  /** The source's own shape: reasons are pushed one by one onto a local array. */
  method EvaluateSendPolicy(
    own: Option<Domain>, draft: DraftId, draftVersion: nat, payload: Payload, view: PolicyView, usage: Usage)
    returns (r: Result<Validation>)
    ensures r == Evaluate(own, draft, draftVersion, payload, view, usage)
  {
    if !Parsed(own, payload, view.policy) {
      return Err(InvalidDomain);
    }
    var recipients := Recipients(payload);
    var policy := view.policy;
    var externals := ExternalCount(recipients, own.value);
    ExternalCountPositive(recipients, own.value);
    BrokenInOrder(own.value, recipients, policy, usage);
    var reasons: seq<Reason> := [];
    var warning := false;
    if policy.mode == Disabled { reasons := reasons + [PolicyDisabled]; }
    if |recipients| > policy.maxRecipients { reasons := reasons + [TooManyRecipients]; }
    if SomeDenied(recipients, policy) { reasons := reasons + [DomainDenied]; }
    if SomeNotAllowed(recipients, policy) { reasons := reasons + [DomainNotAllowed]; }
    if externals > 0 && policy.external == Block { reasons := reasons + [ExternalBlocked]; }
    if externals > 0 && policy.external == Warn { warning := true; }
    if usage.lastHour >= policy.maxPerHour { reasons := reasons + [HourlyLimit]; }
    if usage.lastDay >= policy.maxPerDay { reasons := reasons + [DailyLimit]; }
    return Ok(Validation(draft, draftVersion, payload.mailbox, view.version, |reasons| > 0, reasons, warning,
                         |recipients|, externals, Minus(policy.maxPerHour, usage.lastHour),
                         Minus(policy.maxPerDay, usage.lastDay)));
  }
}
