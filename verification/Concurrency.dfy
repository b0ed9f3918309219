/** The first-come-first-served semaphore, and the two levels of it that bound the mailbox work. */
module Concurrency {
  import opened MailTypes

  type TaskId = nat

  /** `available` and `queue` are the code's fields; `arrived` and `granted` record the history they stand for. */
  datatype Sem = Sem(limit: nat, available: nat, queue: seq<TaskId>, arrived: seq<TaskId>, granted: seq<TaskId>)

  function NewSem(limit: nat): Sem {
    Sem(limit, limit, [], [], [])
  }

  function AcquireSem(s: Sem, w: TaskId): (Sem, bool) {
    if s.available > 0
    then (s.(available := s.available - 1, arrived := s.arrived + [w], granted := s.granted + [w]), true)
    else (s.(queue := s.queue + [w], arrived := s.arrived + [w]), false)
  }

  function ReleaseSem(s: Sem): (Sem, Option<TaskId>) {
    if s.queue != [] then (s.(queue := s.queue[1..], granted := s.granted + [s.queue[0]]), Some(s.queue[0]))
    else (s.(available := s.available + 1), None)
  }

  /** Nobody waits while a permit is free, and permits are granted in arrival order without exception:
      those granted, followed by those waiting, are exactly those that arrived, in order. */
  predicate Fair(s: Sem) {
    (s.queue != [] ==> s.available == 0) && s.arrived == s.granted + s.queue && s.available <= s.limit
  }

  lemma SemStaysFair(s: Sem, w: TaskId)
    requires Fair(s)
    ensures Fair(AcquireSem(s, w).0)
    ensures s.available < s.limit || s.queue != [] ==> Fair(ReleaseSem(s).0)
  {
    assert s.queue != [] ==> s.queue == [s.queue[0]] + s.queue[1..];
    assert s.queue == [] ==> s.granted + s.queue == s.granted;
    var a := AcquireSem(s, w).0;
    assert s.available > 0 ==> a.granted + a.queue == s.granted + [w];
    assert s.available == 0 ==> a.granted + a.queue == s.granted + s.queue + [w];
  }

  class Semaphore {
    const limit: nat
    var available: nat
    var queue: seq<TaskId>
    ghost var arrived: seq<TaskId>
    ghost var granted: seq<TaskId>

    ghost function Model(): Sem
      reads this
    {
      Sem(limit, available, queue, arrived, granted)
    }

    constructor (limit: nat)
      requires limit >= 1
      ensures Model() == NewSem(limit)
    {
      this.limit, available, queue, arrived, granted := limit, limit, [], [], [];
    }

    /** True when the permit is granted at once; otherwise the caller waits in the queue. */
    method Acquire(w: TaskId) returns (now: bool)
      modifies this
      ensures (Model(), now) == AcquireSem(old(Model()), w)
    {
      arrived := arrived + [w];
      if available > 0 {
        available := available - 1;
        granted := granted + [w];
        return true;
      }
      queue := queue + [w];
      return false;
    }

    /** Hands the permit to the longest-waiting caller, or puts it back. */
    method Release() returns (woken: Option<TaskId>)
      modifies this
      ensures (Model(), woken) == ReleaseSem(old(Model()))
    {
      if queue != [] {
        woken := Some(queue[0]);
        granted := granted + [queue[0]];
        queue := queue[1..];
      } else {
        woken := None;
        available := available + 1;
      }
    }
  }

  /** The original's constructor throws unless the limit is positive. */
  method NewSemaphore(limit: int) returns (r: Option<Semaphore>)
    ensures r.Some? <==> limit >= 1
    ensures r.Some? ==> fresh(r.value) && r.value.Model() == NewSem(limit)
  {
    if limit < 1 { return None; }
    var semaphore := new Semaphore(limit);
    return Some(semaphore);
  }

  // ----- tasks over the two levels -----

  const FANOUT_LIMIT := 4
  const MAILBOX_LIMIT := 2

  datatype Pc = WaitOuter | OuterHeld | WaitInner | Working | Releasing | Done

  /** A nested task takes the fan-out permit first and its mailbox's permit inside it; the others take only the
      mailbox's permit. */
  datatype Task = Task(mailbox: MailboxId, nested: bool, pc: Pc)

  datatype Gate = Outer | Inner(mailbox: MailboxId)

  predicate Holds(t: Task, g: Gate) {
    match g
    case Outer => t.nested && (t.pc == OuterHeld || t.pc == WaitInner || t.pc == Working || t.pc == Releasing)
    case Inner(m) => t.mailbox == m && t.pc == Working
  }

  predicate Waits(t: Task, g: Gate) {
    match g
    case Outer => t.nested && t.pc == WaitOuter
    case Inner(m) => t.mailbox == m && t.pc == WaitInner
  }

  function Holders(tasks: seq<Task>, g: Gate): nat {
    if tasks == [] then 0 else Holders(tasks[..|tasks| - 1], g) + if Holds(tasks[|tasks| - 1], g) then 1 else 0
  }

  datatype State = State(outer: Sem, inner: map<MailboxId, Sem>, tasks: seq<Task>)

  function Start(mailboxes: set<MailboxId>): State {
    State(NewSem(FANOUT_LIMIT), map m | m in mailboxes :: NewSem(MAILBOX_LIMIT), [])
  }

  predicate HasGate(s: State, g: Gate) {
    g.Inner? ==> g.mailbox in s.inner
  }

  function GateOf(s: State, g: Gate): Sem
    requires HasGate(s, g)
  {
    match g case Outer => s.outer case Inner(m) => s.inner[m]
  }

  function WithGate(s: State, g: Gate, sem: Sem): State
    requires HasGate(s, g)
  {
    match g case Outer => s.(outer := sem) case Inner(m) => s.(inner := s.inner[m := sem])
  }

  function HeldPc(g: Gate): Pc {
    match g case Outer => OuterHeld case Inner(_) => Working
  }

  function WaitPc(g: Gate): Pc {
    match g case Outer => WaitOuter case Inner(_) => WaitInner
  }

  function WithPc(tasks: seq<Task>, i: TaskId, pc: Pc): seq<Task>
    requires i < |tasks|
  {
    tasks[i := tasks[i].(pc := pc)]
  }

  function AcquireGate(s: State, i: TaskId, g: Gate): State
    requires i < |s.tasks| && HasGate(s, g)
  {
    var (sem, granted) := AcquireSem(GateOf(s, g), i);
    WithGate(s, g, sem).(tasks := WithPc(s.tasks, i, if granted then HeldPc(g) else WaitPc(g)))
  }

  function ReleaseGate(s: State, i: TaskId, g: Gate, next: Pc): State
    requires i < |s.tasks| && HasGate(s, g)
  {
    var (sem, woken) := ReleaseSem(GateOf(s, g));
    var tasks := WithPc(s.tasks, i, next);
    WithGate(s, g, sem).(tasks := if woken.Some? && woken.value < |tasks|
                                  then WithPc(tasks, woken.value, HeldPc(g)) else tasks)
  }

  /** A new task enters and asks for its first permit. A step that is not enabled changes nothing. */
  datatype Step =
    | Arrive(mailbox: MailboxId, nested: bool)
    | Advance(i: TaskId)      // take the inner permit, or finish the work, or give the outer permit back
    | FailEarly(i: TaskId)    // throw after the outer permit and before the inner one

  function FirstGate(t: Task): Gate {
    if t.nested then Outer else Inner(t.mailbox)
  }

  predicate Enabled(s: State, i: TaskId) {
    i < |s.tasks| && (s.tasks[i].pc == OuterHeld || s.tasks[i].pc == Working || s.tasks[i].pc == Releasing)
  }

  function Do(s: State, step: Step): State {
    match step
    case Arrive(m, nested) =>
      if m !in s.inner then s
      else
        var t := Task(m, nested, Done);
        AcquireGate(s.(tasks := s.tasks + [t]), |s.tasks|, FirstGate(t))
    case Advance(i) =>
      if !Enabled(s, i) || s.tasks[i].mailbox !in s.inner then s
      else
        var t := s.tasks[i];
        if t.pc == OuterHeld then AcquireGate(s, i, Inner(t.mailbox))
        else if t.pc == Working then ReleaseGate(s, i, Inner(t.mailbox), if t.nested then Releasing else Done)
        else ReleaseGate(s, i, Outer, Done)
    case FailEarly(i) =>
      if i < |s.tasks| && s.tasks[i].pc == OuterHeld then ReleaseGate(s, i, Outer, Done) else s
  }

  function Run(s: State, steps: seq<Step>): State {
    if steps == [] then s else Do(Run(s, steps[..|steps| - 1]), steps[|steps| - 1])
  }

  // ----- the invariant -----

  predicate QueueOk(tasks: seq<Task>, queue: seq<TaskId>, g: Gate) {
    && (forall i, j | 0 <= i < j < |queue| :: queue[i] != queue[j])
    && (forall w <- queue :: w < |tasks| && Waits(tasks[w], g))
    && (forall i | 0 <= i < |tasks| && Waits(tasks[i], g) :: i in queue)
  }

  /** Permits are conserved, the queue holds exactly the waiting tasks, and grants are fair. */
  predicate GateOk(tasks: seq<Task>, sem: Sem, g: Gate) {
    Fair(sem) && sem.limit >= 1 && sem.available + Holders(tasks, g) == sem.limit && QueueOk(tasks, sem.queue, g)
  }

  predicate TaskOk(s: State, t: Task) {
    && t.mailbox in s.inner
    && (!t.nested ==> t.pc == WaitInner || t.pc == Working || t.pc == Done)
  }

  ghost predicate Inv(s: State) {
    && (forall t <- s.tasks :: TaskOk(s, t))
    && (forall g: Gate | HasGate(s, g) :: GateOk(s.tasks, GateOf(s, g), g))
  }

  lemma {:induction false} HoldersUpdate(tasks: seq<Task>, i: TaskId, t: Task, g: Gate)
    requires i < |tasks|
    ensures Holders(tasks[i := t], g)
         == Holders(tasks, g) - (if Holds(tasks[i], g) then 1 else 0) + (if Holds(t, g) then 1 else 0)
  {
    var last := |tasks| - 1;
    if i == last {
      assert tasks[i := t][..last] == tasks[..last];
    } else {
      HoldersUpdate(tasks[..last], i, t, g);
      assert tasks[i := t][..last] == tasks[..last][i := t];
    }
  }

  lemma {:induction false} SomeHolder(tasks: seq<Task>, g: Gate) returns (i: TaskId)
    requires Holders(tasks, g) > 0
    ensures i < |tasks| && Holds(tasks[i], g)
  {
    var last := |tasks| - 1;
    if Holds(tasks[last], g) {
      i := last;
    } else {
      i := SomeHolder(tasks[..last], g);
    }
  }

  /** A change of one task that neither takes nor frees this gate, nor joins or leaves its queue. */
  predicate Neutral(t: Task, pc: Pc, g: Gate) {
    Holds(t.(pc := pc), g) == Holds(t, g) && Waits(t.(pc := pc), g) == Waits(t, g)
  }

  lemma NeutralKeeps(tasks: seq<Task>, sem: Sem, g: Gate, i: TaskId, pc: Pc)
    requires GateOk(tasks, sem, g) && i < |tasks| && Neutral(tasks[i], pc, g)
    ensures GateOk(WithPc(tasks, i, pc), sem, g)
  {
    HoldersUpdate(tasks, i, tasks[i].(pc := pc), g);
  }

  lemma AppendKeeps(tasks: seq<Task>, sem: Sem, g: Gate, t: Task)
    requires GateOk(tasks, sem, g) && t.pc == Done
    ensures GateOk(tasks + [t], sem, g)
  {
    assert (tasks + [t])[..|tasks|] == tasks;
  }

  /** This kind of work may use this gate at all. */
  predicate Uses(t: Task, g: Gate) {
    match g case Outer => t.nested case Inner(m) => t.mailbox == m
  }

  lemma AcquireKeeps(tasks: seq<Task>, sem: Sem, g: Gate, i: TaskId)
    requires GateOk(tasks, sem, g) && i < |tasks| && Uses(tasks[i], g) && !Holds(tasks[i], g) && !Waits(tasks[i], g)
    ensures var (sem', granted) := AcquireSem(sem, i);
            GateOk(WithPc(tasks, i, if granted then HeldPc(g) else WaitPc(g)), sem', g)
  {
    var (sem', granted) := AcquireSem(sem, i);
    var pc := if granted then HeldPc(g) else WaitPc(g);
    SemStaysFair(sem, i);
    HoldersUpdate(tasks, i, tasks[i].(pc := pc), g);
    var tasks' := WithPc(tasks, i, pc);
    forall j | 0 <= j < |tasks'| && Waits(tasks'[j], g) ensures j in sem'.queue {
      assert j != i ==> tasks'[j] == tasks[j] && j in sem.queue;
    }
  }

  lemma ReleaseKeeps(tasks: seq<Task>, sem: Sem, g: Gate, i: TaskId, next: Pc)
    requires GateOk(tasks, sem, g) && i < |tasks| && Holds(tasks[i], g)
    requires !Holds(tasks[i].(pc := next), g) && !Waits(tasks[i].(pc := next), g)
    ensures var (sem', woken) := ReleaseSem(sem);
            var freed := WithPc(tasks, i, next);
            && (woken.Some? ==> woken.value < |tasks| && woken.value != i && Waits(tasks[woken.value], g))
            && GateOk(if woken.Some? then WithPc(freed, woken.value, HeldPc(g)) else freed, sem', g)
  {
    var (sem', woken) := ReleaseSem(sem);
    var freed := WithPc(tasks, i, next);
    SemStaysFair(sem, i);
    HoldersUpdate(tasks, i, tasks[i].(pc := next), g);
    if woken.Some? {
      var w := woken.value;
      assert w in sem.queue && w != i && freed[w] == tasks[w];
      HoldersUpdate(freed, w, freed[w].(pc := HeldPc(g)), g);
      var tasks' := WithPc(freed, w, HeldPc(g));
      forall j | 0 <= j < |tasks'| && Waits(tasks'[j], g) ensures j in sem'.queue {
        assert j in sem.queue && j != w;
      }
      forall v <- sem'.queue ensures v < |tasks'| && Waits(tasks'[v], g) {
        assert v in sem.queue;
        var n :| 0 <= n < |sem'.queue| && sem'.queue[n] == v;
        assert sem.queue[n + 1] == v;
      }
    } else {
      assert Holders(tasks, g) > 0;
    }
  }

  lemma AcquireGateKeeps(s: State, i: TaskId, g: Gate)
    requires Inv(s) && i < |s.tasks| && HasGate(s, g)
    requires Uses(s.tasks[i], g) && !Holds(s.tasks[i], g) && !Waits(s.tasks[i], g)
    requires s.tasks[i].pc == Done || (s.tasks[i].pc == OuterHeld && s.tasks[i].nested && g.Inner?)
    requires g == FirstGate(s.tasks[i]) || s.tasks[i].pc == OuterHeld
    ensures Inv(AcquireGate(s, i, g))
  {
    var s' := AcquireGate(s, i, g);
    forall h: Gate | HasGate(s', h) ensures GateOk(s'.tasks, GateOf(s', h), h) {
      assert HasGate(s, h) && GateOk(s.tasks, GateOf(s, h), h);
      if h == g {
        AcquireKeeps(s.tasks, GateOf(s, g), g, i);
      } else {
        NeutralKeeps(s.tasks, GateOf(s, h), h, i, s'.tasks[i].pc);
      }
    }
    forall t <- s'.tasks ensures TaskOk(s', t) {
      assert t in s.tasks || t == s'.tasks[i];
      assert TaskOk(s, s.tasks[i]);
    }
  }

  /** Who is woken was waiting for this gate. */
  lemma ReleaseWakes(tasks: seq<Task>, sem: Sem, g: Gate)
    requires GateOk(tasks, sem, g)
    ensures var woken := ReleaseSem(sem).1;
            woken.Some? ==> woken.value < |tasks| && Waits(tasks[woken.value], g)
  {
    assert sem.queue != [] ==> sem.queue[0] in sem.queue;
  }

  lemma ReleaseGateKeeps(s: State, i: TaskId, g: Gate, next: Pc)
    requires Inv(s) && i < |s.tasks| && HasGate(s, g) && Holds(s.tasks[i], g)
    requires next == Done || (next == Releasing && s.tasks[i].nested)
    requires g == Outer ==> next == Done && s.tasks[i].pc != Working && s.tasks[i].pc != WaitInner
    requires g.Inner? ==> (next == Releasing <==> s.tasks[i].nested)
    ensures Inv(ReleaseGate(s, i, g, next))
  {
    ReleaseGateKeepsGates(s, i, g, next);
    ReleaseGateKeepsTasks(s, i, g, next);
  }

  lemma ReleaseGateKeepsGates(s: State, i: TaskId, g: Gate, next: Pc)
    requires Inv(s) && i < |s.tasks| && HasGate(s, g) && Holds(s.tasks[i], g)
    requires next == Done || (next == Releasing && s.tasks[i].nested)
    requires g == Outer ==> next == Done && s.tasks[i].pc != Working && s.tasks[i].pc != WaitInner
    requires g.Inner? ==> (next == Releasing <==> s.tasks[i].nested)
    ensures var s' := ReleaseGate(s, i, g, next);
            forall h: Gate | HasGate(s', h) :: GateOk(s'.tasks, GateOf(s', h), h)
  {
    var s' := ReleaseGate(s, i, g, next);
    var (sem, woken) := ReleaseSem(GateOf(s, g));
    var freed := WithPc(s.tasks, i, next);
    assert GateOk(s.tasks, GateOf(s, g), g);
    ReleaseKeeps(s.tasks, GateOf(s, g), g, i, next);
    forall h: Gate | HasGate(s', h) ensures GateOk(s'.tasks, GateOf(s', h), h) {
      assert HasGate(s, h) && GateOk(s.tasks, GateOf(s, h), h);
      if h != g {
        NeutralKeeps(s.tasks, GateOf(s, h), h, i, next);
        if woken.Some? {
          NeutralKeeps(freed, GateOf(s, h), h, woken.value, HeldPc(g));
        }
      }
    }
  }

  lemma ReleaseGateKeepsTasks(s: State, i: TaskId, g: Gate, next: Pc)
    requires Inv(s) && i < |s.tasks| && HasGate(s, g) && Holds(s.tasks[i], g)
    requires next == Done || (next == Releasing && s.tasks[i].nested)
    ensures var s' := ReleaseGate(s, i, g, next); forall t <- s'.tasks :: TaskOk(s', t)
  {
    var s' := ReleaseGate(s, i, g, next);
    var (sem, woken) := ReleaseSem(GateOf(s, g));
    var freed := WithPc(s.tasks, i, next);
    assert GateOk(s.tasks, GateOf(s, g), g);
    ReleaseWakes(s.tasks, GateOf(s, g), g);
    forall t <- s'.tasks ensures TaskOk(s', t) {
      assert TaskOk(s, s.tasks[i]);
      if woken.Some? {
        assert TaskOk(s, s.tasks[woken.value]);
      }
      assert t in s.tasks || t == freed[i] || (woken.Some? && t == s'.tasks[woken.value]);
    }
  }

  lemma StepKeeps(s: State, step: Step)
    requires Inv(s)
    ensures Inv(Do(s, step))
  {
    match step
    case Arrive(m, nested) =>
      if m in s.inner {
        var t := Task(m, nested, Done);
        var s1 := s.(tasks := s.tasks + [t]);
        forall h: Gate | HasGate(s1, h) ensures GateOk(s1.tasks, GateOf(s1, h), h) {
          assert HasGate(s, h) && GateOk(s.tasks, GateOf(s, h), h);
          AppendKeeps(s.tasks, GateOf(s, h), h, t);
        }
        assert forall x <- s1.tasks :: x in s.tasks || x == t;
        AcquireGateKeeps(s1, |s.tasks|, FirstGate(t));
      }
    case Advance(i) =>
      if Enabled(s, i) {
        var t := s.tasks[i];
        assert TaskOk(s, t);
        if t.pc == OuterHeld {
          AcquireGateKeeps(s, i, Inner(t.mailbox));
        } else if t.pc == Working {
          ReleaseGateKeeps(s, i, Inner(t.mailbox), if t.nested then Releasing else Done);
        } else {
          ReleaseGateKeeps(s, i, Outer, Done);
        }
      }
    case FailEarly(i) =>
      if i < |s.tasks| && s.tasks[i].pc == OuterHeld {
        assert TaskOk(s, s.tasks[i]);
        ReleaseGateKeeps(s, i, Outer, Done);
      }
  }

  /** In every run of any mix of tasks, whatever fails: on both levels the permits held and available add up to the
      limit, nobody queues while a permit is free, the queue is exactly the waiting tasks, and permits were granted
      in arrival order. */
  lemma {:induction false} InvAlways(mailboxes: set<MailboxId>, steps: seq<Step>)
    ensures Inv(Run(Start(mailboxes), steps))
  {
    if steps != [] {
      InvAlways(mailboxes, steps[..|steps| - 1]);
      StepKeeps(Run(Start(mailboxes), steps[..|steps| - 1]), steps[|steps| - 1]);
    } else {
      var s := Start(mailboxes);
      forall g: Gate | HasGate(s, g) ensures GateOk(s.tasks, GateOf(s, g), g) {
      }
    }
  }

  /** No deadlock: while a task is unfinished, some task can take its next step. */
  lemma NoDeadlock(s: State, i: TaskId) returns (j: TaskId)
    requires Inv(s) && i < |s.tasks| && s.tasks[i].pc != Done
    ensures Enabled(s, j)
  {
    j := i;
    assert TaskOk(s, s.tasks[i]);
    if s.tasks[j].pc == WaitOuter {
      assert GateOk(s.tasks, GateOf(s, Outer), Outer) && Waits(s.tasks[j], Outer);
      j := SomeHolder(s.tasks, Outer);
    }
    if s.tasks[j].pc == WaitInner {
      var g := Inner(s.tasks[j].mailbox);
      assert TaskOk(s, s.tasks[j]);
      assert GateOk(s.tasks, GateOf(s, g), g) && Waits(s.tasks[j], g);
      j := SomeHolder(s.tasks, g);
    }
  }

  // ----- every task gets done -----

  function StepsLeft(pc: Pc): nat {
    match pc
    case WaitOuter => 5
    case OuterHeld => 4
    case WaitInner => 3
    case Working => 2
    case Releasing => 1
    case Done => 0
  }

  function TotalLeft(tasks: seq<Task>): nat {
    if tasks == [] then 0 else TotalLeft(tasks[..|tasks| - 1]) + StepsLeft(tasks[|tasks| - 1].pc)
  }

  lemma {:induction false} TotalUpdate(tasks: seq<Task>, i: TaskId, t: Task)
    requires i < |tasks|
    ensures TotalLeft(tasks[i := t]) == TotalLeft(tasks) - StepsLeft(tasks[i].pc) + StepsLeft(t.pc)
  {
    var last := |tasks| - 1;
    if i == last {
      assert tasks[i := t][..last] == tasks[..last];
    } else {
      TotalUpdate(tasks[..last], i, t);
      assert tasks[i := t][..last] == tasks[..last][i := t];
    }
  }

  /** Giving a permit back shortens the work, also for whoever it wakes. */
  lemma ReleaseShortens(tasks: seq<Task>, sem: Sem, g: Gate, i: TaskId, next: Pc)
    requires GateOk(tasks, sem, g) && i < |tasks| && Holds(tasks[i], g)
    requires !Holds(tasks[i].(pc := next), g) && !Waits(tasks[i].(pc := next), g)
    requires StepsLeft(next) < StepsLeft(tasks[i].pc)
    ensures var woken, freed := ReleaseSem(sem).1, WithPc(tasks, i, next);
            && TotalLeft(freed) < TotalLeft(tasks)
            && (woken.Some? ==>
                  && woken.value < |freed|
                  && TotalLeft(WithPc(freed, woken.value, HeldPc(g))) < TotalLeft(freed))
  {
    var woken, freed := ReleaseSem(sem).1, WithPc(tasks, i, next);
    TotalUpdate(tasks, i, tasks[i].(pc := next));
    if woken.Some? {
      assert woken.value in sem.queue && Waits(tasks[woken.value], g);
      assert woken.value != i && freed[woken.value] == tasks[woken.value];
      TotalUpdate(freed, woken.value, freed[woken.value].(pc := HeldPc(g)));
    }
  }

  predicate Possible(s: State, step: Step) {
    (step.Advance? && Enabled(s, step.i))
    || (step.FailEarly? && step.i < |s.tasks| && s.tasks[step.i].pc == OuterHeld)
  }

  lemma ReleaseGateShortens(s: State, i: TaskId, g: Gate, next: Pc)
    requires i < |s.tasks| && HasGate(s, g) && GateOk(s.tasks, GateOf(s, g), g) && Holds(s.tasks[i], g)
    requires !Holds(s.tasks[i].(pc := next), g) && !Waits(s.tasks[i].(pc := next), g)
    requires StepsLeft(next) < StepsLeft(s.tasks[i].pc)
    ensures TotalLeft(ReleaseGate(s, i, g, next).tasks) < TotalLeft(s.tasks)
  {
    ReleaseShortens(s.tasks, GateOf(s, g), g, i, next);
  }

  lemma StepShortens(s: State, step: Step)
    requires Inv(s) && Possible(s, step)
    ensures TotalLeft(Do(s, step).tasks) < TotalLeft(s.tasks)
  {
    var t := s.tasks[step.i];
    assert TaskOk(s, t);
    if t.pc == OuterHeld && step.Advance? {
      TotalUpdate(s.tasks, step.i, t.(pc := Working));
      TotalUpdate(s.tasks, step.i, t.(pc := WaitInner));
    } else {
      var g := if t.pc == Working then Inner(t.mailbox) else Outer;
      assert GateOk(s.tasks, GateOf(s, g), g);
      ReleaseGateShortens(s, step.i, g, if t.pc == Working && t.nested then Releasing else Done);
    }
  }

  predicate Schedule(s: State, steps: seq<Step>)
    decreases |steps|
  {
    steps == [] || (Possible(s, steps[0]) && Schedule(Do(s, steps[0]), steps[1..]))
  }

  function Follow(s: State, steps: seq<Step>): State
    decreases |steps|
  {
    if steps == [] then s else Follow(Do(s, steps[0]), steps[1..])
  }

  /** With no further arrivals every schedule is finite, whichever tasks it favours and whichever operations fail;
      and one that cannot go on has finished every task and given back every permit. */
  lemma {:induction false} EveryScheduleFinishes(s: State, steps: seq<Step>)
    requires Inv(s) && Schedule(s, steps)
    ensures |steps| <= TotalLeft(s.tasks)
    ensures var end := Follow(s, steps);
            Inv(end) && ((forall j: TaskId :: !Enabled(end, j)) ==>
              (forall t <- end.tasks :: t.pc == Done)
              && forall g: Gate | HasGate(end, g) :: GateOf(end, g).available == GateOf(end, g).limit)
    decreases |steps|
  {
    if steps == [] {
      if forall j: TaskId :: !Enabled(s, j) {
        AllDone(s);
      }
    } else {
      StepKeeps(s, steps[0]);
      StepShortens(s, steps[0]);
      EveryScheduleFinishes(Do(s, steps[0]), steps[1..]);
    }
  }

  lemma {:induction false} NobodyHolds(tasks: seq<Task>, g: Gate)
    requires forall t <- tasks :: t.pc == Done
    ensures Holders(tasks, g) == 0
  {
    if tasks != [] {
      NobodyHolds(tasks[..|tasks| - 1], g);
    }
  }

  lemma AllDone(s: State)
    requires Inv(s) && forall j: TaskId :: !Enabled(s, j)
    ensures forall t <- s.tasks :: t.pc == Done
    ensures forall g: Gate | HasGate(s, g) :: GateOf(s, g).available == GateOf(s, g).limit
  {
    forall i | 0 <= i < |s.tasks| ensures s.tasks[i].pc == Done {
      if s.tasks[i].pc != Done {
        var j := NoDeadlock(s, i);
      }
    }
    forall g: Gate | HasGate(s, g) ensures GateOf(s, g).available == GateOf(s, g).limit {
      assert GateOk(s.tasks, GateOf(s, g), g);
      NobodyHolds(s.tasks, g);
    }
  }

  // ----- in plain numbers -----

  predicate Sized(s: State) {
    s.outer.limit == 4 && forall m <- s.inner :: s.inner[m].limit == 2
  }

  lemma StepKeepsSizes(s: State, step: Step)
    requires Sized(s)
    ensures Sized(Do(s, step))
  {
  }

  /** Over every run at most four nested tasks are past the fan-out gate, and at most two tasks work on one mailbox. */
  lemma {:induction false} AtMostFourAndTwo(mailboxes: set<MailboxId>, steps: seq<Step>)
    ensures Sized(Run(Start(mailboxes), steps))
    ensures var tasks := Run(Start(mailboxes), steps).tasks;
            Holders(tasks, Outer) <= 4 && forall m <- mailboxes :: Holders(tasks, Inner(m)) <= 2
    ensures Run(Start(mailboxes), steps).inner.Keys == mailboxes
  {
    var s := Run(Start(mailboxes), steps);
    if steps != [] {
      AtMostFourAndTwo(mailboxes, steps[..|steps| - 1]);
      StepKeepsSizes(Run(Start(mailboxes), steps[..|steps| - 1]), steps[|steps| - 1]);
    }
    InvAlways(mailboxes, steps);
    assert HasGate(s, Outer) && GateOk(s.tasks, GateOf(s, Outer), Outer);
    forall m <- mailboxes ensures Holders(s.tasks, Inner(m)) <= 2 {
      assert HasGate(s, Inner(m)) && GateOk(s.tasks, GateOf(s, Inner(m)), Inner(m));
    }
  }
}
