/** Semaphores and locks (thread/sync.c) as a step machine.  A step is what runs between two points
    where interrupts are on, or between a block and the next; any other thread may run between
    steps. */
module Locks {
  import opened Scheduler

  const NOBODY := -1

  /** struct lock with its semaphore, and three history variables: who has taken the semaphore,
      the nested acquires of the owner less its releases, and who was woken last. */
  datatype Lock = Lock(value: int, waiters: seq<nat>, holder: int, repeat: int, owner: int, depth: int, woken: int)

  const NEW_LOCK := Lock(1, [], NOBODY, 0, NOBODY, 0, NOBODY)

  /** Where a thread is inside lock_acquire or lock_release of lock l. */
  datatype Pc =
    | Outside
    | AtDown(l: nat)       // about to call sema_down
    | InDown(l: nat)       // inside sema_down, on the waiters list or woken, interrupts off
    | GotIt(l: nat)        // semaphore taken, holder not yet set (sync.c:60)
    | Counting(l: nat)     // holder set, count not yet (sync.c:62)
    | Clearing(l: nat)     // about to clear the holder (sync.c:78)
    | Zeroing(l: nat)      // holder cleared, count not yet (sync.c:79)
    | AtUp(l: nat)         // about to call sema_up

  datatype State = State(sched: Sched, locks: map<nat, Lock>, pc: map<nat, Pc>)

  predicate Awake(s: Status) {
    s == Running || s == Ready
  }

  /** Inside the part of the code that only the thread which took the semaphore reaches. */
  predicate Inner(p: Pc, l: nat) {
    p == GotIt(l) || p == Counting(l) || p == Clearing(l) || p == Zeroing(l) || p == AtUp(l)
  }

  /** What holder and count are, by where the owner is. */
  predicate Stage(p: Pc, l: nat, lk: Lock) {
    if p == GotIt(l) then lk.holder == NOBODY && lk.repeat == 0 && lk.depth == 0
    else if p == Counting(l) then lk.holder == lk.owner && lk.repeat == 0 && lk.depth == 0
    else if p == Clearing(l) then lk.holder == lk.owner && lk.repeat == 1 && lk.depth == 0
    else if p == Zeroing(l) then lk.holder == NOBODY && lk.repeat == 1 && lk.depth == 0
    else if p == AtUp(l) then lk.holder == NOBODY && lk.repeat == 0 && lk.depth == 0
    else p != AtDown(l) && p != InDown(l) && lk.holder == lk.owner && lk.repeat == lk.depth && lk.depth >= 1
  }

  ghost predicate Owned(lk: Lock, l: nat, pc: map<nat, Pc>) {
    && (if lk.owner == NOBODY then lk.value == 1 && lk.holder == NOBODY && lk.repeat == 0 && lk.depth == 0
        else lk.value == 0 && lk.owner in pc && Stage(pc[lk.owner], l, lk))
    && forall t :: t in pc && Inner(pc[t], l) ==> lk.owner == t
  }

  ghost predicate Queued(lk: Lock, l: nat, pc: map<nat, Pc>, status: map<nat, Status>) {
    && NoDup(lk.waiters)
    && (forall t :: t in lk.waiters ==> t in pc && pc[t] == InDown(l) && t in status && status[t] == Blocked)
    && (forall t :: t in pc && pc[t] == InDown(l) && t !in lk.waiters ==> t in status && Awake(status[t]))
    && (lk.value == 1 && lk.waiters != [] ==> lk.woken in pc && pc[lk.woken] == InDown(l) && lk.woken !in lk.waiters)
  }

  ghost predicate LockOk(k: State, l: nat)
    requires l in k.locks
  {
    Owned(k.locks[l], l, k.pc) && Queued(k.locks[l], l, k.pc, k.sched.status)
  }

  ghost predicate Inv(k: State) {
    && Ok(k.sched) && k.pc.Keys == k.sched.status.Keys && k.pc[k.sched.idle] == Outside
    && forall l :: l in k.locks ==> LockOk(k, l)
  }

  // ---------- steps ----------

  datatype Act =
    | Env(e: Event)        // the scheduler, outside the lock code
    | Acquire(l: nat)      // the test of lock_acquire
    | Down(l: nat)         // sema_down, from its start or after a wake-up
    | SetHolder(l: nat)
    | SetCount(l: nat)
    | Release(l: nat)      // the tests of lock_release
    | ClearHolder(l: nat)
    | ZeroCount(l: nat)
    | Up(l: nat)           // sema_up

  ghost predicate OwnsNothing(k: State, t: nat) {
    forall l :: l in k.locks ==> k.locks[l].owner != t
  }

  predicate PcIs(k: State, t: nat, p: Pc) {
    t in k.pc && k.pc[t] == p
  }

  ghost predicate EnvCan(k: State, e: Event) {
    && Enabled(k.sched, e)
    && match e
       case Preempt => k.sched.running in k.pc && !k.pc[k.sched.running].InDown?
       case Yield => PcIs(k, k.sched.running, Outside)
       case Block(to) => PcIs(k, k.sched.running, Outside)
       case Wake(t) => PcIs(k, t, Outside)
       case Start(t) => true
       case Leave => PcIs(k, k.sched.running, Outside) && OwnsNothing(k, k.sched.running)
       case Remove(t) => PcIs(k, t, Outside) && OwnsNothing(k, t)
  }

  /** Where thread t must be for the step to be its next; a lock is released by its owner only. */
  predicate AtPc(p: Pc, a: Act, lk: Lock, t: nat) {
    match a
    case Acquire(l) => p == Outside
    case Down(l) => p == AtDown(l) || p == InDown(l)
    case SetHolder(l) => p == GotIt(l)
    case SetCount(l) => p == Counting(l)
    case Release(l) => p == Outside && lk.owner == t
    case ClearHolder(l) => p == Clearing(l)
    case ZeroCount(l) => p == Zeroing(l)
    case Up(l) => p == AtUp(l)
    case Env(_) => false
  }

  ghost predicate LockCan(k: State, a: Act)
    requires !a.Env?
  {
    var t := k.sched.running;
    a.l in k.locks && t in k.pc && t != k.sched.idle && AtPc(k.pc[t], a, k.locks[a.l], t)
  }

  ghost predicate Can(k: State, a: Act) {
    if a.Env? then EnvCan(k, a.e) else LockCan(k, a)
  }

  ghost function EnvDo(k: State, e: Event): (k': State) {
    State(Step(k.sched, e), k.locks,
          match e
          case Start(t) => k.pc[t := Outside]
          case Leave => k.pc - {k.sched.running}
          case Remove(t) => k.pc - {t}
          case _ => k.pc)
  }

  /** The lock after the step of thread t. */
  function NewLock(lk: Lock, a: Act, t: nat): (lk': Lock) {
    match a
    case Acquire(_) => if lk.holder == t then lk.(repeat := lk.repeat + 1, depth := lk.depth + 1) else lk
    case Down(_) => if lk.value == 0 then lk.(waiters := lk.waiters + [t]) else lk.(value := lk.value - 1, owner := t)
    case SetHolder(_) => lk.(holder := t)
    case SetCount(_) => lk.(repeat := 1, depth := 1)
    case Release(_) => if lk.repeat > 1 then lk.(repeat := lk.repeat - 1, depth := lk.depth - 1) else lk.(depth := 0)
    case ClearHolder(_) => lk.(holder := NOBODY)
    case ZeroCount(_) => lk.(repeat := 0)
    case Up(_) =>
      if lk.waiters == [] then lk.(value := lk.value + 1, owner := NOBODY)
      else lk.(value := lk.value + 1, owner := NOBODY, waiters := lk.waiters[1..], woken := lk.waiters[0])
    case Env(_) => lk
  }

  /** Where thread t is after the step. */
  function NewPc(lk: Lock, a: Act, t: nat): (p: Pc) {
    match a
    case Acquire(l) => if lk.holder == t then Outside else AtDown(l)
    case Down(l) => if lk.value == 0 then InDown(l) else GotIt(l)
    case SetHolder(l) => Counting(l)
    case SetCount(l) => Outside
    case Release(l) => if lk.repeat > 1 then Outside else Clearing(l)
    case ClearHolder(l) => Zeroing(l)
    case ZeroCount(l) => AtUp(l)
    case Up(l) => Outside
    case Env(_) => Outside
  }

  /** What the step does to the scheduler: a waiter blocks, a release wakes the first waiter. */
  function NewSched(s: Sched, lk: Lock, a: Act): (s': Sched) {
    if a.Down? && lk.value == 0 then Step(s, Block(Blocked))
    else if a.Up? && lk.waiters != [] then Step(s, Wake(lk.waiters[0]))
    else s
  }

  ghost function LockDo(k: State, a: Act): (k': State)
    requires !a.Env? && a.l in k.locks
  {
    var l, t, lk := a.l, k.sched.running, k.locks[a.l];
    State(NewSched(k.sched, lk, a), k.locks[l := NewLock(lk, a, t)], k.pc[t := NewPc(lk, a, t)])
  }

  ghost function Do(k: State, a: Act): (k': State)
    requires a.Env? || a.l in k.locks
  {
    if a.Env? then EnvDo(k, a.e) else LockDo(k, a)
  }

  // ---------- what a scheduler event does to a thread it is not about ----------

  predicate About(s: Sched, e: Event, t: nat) {
    t == s.idle || e == Wake(t) || e == Remove(t) || e == Start(t) || ((e.Block? || e == Leave) && t == s.running)
  }

  lemma Bystander(s: Sched, e: Event, t: nat)
    requires Ok(s) && Enabled(s, e) && t in s.status && !About(s, e, t)
    ensures t in Step(s, e).status
    ensures if Awake(s.status[t]) then Awake(Step(s, e).status[t]) else Step(s, e).status[t] == s.status[t]
  {
  }

  /** The locks keep their order when a scheduler event concerns none of their threads. */
  lemma QueueKept(lk: Lock, l: nat, pc: map<nat, Pc>, s: Sched, e: Event)
    requires Ok(s) && Enabled(s, e) && Queued(lk, l, pc, s.status)
    requires forall t :: t in pc && pc[t] == InDown(l) ==> !About(s, e, t)
    ensures Queued(lk, l, pc, Step(s, e).status)
  {
    hide Ok, Enabled, Step, NoDup;
    forall t | t in pc && pc[t] == InDown(l)
      ensures t in Step(s, e).status
      ensures if Awake(s.status[t]) then Awake(Step(s, e).status[t]) else Step(s, e).status[t] == s.status[t]
    {
      Bystander(s, e, t);
    }
  }

  predicate Concerns(p: Pc, l: nat) {
    p != Outside && p.l == l
  }

  /** A thread's step in the code of one lock does not touch another lock. */
  lemma OtherLock(lk: Lock, l: nat, pc: map<nat, Pc>, status: map<nat, Status>, t: nat, p: Pc)
    requires Owned(lk, l, pc) && Queued(lk, l, pc, status) && t in pc && !Concerns(pc[t], l) && !Concerns(p, l)
    ensures Owned(lk, l, pc[t := p]) && Queued(lk, l, pc[t := p], status)
  {
    hide NoDup;
  }

  // ---------- each step keeps its lock in order ----------

  lemma AcquireOk(lk: Lock, l: nat, pc: map<nat, Pc>, status: map<nat, Status>, t: nat)
    requires Owned(lk, l, pc) && Queued(lk, l, pc, status) && t in pc && pc[t] == Outside
    ensures lk.holder == t ==>
      var lk' := lk.(repeat := lk.repeat + 1, depth := lk.depth + 1); Owned(lk', l, pc) && Queued(lk', l, pc, status)
    ensures lk.holder != t ==> Owned(lk, l, pc[t := AtDown(l)]) && Queued(lk, l, pc[t := AtDown(l)], status)
  {
    hide NoDup;
  }

  lemma TakeOk(lk: Lock, l: nat, pc: map<nat, Pc>, status: map<nat, Status>, t: nat)
    requires Owned(lk, l, pc) && Queued(lk, l, pc, status) && t in pc && (pc[t] == AtDown(l) || pc[t] == InDown(l))
    requires lk.value != 0
    ensures lk.value - 1 == 0
    ensures var lk' := lk.(value := lk.value - 1, owner := t);
            Owned(lk', l, pc[t := GotIt(l)]) && (t !in lk.waiters ==> Queued(lk', l, pc[t := GotIt(l)], status))
  {
    hide NoDup;
  }

  lemma InnerOk(lk: Lock, l: nat, pc: map<nat, Pc>, status: map<nat, Status>, t: nat)
    requires Owned(lk, l, pc) && Queued(lk, l, pc, status) && t in pc && Inner(pc[t], l)
    ensures pc[t] == GotIt(l) ==>
      Owned(lk.(holder := t), l, pc[t := Counting(l)]) && Queued(lk.(holder := t), l, pc[t := Counting(l)], status)
    ensures pc[t] == Counting(l) ==>
      && lk.repeat == 0
      && Owned(lk.(repeat := 1, depth := 1), l, pc[t := Outside])
      && Queued(lk.(repeat := 1, depth := 1), l, pc[t := Outside], status)
    ensures pc[t] == Clearing(l) ==>
      Owned(lk.(holder := NOBODY), l, pc[t := Zeroing(l)])
        && Queued(lk.(holder := NOBODY), l, pc[t := Zeroing(l)], status)
    ensures pc[t] == Zeroing(l) ==>
      Owned(lk.(repeat := 0), l, pc[t := AtUp(l)]) && Queued(lk.(repeat := 0), l, pc[t := AtUp(l)], status)
  {
    hide NoDup;
  }

  lemma ReleaseOk(lk: Lock, l: nat, pc: map<nat, Pc>, status: map<nat, Status>, t: nat)
    requires Owned(lk, l, pc) && Queued(lk, l, pc, status) && t in pc && pc[t] == Outside && lk.owner == t
    ensures lk.holder == t && lk.repeat >= 1
    ensures lk.repeat > 1 ==>
      var lk' := lk.(repeat := lk.repeat - 1, depth := lk.depth - 1); Owned(lk', l, pc) && Queued(lk', l, pc, status)
    ensures lk.repeat == 1 ==>
      Owned(lk.(depth := 0), l, pc[t := Clearing(l)]) && Queued(lk.(depth := 0), l, pc[t := Clearing(l)], status)
  {
    hide NoDup;
  }

  /** sema_down that has to wait: the thread joins the waiters and sleeps. */
  lemma WaitOk(lk: Lock, l: nat, pc: map<nat, Pc>, s: Sched)
    requires Ok(s) && Owned(lk, l, pc) && Queued(lk, l, pc, s.status) && s.running in pc && s.running != s.idle
    requires pc[s.running] == AtDown(l) || pc[s.running] == InDown(l)
    requires s.idle in pc && pc[s.idle] == Outside && lk.value == 0
    ensures s.running !in lk.waiters
    ensures var lk' := lk.(waiters := lk.waiters + [s.running]);
            var pc' := pc[s.running := InDown(l)];
            Owned(lk', l, pc') && Queued(lk', l, pc', Step(s, Block(Blocked)).status)
  {
    hide Step, Ok;
    var t := s.running;
    var lk' := lk.(waiters := lk.waiters + [t]);
    var pc' := pc[t := InDown(l)];
    var s' := Step(s, Block(Blocked));
    BlockedNow(s);
    assert forall x :: x in lk'.waiters <==> x in lk.waiters || x == t;
    forall x | x in pc && pc[x] == InDown(l) && x != t
      ensures x in s'.status && if Awake(s.status[x]) then Awake(s'.status[x]) else s'.status[x] == s.status[x]
    {
      Bystander(s, Block(Blocked), x);
    }
    assert Queued(lk', l, pc', s'.status);
  }

  lemma BlockedNow(s: Sched)
    requires Ok(s) && s.running != s.idle
    ensures s.running in Step(s, Block(Blocked)).status && Step(s, Block(Blocked)).status[s.running] == Blocked
    ensures s.running in s.status && s.status[s.running] == Running
  {
    var s1 := s.(status := s.status[s.running := Blocked]);
    BlockLeaves(s, Blocked);
    assert s.running !in s1.ready;
  }

  /** sema_up: the semaphore is free again, and the first waiter is awake. */
  lemma UpOk(lk: Lock, l: nat, pc: map<nat, Pc>, s: Sched)
    requires Ok(s) && Owned(lk, l, pc) && Queued(lk, l, pc, s.status) && s.running in pc && pc[s.running] == AtUp(l)
    requires s.idle in pc && pc[s.idle] == Outside
    ensures lk.value == 0
    ensures var pc' := pc[s.running := Outside];
      if lk.waiters == [] then
        var lk' := lk.(value := lk.value + 1, owner := NOBODY);
        Owned(lk', l, pc') && Queued(lk', l, pc', s.status)
      else
        var w := lk.waiters[0];
        var lk' := lk.(value := lk.value + 1, owner := NOBODY, waiters := lk.waiters[1..], woken := w);
        && w in s.status && Asleep(s.status[w]) && w !in s.ready
        && Owned(lk', l, pc') && Queued(lk', l, pc', Step(s, Wake(w)).status)
  {
    if lk.waiters != [] {
      var w := lk.waiters[0];
      var rest := lk.waiters[1..];
      assert forall x :: x in lk.waiters <==> x == w || x in rest;
      assert w !in rest;
    }
  }

  // ---------- every step keeps everything in order ----------

  lemma InvAt(k: State, l: nat)
    requires Inv(k) && l in k.locks
    ensures Owned(k.locks[l], l, k.pc) && Queued(k.locks[l], l, k.pc, k.sched.status)
  {
  }

  lemma InvParts(k: State)
    requires Inv(k)
    ensures Ok(k.sched) && k.pc.Keys == k.sched.status.Keys && k.sched.idle in k.pc && k.pc[k.sched.idle] == Outside
    ensures k.sched.running in k.pc && k.sched.running in k.sched.status && k.sched.status[k.sched.running] == Running
  {
  }

  lemma NotWaiting(k: State, l: nat)
    requires Inv(k) && l in k.locks
    ensures k.sched.running !in k.locks[l].waiters
  {
    InvAt(k, l);
    InvParts(k);
  }

  /** The lock the step is about. */
  lemma OwnLock(lk: Lock, pc: map<nat, Pc>, s: Sched, a: Act)
    requires !a.Env? && Ok(s) && s.running in pc && s.running != s.idle && s.idle in pc && pc[s.idle] == Outside
    requires Owned(lk, a.l, pc) && Queued(lk, a.l, pc, s.status) && AtPc(pc[s.running], a, lk, s.running)
      && s.running !in lk.waiters
    ensures var pc' := pc[s.running := NewPc(lk, a, s.running)];
            Owned(NewLock(lk, a, s.running), a.l, pc')
              && Queued(NewLock(lk, a, s.running), a.l, pc', NewSched(s, lk, a).status)
  {
    hide Ok, Owned, Queued, Step, Stage;
    var l, t := a.l, s.running;
    assert pc[t] == Outside ==> pc[t := Outside] == pc;
    if a.Acquire? {
      AcquireOk(lk, l, pc, s.status, t);
    } else if a.Down? {
      if lk.value == 0 {
        WaitOk(lk, l, pc, s);
      } else {
        TakeOk(lk, l, pc, s.status, t);
      }
    } else if a.Release? {
      ReleaseOk(lk, l, pc, s.status, t);
    } else if a.Up? {
      UpOk(lk, l, pc, s);
    } else {
      InnerOk(lk, l, pc, s.status, t);
    }
  }

  /** Any other lock. */
  lemma OtherLocks(lk: Lock, pc: map<nat, Pc>, s: Sched, a: Act, m: nat, lm: Lock)
    requires !a.Env? && Ok(s) && s.running in pc && s.running != s.idle && s.idle in pc && pc[s.idle] == Outside
    requires Owned(lk, a.l, pc) && Queued(lk, a.l, pc, s.status) && AtPc(pc[s.running], a, lk, s.running)
      && s.running !in lk.waiters
    requires m != a.l && Owned(lm, m, pc) && Queued(lm, m, pc, s.status)
    ensures var pc' := pc[s.running := NewPc(lk, a, s.running)];
            Owned(lm, m, pc') && Queued(lm, m, pc', NewSched(s, lk, a).status)
  {
    var t, p := s.running, NewPc(lk, a, s.running);
    var pc' := pc[t := p];
    assert !Concerns(pc[t], m) && !Concerns(p, m);
    WaiterOf(lk, a.l, pc, s);
    hide Ok, Owned, Queued, Step, Enabled;
    OtherLock(lm, m, pc, s.status, t, p);
    if a.Down? && lk.value == 0 {
      EnabledBlock(s);
      QueueKept(lm, m, pc', s, Block(Blocked));
    } else if a.Up? && lk.waiters != [] {
      QueueKept(lm, m, pc', s, Wake(lk.waiters[0]));
    }
  }

  lemma EnabledBlock(s: Sched)
    ensures Enabled(s, Block(Blocked))
  {
  }

  lemma WaiterOf(lk: Lock, l: nat, pc: map<nat, Pc>, s: Sched)
    requires Queued(lk, l, pc, s.status)
    ensures lk.waiters != [] ==>
      lk.waiters[0] in pc && pc[lk.waiters[0]] == InDown(l) && Enabled(s, Wake(lk.waiters[0]))
  {
  }

  lemma NewSchedOk(lk: Lock, l: nat, pc: map<nat, Pc>, s: Sched, a: Act)
    requires Ok(s) && Queued(lk, l, pc, s.status)
    ensures Ok(NewSched(s, lk, a)) && NewSched(s, lk, a).idle == s.idle
      && NewSched(s, lk, a).status.Keys == s.status.Keys
  {
    WaiterOf(lk, l, pc, s);
    EnabledBlock(s);
    hide Ok, Queued, Enabled;
    if a.Down? && lk.value == 0 {
      StepOk(s, Block(Blocked));
      StepKeys(s, Block(Blocked));
    } else if a.Up? && lk.waiters != [] {
      StepOk(s, Wake(lk.waiters[0]));
      StepKeys(s, Wake(lk.waiters[0]));
    }
  }

  lemma StepKeys(s: Sched, e: Event)
    requires Ok(s) && Enabled(s, e) && (e.Block? || e.Wake?)
    ensures Step(s, e).status.Keys == s.status.Keys
  {
    if e.Block? {
      BlockLeaves(s, e.to);
      NextOk(s.(status := s.status[s.running := e.to]));
    }
  }

  lemma LockDoOk(k: State, a: Act)
    requires Inv(k) && !a.Env? && LockCan(k, a)
    ensures Inv(LockDo(k, a))
  {
    hide Ok, Owned, Queued, NewSched, NewLock, NewPc, AtPc;
    var l, t, lk := a.l, k.sched.running, k.locks[a.l];
    var k' := LockDo(k, a);
    InvParts(k);
    InvAt(k, l);
    NotWaiting(k, l);
    NewSchedOk(lk, l, k.pc, k.sched, a);
    OwnLock(lk, k.pc, k.sched, a);
    assert k'.pc.Keys == k.pc.Keys;
    forall m | m in k'.locks ensures LockOk(k', m) {
      if m != l {
        InvAt(k, m);
        OtherLocks(lk, k.pc, k.sched, a, m, k.locks[m]);
      }
    }
  }

  /** A scheduler event outside the lock code. */
  lemma EnvLock(k: State, e: Event, l: nat)
    requires Inv(k) && EnvCan(k, e) && l in k.locks
    ensures LockOk(EnvDo(k, e), l)
  {
    var lk, s := k.locks[l], k.sched;
    hide Ok, Step, Inv, Owned, Queued;
    InvAt(k, l);
    InvParts(k);
    NotAbout(k, e, l);
    QueueKept(lk, l, k.pc, s, e);
    if e.Start? {
      PcAdded(lk, l, k.pc, Step(s, e).status, e.t);
    } else if e == Leave {
      PcRemoved(lk, l, k.pc, Step(s, e).status, s.running);
    } else if e.Remove? {
      PcRemoved(lk, l, k.pc, Step(s, e).status, e.t);
    }
  }

  lemma NotAbout(k: State, e: Event, l: nat)
    requires Inv(k) && EnvCan(k, e)
    ensures forall t :: t in k.pc && k.pc[t] == InDown(l) ==> !About(k.sched, e, t)
  {
    InvParts(k);
    hide Ok, LockOk;
  }

  lemma PcAdded(lk: Lock, l: nat, pc: map<nat, Pc>, status: map<nat, Status>, t: nat)
    requires Owned(lk, l, pc) && Queued(lk, l, pc, status) && t !in pc
    ensures Owned(lk, l, pc[t := Outside]) && Queued(lk, l, pc[t := Outside], status)
  {
    hide NoDup;
  }

  lemma PcRemoved(lk: Lock, l: nat, pc: map<nat, Pc>, status: map<nat, Status>, t: nat)
    requires Owned(lk, l, pc) && Queued(lk, l, pc, status) && t in pc && pc[t] == Outside && lk.owner != t
    ensures Owned(lk, l, pc - {t}) && Queued(lk, l, pc - {t}, status)
  {
    hide NoDup;
  }

  lemma EnvDoOk(k: State, e: Event)
    requires Inv(k) && EnvCan(k, e)
    ensures Inv(EnvDo(k, e))
  {
    var k' := EnvDo(k, e);
    InvParts(k);
    StepOk(k.sched, e);
    EnvKeys(k, e);
    forall l | l in k'.locks ensures LockOk(k', l) {
      EnvLock(k, e, l);
    }
    hide Ok, Step, LockOk;
  }

  lemma EnvKeys(k: State, e: Event)
    requires Inv(k) && EnvCan(k, e)
    ensures EnvDo(k, e).pc.Keys == Step(k.sched, e).status.Keys && k.sched.idle in EnvDo(k, e).pc
      && EnvDo(k, e).pc[k.sched.idle] == Outside
  {
    InvParts(k);
    var s := k.sched;
    if e == Preempt {
      NextOk(s);
    } else if e == Yield {
      AppendedOk(s, s.running);
      NextOk(Appended(s, s.running));
    } else if e.Block? {
      StepKeys(s, e);
    } else if e == Leave {
      ExitLeaves(s);
      NextOk(s.(status := s.status - {s.running}));
    }
    hide Ok, Next, LockOk;
  }

  lemma DoOk(k: State, a: Act)
    requires Inv(k) && Can(k, a)
    ensures Inv(Do(k, a))
  {
    hide Inv, EnvCan, LockCan;
    if a.Env? {
      EnvDoOk(k, a.e);
    } else {
      LockDoOk(k, a);
    }
  }

  // ---------- the assertions of sync.c and of thread_unblock ----------

  /** What the code asserts during the step. */
  ghost predicate Asserts(k: State, a: Act)
    requires a.Env? || a.l in k.locks
  {
    var t := k.sched.running;
    match a
    case Down(l) => t !in k.locks[l].waiters && (k.locks[l].value != 0 ==> k.locks[l].value - 1 == 0)
    case SetCount(l) => k.locks[l].repeat == 0
    case Release(l) => k.locks[l].holder == t && (!(k.locks[l].repeat > 1) ==> k.locks[l].repeat == 1)
    case Up(l) =>
      && k.locks[l].value == 0 && k.locks[l].value + 1 == 1
      && (k.locks[l].waiters != [] ==>
            var w := k.locks[l].waiters[0]; w in k.sched.status && Asleep(k.sched.status[w]) && w !in k.sched.ready)
    case _ => true
  }

  lemma AssertsHold(k: State, a: Act)
    requires Inv(k) && Can(k, a)
    ensures Asserts(k, a)
  {
    if !a.Env? {
      var l, t, lk := a.l, k.sched.running, k.locks[a.l];
      InvParts(k);
      InvAt(k, l);
      NotWaiting(k, l);
      hide Inv, Ok, Owned, Queued;
      if a.Down? && lk.value != 0 {
        TakeOk(lk, l, k.pc, k.sched.status, t);
      } else if a.SetCount? {
        InnerOk(lk, l, k.pc, k.sched.status, t);
      } else if a.Release? {
        ReleaseOk(lk, l, k.pc, k.sched.status, t);
      } else if a.Up? {
        UpOk(lk, l, k.pc, k.sched);
      }
    }
  }

  // ---------- runs ----------

  ghost predicate Run(ks: seq<State>, acts: seq<Act>) {
    && |ks| == |acts| + 1
    && forall i :: 0 <= i < |acts| ==>
         (acts[i].Env? || acts[i].l in ks[i].locks) && Can(ks[i], acts[i]) && ks[i + 1] == Do(ks[i], acts[i])
  }

  /** Some threads, none of them in the lock code, and fresh locks. */
  ghost predicate Start0(k: State) {
    && Ok(k.sched) && k.pc.Keys == k.sched.status.Keys
    && (forall t :: t in k.pc ==> k.pc[t] == Outside) && (forall l :: l in k.locks ==> k.locks[l] == NEW_LOCK)
  }

  lemma StartInv(k: State)
    requires Start0(k)
    ensures Inv(k)
  {
  }

  /** Over every interleaving no assertion fires and everything stays in order. */
  lemma {:induction false} RunInv(ks: seq<State>, acts: seq<Act>, i: nat)
    requires Run(ks, acts) && Start0(ks[0]) && i < |ks|
    ensures Inv(ks[i])
    ensures i < |acts| ==> Asserts(ks[i], acts[i])
  {
    hide Inv, Start0, Can, Do, Asserts;
    if i == 0 {
      StartInv(ks[0]);
    } else {
      RunInv(ks, acts, i - 1);
      assert ks[i - 1 + 1] == Do(ks[i - 1], acts[i - 1]);
      DoOk(ks[i - 1], acts[i - 1]);
    }
    if i < |acts| {
      AssertsHold(ks[i], acts[i]);
    }
  }

  /** How one step counts for thread t and lock l: a completed acquire, or a release begun. */
  function Counts(k: State, a: Act, t: nat, l: nat): (n: int) {
    if k.sched.running != t || a.Env? || a.l != l then 0
    else if a.SetCount? || (a.Acquire? && l in k.locks && k.locks[l].holder == t) then 1
    else if a.Release? then -1
    else 0
  }

  /** Acquires of lock l by thread t less its releases, over the first n steps of a run. */
  function Nest(ks: seq<State>, acts: seq<Act>, n: nat, t: nat, l: nat): (c: int)
    requires n <= |acts| <= |ks|
  {
    if n == 0 then 0 else Nest(ks, acts, n - 1, t, l) + Counts(ks[n - 1], acts[n - 1], t, l)
  }

  lemma DepthStep(k: State, a: Act, t: nat, l: nat)
    requires Inv(k) && (a.Env? || a.l in k.locks) && Can(k, a) && l in k.locks
    ensures l in Do(k, a).locks
    ensures (if Do(k, a).locks[l].owner == t then Do(k, a).locks[l].depth else 0) ==
            (if k.locks[l].owner == t then k.locks[l].depth else 0) + Counts(k, a, t, l)
  {
    InvAt(k, l);
    hide Inv, Queued, Step, NewSched, NewPc, EnvDo;
    if a.Env? {
      assert Do(k, a) == EnvDo(k, a.e);
      EnvLocks(k, a.e);
    } else if a.l == l {
      hide Owned, NewLock, AtPc;
      OwnDepth(k.locks[l], k.pc, a, k.sched.running, t);
    }
  }

  /** How deep thread t is in the lock that a step of thread r is about. */
  lemma OwnDepth(lk: Lock, pc: map<nat, Pc>, a: Act, r: nat, t: nat)
    requires !a.Env? && Owned(lk, a.l, pc) && r in pc && AtPc(pc[r], a, lk, r)
    ensures var lk' := NewLock(lk, a, r);
      var d := if a.SetCount? || (a.Acquire? && lk.holder == r) then 1 else if a.Release? then -1 else 0;
      (if lk'.owner == t then lk'.depth else 0) == (if lk.owner == t then lk.depth else 0) + if t == r then d else 0
  {
  }

  lemma {:induction false} NestIsDepth(ks: seq<State>, acts: seq<Act>, n: nat, t: nat, l: nat)
    requires Run(ks, acts) && Start0(ks[0]) && n <= |acts| && l in ks[0].locks
    ensures l in ks[n].locks && Nest(ks, acts, n, t, l) == if ks[n].locks[l].owner == t then ks[n].locks[l].depth else 0
  {
    if n > 0 {
      NestIsDepth(ks, acts, n - 1, t, l);
      RunInv(ks, acts, n - 1);
      assert ks[n - 1 + 1] == Do(ks[n - 1], acts[n - 1]);
      hide Inv, Can, Do, Start0, Asserts;
      DepthStep(ks[n - 1], acts[n - 1], t, l);
    }
  }

  /** At most one thread is inside a lock, however often it re-entered it, and then holder and count
      say so: the count is its acquires less its releases. */
  lemma MutualExclusion(ks: seq<State>, acts: seq<Act>, n: nat, t: nat, u: nat, l: nat)
    requires Run(ks, acts) && Start0(ks[0]) && n <= |acts| && l in ks[0].locks
    requires Nest(ks, acts, n, t, l) > 0
    ensures Nest(ks, acts, n, u, l) > 0 ==> t == u
    ensures l in ks[n].locks && ks[n].locks[l].holder == t && ks[n].locks[l].repeat == Nest(ks, acts, n, t, l)
  {
    NestIsDepth(ks, acts, n, t, l);
    NestIsDepth(ks, acts, n, u, l);
    RunInv(ks, acts, n);
    InvAt(ks[n], l);
    hide Inv, Start0, Asserts, Queued, Nest, Run;
  }

  /** No wake-up is lost: a free semaphore with threads on its waiters list has a woken thread that
      will look at it again. */
  lemma NoLostWakeup(ks: seq<State>, acts: seq<Act>, n: nat, l: nat)
    requires Run(ks, acts) && Start0(ks[0]) && n < |ks| && l in ks[n].locks
    requires ks[n].locks[l].value == 1 && ks[n].locks[l].waiters != []
    ensures exists w ::
      w in ks[n].pc && ks[n].pc[w] == InDown(l) && w in ks[n].sched.status && Awake(ks[n].sched.status[w])
  {
    RunInv(ks, acts, n);
    InvAt(ks[n], l);
    hide Inv, Start0, Asserts, Owned, Run;
  }

  /** Who has to wait in the step: the thread that finds the semaphore of lock l taken. */
  function JoinsIn(k: State, a: Act, l: nat): (q: seq<nat>) {
    if a == Down(l) && l in k.locks && k.locks[l].value == 0 then [k.sched.running] else []
  }

  /** Whom the release of lock l wakes, as the ready list shows it. */
  function WokenIn(k: State, a: Act, k': State, l: nat): (q: seq<nat>) {
    if a == Up(l) && |k'.sched.ready| == |k.sched.ready| + 1 then [k'.sched.ready[0]] else []
  }

  /** The threads that had to wait for lock l in the first n steps, in that order. */
  function JoinedBy(ks: seq<State>, acts: seq<Act>, n: nat, l: nat): (q: seq<nat>)
    requires n <= |acts| < |ks|
  {
    if n == 0 then [] else JoinedBy(ks, acts, n - 1, l) + JoinsIn(ks[n - 1], acts[n - 1], l)
  }

  /** The threads that releases of lock l have woken in the first n steps, in that order. */
  function WokenBy(ks: seq<State>, acts: seq<Act>, n: nat, l: nat): (q: seq<nat>)
    requires n <= |acts| < |ks|
  {
    if n == 0 then [] else WokenBy(ks, acts, n - 1, l) + WokenIn(ks[n - 1], acts[n - 1], ks[n], l)
  }

  lemma QueueStep(k: State, a: Act, l: nat)
    requires Inv(k) && (a.Env? || a.l in k.locks) && Can(k, a) && l in k.locks
    ensures l in Do(k, a).locks
    ensures k.locks[l].waiters + JoinsIn(k, a, l) == WokenIn(k, a, Do(k, a), l) + Do(k, a).locks[l].waiters
  {
    hide Inv, Can, Step, NewSched, NewLock, NewPc, EnvDo;
    if a.Env? {
      assert Do(k, a) == EnvDo(k, a.e);
      EnvLocks(k, a.e);
    } else if a.l == l {
      if a == Up(l) {
        ReleaseWakes(k, l);
      } else {
        Queues(k.locks[l], a, k.sched.running);
      }
    }
  }

  lemma EnvLocks(k: State, e: Event)
    ensures EnvDo(k, e).locks == k.locks
  {
  }

  /** Only sema_down that has to wait and sema_up change the waiters. */
  lemma Queues(lk: Lock, a: Act, t: nat)
    requires !a.Up?
    ensures NewLock(lk, a, t).waiters == lk.waiters + (if a.Down? && lk.value == 0 then [t] else [])
  {
  }

  /** A release wakes the first of the queue and nobody else. */
  lemma ReleaseWakes(k: State, l: nat)
    requires Inv(k) && l in k.locks
    ensures var q, k' := k.locks[l].waiters, LockDo(k, Up(l));
            if q == [] then k'.locks[l].waiters == [] && k'.sched.ready == k.sched.ready
            else k'.locks[l].waiters == q[1..] && k'.sched.ready == [q[0]] + k.sched.ready
  {
    hide Inv;
  }

  /** Waiters are woken in the order in which they queued: those woken so far followed by those still
      waiting are those that ever had to wait. */
  lemma {:induction false} WokenInOrder(ks: seq<State>, acts: seq<Act>, n: nat, l: nat)
    requires Run(ks, acts) && Start0(ks[0]) && n <= |acts| && l in ks[0].locks
    ensures l in ks[n].locks && JoinedBy(ks, acts, n, l) == WokenBy(ks, acts, n, l) + ks[n].locks[l].waiters
  {
    if n > 0 {
      WokenInOrder(ks, acts, n - 1, l);
      RunInv(ks, acts, n - 1);
      assert ks[n - 1 + 1] == Do(ks[n - 1], acts[n - 1]);
      hide Inv, Can, Do, Start0, Asserts, JoinsIn, WokenIn, Run;
      QueueStep(ks[n - 1], acts[n - 1], l);
      Regroup(WokenBy(ks, acts, n - 1, l), ks[n - 1].locks[l].waiters, JoinsIn(ks[n - 1], acts[n - 1], l),
              WokenIn(ks[n - 1], acts[n - 1], ks[n], l), ks[n].locks[l].waiters);
    }
  }

  lemma Regroup(woken: seq<nat>, was: seq<nat>, joins: seq<nat>, wakes: seq<nat>, now: seq<nat>)
    requires was + joins == wakes + now
    ensures (woken + was) + joins == (woken + wakes) + now
  {
    assert (woken + was) + joins == woken + (was + joins) && (woken + wakes) + now == woken + (wakes + now);
  }

  /** A thread is on at most one list: the ready list or the waiters of one semaphore. */
  lemma OneList(ks: seq<State>, acts: seq<Act>, n: nat, t: nat, l: nat, m: nat)
    requires Run(ks, acts) && Start0(ks[0]) && n < |ks| && l in ks[n].locks && m in ks[n].locks
      && t in ks[n].locks[l].waiters
    ensures t !in ks[n].sched.ready && NoDup(ks[n].locks[l].waiters) && (t in ks[n].locks[m].waiters ==> l == m)
  {
    RunInv(ks, acts, n);
    InvAt(ks[n], l);
    InvAt(ks[n], m);
    InvParts(ks[n]);
    hide Inv, Start0, Asserts, Owned, Run;
  }
}
