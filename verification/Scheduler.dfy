/** The scheduler (thread/thread.c): thread states, the ready list and who runs. */
module Scheduler {
  import List

  datatype Status = Running | Ready | Blocked | Waiting | Hanging

  predicate Asleep(s: Status) {
    s == Blocked || s == Waiting || s == Hanging
  }

  /** The threads and their states, the ready list front first, the thread on the CPU, and idle. */
  datatype Sched = Sched(status: map<nat, Status>, ready: seq<nat>, running: nat, idle: nat)

  ghost predicate NoDup(q: seq<nat>) {
    forall i, j :: 0 <= i < j < |q| ==> q[i] != q[j]
  }

  /** The ready list holds exactly the READY threads, each once. */
  ghost predicate ReadyExact(s: Sched) {
    NoDup(s.ready) && forall t :: t in s.ready <==> t in s.status && s.status[t] == Ready
  }

  /** Nobody runs but perhaps the thread on the CPU, which is about to leave it. */
  ghost predicate Leaving(s: Sched) {
    ReadyExact(s) && s.idle in s.status && forall t :: t in s.status && s.status[t] == Running ==> t == s.running
  }

  /** Exactly the thread on the CPU is RUNNING, and the ready list is exact. */
  ghost predicate Ok(s: Sched) {
    Leaving(s) && s.running in s.status && s.status[s.running] == Running
  }

  // ---------- the transitions ----------

  function Unblocked(s: Sched, t: nat): (s': Sched) {
    s.(status := s.status[t := Ready], ready := [t] + s.ready)
  }

  function Appended(s: Sched, t: nat): (s': Sched) {
    s.(status := s.status[t := Ready], ready := s.ready + [t])
  }

  function Popped(s: Sched): (s': Sched)
    requires s.ready != []
  {
    s.(status := s.status[s.ready[0] := Running], ready := s.ready[1..], running := s.ready[0])
  }

  predicate StillRunning(s: Sched) {
    s.running in s.status && s.status[s.running] == Running
  }

  /** schedule */
  function Next(s: Sched): (s': Sched) {
    var s1 := if StillRunning(s) then Appended(s, s.running) else s;
    Popped(if s1.ready == [] then Unblocked(s1, s1.idle) else s1)
  }

  lemma UnblockedOk(s: Sched, t: nat)
    requires t in s.status && Asleep(s.status[t])
    ensures ReadyExact(s) ==> ReadyExact(Unblocked(s, t))
    ensures Leaving(s) ==> Leaving(Unblocked(s, t))
    ensures Ok(s) ==> Ok(Unblocked(s, t))
  {
    var s' := Unblocked(s, t);
    assert forall x :: x in s'.ready <==> x == t || x in s.ready;
  }

  lemma AppendedOk(s: Sched, t: nat)
    requires Leaving(s) && (t !in s.status || s.status[t] != Ready)
    ensures Leaving(Appended(s, t))
    ensures Ok(s) && t != s.running ==> Ok(Appended(s, t))
  {
    var s' := Appended(s, t);
    assert forall x :: x in s'.ready <==> x == t || x in s.ready;
  }

  lemma PoppedOk(s: Sched)
    requires Leaving(s) && s.ready != [] && !StillRunning(s)
    ensures Ok(Popped(s))
  {
    var s' := Popped(s);
    assert forall x :: x in s.ready <==> x == s.ready[0] || x in s'.ready;
    assert s.ready[0] !in s'.ready;
  }

  /** schedule always finds a thread to run; when it has to wake idle, idle is asleep. */
  lemma NextOk(s: Sched)
    requires Leaving(s)
    ensures var s1 := if StillRunning(s) then Appended(s, s.running) else s;
            s1.ready == [] ==> s1.idle in s1.status && Asleep(s1.status[s1.idle])
    ensures Ok(Next(s)) && Next(s).idle == s.idle && Next(s).status.Keys == s.status.Keys
  {
    if StillRunning(s) {
      AppendedOk(s, s.running);
      PoppedOk(Appended(s, s.running));
    } else {
      if s.ready == [] {
        assert s.status[s.idle] != Ready;
        UnblockedOk(s, s.idle);
        PoppedOk(Unblocked(s, s.idle));
      } else {
        PoppedOk(s);
      }
    }
  }

  // ---------- events ----------

  /** A clock interrupt that switches, thread_yield, thread_block, thread_unblock, thread_start,
      and thread_exit of the running thread or of another. */
  datatype Event = Preempt | Yield | Block(to: Status) | Wake(t: nat) | Start(t: nat) | Leave | Remove(t: nat)

  predicate Enabled(s: Sched, e: Event) {
    match e
    case Block(to) => Asleep(to)
    case Wake(t) => t in s.status && Asleep(s.status[t])
    case Start(t) => t !in s.status
    case Leave => s.running != s.idle
    case Remove(t) => t in s.status && t != s.running && t != s.idle
    case _ => true
  }

  /** list_remove of the entry of thread t. */
  function Without(q: seq<nat>, t: nat): (q': seq<nat>) {
    if q == [] then [] else if q[0] == t then q[1..] else [q[0]] + Without(q[1..], t)
  }

  function Step(s: Sched, e: Event): (s': Sched) {
    match e
    case Preempt => Next(s)
    case Yield => Next(Appended(s, s.running))
    case Block(to) => Next(s.(status := s.status[s.running := to]))
    case Wake(t) => Unblocked(s, t)
    case Start(t) => Appended(s, t)
    case Leave => Next(s.(status := s.status - {s.running}))
    case Remove(t) => s.(status := s.status - {t}, ready := Without(s.ready, t))
  }

  lemma {:induction false} WithoutIs(q: seq<nat>, t: nat)
    requires NoDup(q)
    ensures NoDup(Without(q, t)) && forall x :: x in Without(q, t) <==> x in q && x != t
  {
    if q != [] {
      var rest := q[1..];
      WithoutIs(rest, t);
      assert forall x :: x in q <==> x == q[0] || x in rest;
      assert q[0] !in rest;
      if q[0] != t {
        var w := Without(rest, t);
        assert Without(q, t) == [q[0]] + w;
        assert forall x :: x in [q[0]] + w <==> x == q[0] || x in w;
      }
    }
  }

  /** Every event keeps the books exact, and every event is possible without an empty pop. */
  lemma StepOk(s: Sched, e: Event)
    requires Ok(s) && Enabled(s, e)
    ensures Ok(Step(s, e)) && Step(s, e).idle == s.idle
  {
    match e
    case Preempt => NextOk(s);
    case Yield =>
      AppendedOk(s, s.running);
      NextOk(Appended(s, s.running));
    case Block(to) =>
      BlockLeaves(s, to);
      NextOk(s.(status := s.status[s.running := to]));
    case Wake(t) => UnblockedOk(s, t);
    case Start(t) => AppendedOk(s, t);
    case Leave =>
      ExitLeaves(s);
      NextOk(s.(status := s.status - {s.running}));
    case Remove(t) => WithoutIs(s.ready, t);
  }

  lemma BlockLeaves(s: Sched, to: Status)
    requires Ok(s) && Asleep(to)
    ensures Leaving(s.(status := s.status[s.running := to]))
  {
  }

  lemma ExitLeaves(s: Sched)
    requires Ok(s) && s.running != s.idle
    ensures Leaving(s.(status := s.status - {s.running}))
  {
  }

  // ---------- what each event does, place by place ----------

  /** The CPU goes to the first of the ready list, or to idle when nobody is ready; the states of all
      others are those given. */
  ghost predicate Switched(status: map<nat, Status>, ready: seq<nat>, idle: nat, s': Sched) {
    && s'.running == (if ready == [] then idle else ready[0])
    && s'.ready == (if ready == [] then [] else ready[1..])
    && s'.status == status[s'.running := Running]
  }

  /** thread_yield and a clock interrupt: the running thread goes behind all that are ready, and the first
      of them runs. */
  lemma YieldIs(s: Sched)
    requires Ok(s)
    ensures Step(s, Yield) == Step(s, Preempt)
    ensures Switched(s.status[s.running := Ready], s.ready + [s.running], s.idle, Step(s, Yield))
  {
    assert s.status[s.running := Ready][s.running := Ready] == s.status[s.running := Ready];
  }

  /** thread_block: the running thread is left in the state asked for, except that idle runs on when
      nobody else is ready. */
  lemma BlockIs(s: Sched, to: Status)
    requires Ok(s) && Asleep(to)
    ensures Switched(s.status[s.running := to], s.ready, s.idle, Step(s, Block(to)))
    ensures !(s.running == s.idle && s.ready == []) ==>
      var s' := Step(s, Block(to)); s.running in s'.status && s'.status[s.running] == to && s'.running != s.running
    ensures s.running == s.idle && s.ready == [] ==> Step(s, Block(to)) == s
  {
    var status: map<nat, Status> := s.status[s.running := to];
    assert s.running !in s.ready;
    if s.ready == [] {
      assert ([s.idle] + [])[1..] == [];
      assert status[s.idle := Ready][s.idle := Running] == status[s.idle := Running];
      assert s.running == s.idle ==> status[s.idle := Running] == s.status;
    }
  }

  /** thread_unblock: the thread is first of the ready list, everybody else one place further back. */
  lemma WakeIs(s: Sched, t: nat)
    requires Ok(s) && Enabled(s, Wake(t))
    ensures var s' := Step(s, Wake(t));
      && s'.running == s.running && s'.status == s.status[t := Ready]
      && |s'.ready| == |s.ready| + 1 && s'.ready[0] == t
      && forall k :: 0 <= k < |s.ready| ==> s'.ready[k + 1] == s.ready[k]
  {
  }

  /** thread_start: the thread is last of the ready list, everybody else where they were. */
  lemma StartIs(s: Sched, t: nat)
    requires Ok(s) && Enabled(s, Start(t))
    ensures var s' := Step(s, Start(t));
      && s'.running == s.running && s'.status == s.status[t := Ready] && |s'.ready| == |s.ready| + 1
      && s'.ready[|s.ready|] == t && forall k :: 0 <= k < |s.ready| ==> s'.ready[k] == s.ready[k]
  {
  }

  /** thread_exit of the running thread. */
  lemma LeaveIs(s: Sched)
    requires Ok(s) && Enabled(s, Leave)
    ensures Switched(s.status - {s.running}, s.ready, s.idle, Step(s, Leave))
  {
    var status: map<nat, Status> := s.status - {s.running};
    if s.ready == [] {
      assert ([s.idle] + [])[1..] == [];
      assert status[s.idle := Ready][s.idle := Running] == status[s.idle := Running];
    }
  }

  /** thread_exit of another: it is gone, and the order of the others is kept. */
  lemma RemoveIs(s: Sched, t: nat)
    requires Ok(s) && Enabled(s, Remove(t))
    ensures var s' := Step(s, Remove(t));
      && s'.running == s.running && s'.status == s.status - {t}
      && (t !in s.ready ==> s'.ready == s.ready)
      && forall i :: 0 <= i < |s.ready| && s.ready[i] == t ==> s'.ready == s.ready[..i] + s.ready[i + 1..]
  {
    NotOn(s.ready, t);
    forall i | 0 <= i < |s.ready| && s.ready[i] == t ensures Without(s.ready, t) == s.ready[..i] + s.ready[i + 1..] {
      WithoutAt(s.ready, i);
    }
  }

  /** A thread that was just woken is the next to run. */
  lemma WokenRunsNext(s: Sched, t: nat, e: Event)
    requires Ok(s) && Enabled(s, Wake(t)) && Switch(e) && Enabled(Step(s, Wake(t)), e)
    ensures Step(Step(s, Wake(t)), e).running == t
  {
    var s1 := Step(s, Wake(t));
    StepOk(s, Wake(t));
    WakeIs(s, t);
    match e
    case Preempt => YieldIs(s1);
    case Yield => YieldIs(s1);
    case Block(to) => BlockIs(s1, to);
    case Leave => LeaveIs(s1);
  }

  // ---------- runs ----------

  ghost predicate Run(ss: seq<Sched>, es: seq<Event>) {
    |ss| == |es| + 1 && forall i :: 0 <= i < |es| ==> Enabled(ss[i], es[i]) && ss[i + 1] == Step(ss[i], es[i])
  }

  /** In every state of every run one thread is RUNNING and the ready list is exact. */
  lemma {:induction false} RunOk(ss: seq<Sched>, es: seq<Event>, i: nat)
    requires Run(ss, es) && Ok(ss[0]) && i < |ss|
    ensures Ok(ss[i])
  {
    hide Ok, Step, Enabled;
    if i > 0 {
      RunOk(ss, es, i - 1);
      assert ss[i - 1 + 1] == Step(ss[i - 1], es[i - 1]);
      StepOk(ss[i - 1], es[i - 1]);
    }
  }

  /** Only a wake or the removal of a sleeping thread ends its sleep; idle aside. */
  lemma SleepStays(s: Sched, e: Event, x: nat)
    requires Ok(s) && Enabled(s, e) && x in s.status && Asleep(s.status[x]) && x != s.idle
    requires e != Wake(x) && e != Remove(x)
    ensures x in Step(s, e).status && Step(s, e).status[x] == s.status[x]
  {
    assert x != s.running && x !in s.ready;
    match e
    case Preempt => YieldIs(s);
    case Yield => YieldIs(s);
    case Block(to) => BlockIs(s, to);
    case Wake(t) =>
    case Start(t) =>
    case Leave => LeaveIs(s);
    case Remove(t) =>
  }

  /** In every run a thread other than idle that called thread_block stays in the state it asked for until
      it is woken or removed. */
  lemma {:induction false} BlockedStays(ss: seq<Sched>, es: seq<Event>, i: nat, n: nat)
    requires Run(ss, es) && Ok(ss[0]) && i < n < |ss| && es[i].Block? && ss[i].running != ss[i].idle
    requires forall j :: i < j < n ==> es[j] != Wake(ss[i].running) && es[j] != Remove(ss[i].running)
    ensures ss[i].running in ss[n].status && ss[n].status[ss[i].running] == es[i].to
    ensures ss[n].idle == ss[i].idle
    decreases n
  {
    hide Ok, Step;
    RunOk(ss, es, n - 1);
    assert Enabled(ss[n - 1], es[n - 1]) && ss[n - 1 + 1] == Step(ss[n - 1], es[n - 1]);
    StepOk(ss[n - 1], es[n - 1]);
    if n == i + 1 {
      BlockIs(ss[i], es[i].to);
    } else {
      BlockedStays(ss, es, i, n - 1);
      BlockAsks(ss, es, i);
      SleepStays(ss[n - 1], es[n - 1], ss[i].running);
    }
  }

  lemma BlockAsks(ss: seq<Sched>, es: seq<Event>, i: nat)
    requires Run(ss, es) && i < |es| && es[i].Block?
    ensures Asleep(es[i].to)
  {
    assert Enabled(ss[i], es[i]);
    hide Step;
  }

  /** How many of the events call schedule. */
  function Switches(es: seq<Event>): (n: nat) {
    if es == [] then 0 else (if Switch(es[0]) then 1 else 0) + Switches(es[1..])
  }

  predicate Switch(e: Event) {
    e == Preempt || e == Yield || e.Block? || e == Leave
  }

  /** How many of the events push a thread to the front of the ready list. */
  function Wakes(es: seq<Event>): (n: nat) {
    if es == [] then 0 else (if es[0].Wake? then 1 else 0) + Wakes(es[1..])
  }

  /** The event removes a thread that is before place k of the ready list. */
  predicate Ahead(s: Sched, e: Event, k: nat)
    requires k < |s.ready|
  {
    e.Remove? && e.t in s.ready[..k]
  }

  /** An element moves one place forward exactly when the entry taken out was before it. */
  lemma WithoutPlace(q: seq<nat>, t: nat, k: nat) returns (j: nat)
    requires NoDup(q) && k < |q| && q[k] != t
    ensures j == k - (if t in q[..k] then 1 else 0)
    ensures j < |Without(q, t)| && Without(q, t)[j] == q[k]
  {
    j := k;
    if t in q {
      var i :| 0 <= i < |q| && q[i] == t;
      WithoutAt(q, i);
      if i < k {
        assert q[..k][i] == t;
        j := k - 1;
      }
    } else {
      NotOn(q, t);
    }
  }

  /** One event moves a READY thread one place back if it is a wake, one place forward, or onto the CPU
      from the front, if it calls schedule, one place forward if it removes a thread before it, and
      leaves it where it is otherwise. */
  lemma PlaceAfter(s: Sched, e: Event, k: nat) returns (k': nat)
    requires Ok(s) && Enabled(s, e) && k < |s.ready| && e != Remove(s.ready[k])
    ensures if Switch(e) && k == 0 then Step(s, e).running == s.ready[k]
            else k' < |Step(s, e).ready| && Step(s, e).ready[k'] == s.ready[k]
                 && k' == k + (if e.Wake? then 1 else 0) - (if Switch(e) || Ahead(s, e, k) then 1 else 0)
  {
    k' := 0;
    if Switch(e) {
      k' := if k == 0 then 0 else k - 1;
    } else if e.Wake? {
      k' := k + 1;
    } else if e.Start? {
      k' := k;
    } else {
      k' := WithoutPlace(s.ready, e.t, k);
    }
  }

  /** A READY thread at place k runs at the latest when schedule has been called k + 1 times, plus
      once more for every thread pushed in front meanwhile. */
  lemma {:induction false} Dispatched(ss: seq<Sched>, es: seq<Event>, k: nat)
    requires Run(ss, es) && Ok(ss[0]) && k < |ss[0].ready|
    requires forall i :: 0 <= i < |es| ==> es[i] != Remove(ss[0].ready[k])
    requires Switches(es) >= k + Wakes(es) + 1
    ensures exists i :: 0 <= i < |ss| && ss[i].running == ss[0].ready[k]
    decreases |es|
  {
    hide Ok, Step, Enabled;
    var x := ss[0].ready[k];
    assert ss[0 + 1] == Step(ss[0], es[0]);
    var k' := PlaceAfter(ss[0], es[0], k);
    if Switch(es[0]) && k == 0 {
      assert ss[1].running == x;
    } else {
      StepOk(ss[0], es[0]);
      var ss1, es1 := ss[1..], es[1..];
      assert Run(ss1, es1) by {
        forall i | 0 <= i < |es1| ensures Enabled(ss1[i], es1[i]) && ss1[i + 1] == Step(ss1[i], es1[i]) {
          assert es1[i] == es[i + 1] && ss[i + 1 + 1] == Step(ss[i + 1], es[i + 1]);
        }
      }
      Dispatched(ss1, es1, k');
      var i :| 0 <= i < |ss1| && ss1[i].running == x;
      assert ss[i + 1].running == x;
    }
  }

  // ---------- the code ----------

  const HEAD := -1
  const TAIL := -2

  /** The threads of the ready list are none of its sentinels. */
  lemma OffSentinels(q: seq<nat>, t: nat)
    ensures t !in q <==> t !in List.Whole(HEAD, q, TAIL)
  {
    assert forall x: nat :: x in List.Whole(HEAD, q, TAIL) <==> x in q;
  }

  class Cpu {
    const idle: nat                    // idle_thread
    const tags: List.Memory            // the general_tag of every thread, and the ready list's sentinels
    var status: map<nat, Status>       // the threads of thread_all_list
    var running: nat                   // running_thread()
    ghost var ready: seq<nat>          // thread_ready_list

    ghost function S(): Sched
      reads this
    {
      Sched(status, ready, running, idle)
    }

    /** The links of the tags are the ready list. */
    ghost predicate Listed()
      reads this, tags
    {
      List.IsList(tags.next, tags.prev, HEAD, ready, TAIL)
    }

    /** make_main_thread and the start of idle: main runs, idle is ready. */
    constructor (main: nat, idle: nat, tags: List.Memory)
      requires main != idle
      modifies tags
      ensures Listed() && Ok(S()) && running == main && ready == [idle] && this.tags == tags
    {
      this.idle, this.tags := idle, tags;
      status := map[main := Running, idle := Ready];
      running := main;
      ready := [];
      new;
      tags.Init(HEAD, TAIL);
      Enqueue(idle);
      assert ready == [idle];
    }

    /** A thread goes to the end of the ready list. */
    method Enqueue(t: nat)
      requires Listed() && t !in ready
      modifies this`ready, tags
      ensures Listed() && ready == old(ready) + [t]
    {
      OffSentinels(ready, t);
      tags.Append(TAIL, t, HEAD, ready);
      ready := ready + [t];
    }

    /** A thread goes to the front of the ready list. */
    method EnqueueFirst(t: nat)
      requires Listed() && t !in ready
      modifies this`ready, tags
      ensures Listed() && ready == [t] + old(ready)
    {
      OffSentinels(ready, t);
      tags.Push(HEAD, t, ready, TAIL);
      ready := [t] + ready;
    }

    /** schedule */
    method Schedule()
      requires Listed() && Leaving(S())
      modifies this, tags
      ensures Listed() && S() == Next(old(S())) && Ok(S())
    {
      NextOk(S());
      hide List.IsList;
      if running in status && status[running] == Running {
        assert running !in ready;                            // the assertion of thread.c:179
        Enqueue(running);
        status := status[running := Ready];
      }
      var empty := tags.Empty(HEAD, TAIL, ready);
      if empty {
        assert idle in status && Asleep(status[idle]);       // the assertion of thread.c:221
        EnqueueFirst(idle);
        status := status[idle := Ready];
      }
      assert ready != [];                                    // the assertion of thread.c:191
      running := tags.Pop(HEAD, ready, TAIL);
      ready := ready[1..];
      status := status[running := Running];
    }

    /** thread_block */
    method ThreadBlock(to: Status)
      requires Listed() && Ok(S()) && Asleep(to)
      modifies this, tags
      ensures Listed() && Ok(S()) && S() == Step(old(S()), Block(to))
      ensures Switched(old(status)[old(running) := to], old(ready), idle, S())
    {
      BlockIs(S(), to);
      BlockLeaves(S(), to);
      hide List.IsList;
      status := status[running := to];
      Schedule();
    }

    /** thread_unblock */
    method ThreadUnblock(t: nat)
      requires Listed() && Ok(S()) && t in status && Asleep(status[t])
      modifies this, tags
      ensures Listed() && Ok(S()) && S() == Step(old(S()), Wake(t))
      ensures ready == [t] + old(ready) && status == old(status)[t := Ready] && running == old(running)
    {
      UnblockedOk(S(), t);
      hide List.IsList;
      assert t !in ready;                                    // the assertion of thread.c:223
      EnqueueFirst(t);
      status := status[t := Ready];
    }

    /** thread_yield */
    method ThreadYield()
      requires Listed() && Ok(S())
      modifies this, tags
      ensures Listed() && Ok(S()) && S() == Step(old(S()), Yield)
      ensures Switched(old(status)[old(running) := Ready], old(ready) + [old(running)], idle, S())
    {
      YieldIs(S());
      AppendedOk(S(), running);
      hide List.IsList;
      assert running !in ready;                              // the assertion of thread.c:238
      Enqueue(running);
      status := status[running := Ready];
      Schedule();
    }

    /** thread_start */
    method ThreadStart(t: nat)
      requires Listed() && Ok(S()) && t !in status
      modifies this, tags
      ensures Listed() && Ok(S()) && S() == Step(old(S()), Start(t))
      ensures ready == old(ready) + [t] && status == old(status)[t := Ready] && running == old(running)
    {
      AppendedOk(S(), t);
      hide List.IsList;
      assert t !in ready;                                    // the assertion of thread.c:148
      Enqueue(t);
      status := status[t := Ready];
    }

    /** thread_exit, with need_schedule when the thread ends itself. */
    method ThreadExit(t: nat)
      requires Listed() && Ok(S()) && t in status && t != idle
      modifies this, tags
      ensures Listed() && Ok(S()) && S() == Step(old(S()), if t == old(running) then Leave else Remove(t))
      ensures t == old(running) ==> Switched(old(status) - {t}, old(ready), idle, S())
      ensures t != old(running) ==> status == old(status) - {t} && running == old(running) && t !in ready
    {
      if t == running {
        LeaveIs(S());
      } else {
        WithoutIs(ready, t);
      }
      StepOk(S(), if t == running then Leave else Remove(t));
      ghost var s := S();
      hide List.IsList;
      var self := t == running;
      var there := tags.Find(HEAD, TAIL, t, ready);
      if there {
        ghost var i :| 0 <= i < |ready| && ready[i] == t;
        tags.Remove(t, HEAD, ready, TAIL, i);
        WithoutAt(ready, i);
        ready := Without(ready, t);
      }
      NotOn(s.ready, t);
      status := status - {t};
      if self {
        ExitLeaves(s);
        Schedule();
      }
    }
  }

  lemma {:induction false} NotOn(q: seq<nat>, t: nat)
    ensures t !in q ==> Without(q, t) == q
  {
    if q != [] && t !in q {
      NotOn(q[1..], t);
      assert [q[0]] + q[1..] == q;
    }
  }

  lemma {:induction false} WithoutAt(q: seq<nat>, i: nat)
    requires i < |q| && NoDup(q)
    ensures Without(q, q[i]) == List.Without(q, i)
  {
    if i == 0 {
      NotOn(q[1..], q[0]);
    } else {
      WithoutAt(q[1..], i - 1);
      assert [q[0]] + q[1..][..i - 1] == q[..i];
    }
  }
}
