/** The life cycle of processes (userprog/wait_exit.c, the pid pool of thread/thread.c and the
    bookkeeping half of fork). */
module Processes {
  import opened Bitmaps

  const MAX_PIDS := 1024
  const INIT := 1              // the pid of init, which adopts orphans
  const NO_PARENT := -1

  /** Where a process is: running its program (or ready, or blocked on something else), woken inside
      sys_wait, asleep in it as TASK_WAITING, inside sys_exit, or gone but for its PCB (TASK_HANGING). */
  datatype Mode = Active | Woken | Waiting | Exiting | Zombie

  /** pid, parent_pid, where it is, exit_status; and, as history, which task the parent is. */
  datatype Task = Task(pid: int, parent: int, mode: Mode, code: int, up: nat)

  /** A child taken by sys_wait: which one, and the pid and status returned. */
  datatype Reap = Reap(who: nat, pid: int, code: int)

  /** All tasks, in the order of thread_all_list, and the pid bitmap; then the history: who is init,
      who has which pid, which pid every task ever had, what each passed to exit, what was reaped and when. */
  datatype Procs = Procs(tasks: map<nat, Task>, order: seq<nat>, bits: seq<bool>,
                         init: nat, byPid: map<int, nat>, pids: map<nat, int>, exits: map<nat, int>,
                         reaps: seq<Reap>, reapedAt: map<nat, int>)

  /** Storing an int32 in the int8_t exit_status. */
  function Int8(x: int): (c: int)
    ensures -128 <= c < 128 && (c - x) % 256 == 0
  {
    (x + 128) % 256 - 128
  }

  predicate Leaving(m: Mode) {
    m == Exiting || m == Zombie
  }

  // ---------- the invariant ----------

  /** Pids are unique, and the bitmap marks exactly those in use. */
  ghost predicate PidsOk(s: Procs) {
    && |s.bits| == MAX_PIDS
    && (forall t :: t in s.tasks ==> s.tasks[t].pid in s.byPid && s.byPid[s.tasks[t].pid] == t)
    && (forall p :: p in s.byPid ==>
         1 <= p <= MAX_PIDS && s.bits[p - 1] && s.byPid[p] in s.tasks && s.tasks[s.byPid[p]].pid == p)
    && (forall j :: 0 <= j < |s.bits| && s.bits[j] ==> j + 1 in s.byPid)
  }

  /** Init has no parent; everybody else with a parent has a living one that is not on its way out,
      so nobody is orphaned. */
  ghost predicate ParentsOk(s: Procs) {
    && s.init in s.tasks && s.tasks[s.init].pid == INIT && s.tasks[s.init].parent == NO_PARENT
    && (forall t :: t in s.tasks && s.tasks[t].parent != NO_PARENT ==>
          && s.tasks[t].up in s.tasks && s.tasks[t].up != t && s.tasks[s.tasks[t].up].pid == s.tasks[t].parent
          && !Leaving(s.tasks[s.tasks[t].up].mode))
    && (forall t :: t in s.tasks && Leaving(s.tasks[t].mode) ==> s.tasks[t].parent != NO_PARENT)
  }

  /** Nobody but init sleeps in sys_wait while a child of theirs is ready to be taken. */
  ghost predicate WaitersOk(s: Procs) {
    forall t :: t in s.tasks && s.tasks[t].mode == Zombie && s.tasks[t].up != s.init ==>
      s.tasks[t].up in s.tasks && s.tasks[s.tasks[t].up].mode != Waiting
  }

  /** The history: a zombie keeps the status it passed to exit; what was reaped is gone, was reaped
      once, and was reported with its own pid and status. */
  ghost predicate HistoryOk(s: Procs) {
    && (forall t :: t in s.tasks ==>
          t in s.pids && s.pids[t] == s.tasks[t].pid && t !in s.reapedAt
          && if Leaving(s.tasks[t].mode) then t in s.exits && s.tasks[t].code == Int8(s.exits[t]) else t !in s.exits)
    && (forall i :: 0 <= i < |s.reaps| ==>
          var r := s.reaps[i];
          && r.who !in s.tasks && r.who in s.reapedAt && s.reapedAt[r.who] == i
          && r.who in s.pids && r.pid == s.pids[r.who] && r.who in s.exits && r.code == Int8(s.exits[r.who]))
    && (forall t :: t in s.reapedAt ==> t in s.pids)
  }

  ghost predicate Listed(s: Procs) {
    forall t :: t in s.order <==> t in s.tasks
  }

  ghost predicate Ok(s: Procs) {
    Listed(s) && PidsOk(s) && ParentsOk(s) && WaitersOk(s) && HistoryOk(s)
  }

  // ---------- fork ----------

  /** Task t gets a child c with the given pid. */
  ghost function Forked(s: Procs, t: nat, c: nat, pid: int): (s': Procs)
    requires t in s.tasks && 1 <= pid <= |s.bits|
  {
    s.(tasks := s.tasks[c := Task(pid, s.tasks[t].pid, Active, 0, t)], order := s.order + [c],
       bits := s.bits[pid - 1 := true], byPid := s.byPid[pid := c], pids := s.pids[c := pid])
  }

  lemma PidIn(s: Procs, t: nat)
    requires PidsOk(s) && t in s.tasks
    ensures 1 <= s.tasks[t].pid <= MAX_PIDS == |s.bits|
  {
  }

  lemma ForkedPids(s: Procs, t: nat, c: nat, pid: int)
    requires PidsOk(s) && t in s.tasks && c !in s.tasks && 1 <= pid <= |s.bits| && !s.bits[pid - 1]
    ensures PidsOk(Forked(s, t, c, pid)) && pid !in s.byPid
  {
  }

  lemma ForkedParents(s: Procs, t: nat, c: nat, pid: int)
    requires ParentsOk(s) && WaitersOk(s)
    requires t in s.tasks && c !in s.tasks && 1 <= pid <= |s.bits| && s.tasks[t].mode == Active
    ensures ParentsOk(Forked(s, t, c, pid)) && WaitersOk(Forked(s, t, c, pid))
  {
  }

  lemma ForkedHistory(s: Procs, t: nat, c: nat, pid: int)
    requires HistoryOk(s) && t in s.tasks && c !in s.pids && c !in s.exits && 1 <= pid <= |s.bits|
    ensures HistoryOk(Forked(s, t, c, pid)) && c !in s.tasks
  {
  }

  lemma ForkedOk(s: Procs, t: nat, c: nat, pid: int)
    requires Ok(s) && t in s.tasks && s.tasks[t].mode == Active
    requires c !in s.pids && c !in s.exits && 1 <= pid <= |s.bits| && !s.bits[pid - 1]
    ensures Ok(Forked(s, t, c, pid))
  {
    hide PidsOk, ParentsOk, WaitersOk, HistoryOk;
    ForkedHistory(s, t, c, pid);
    ForkedPids(s, t, c, pid);
    ForkedParents(s, t, c, pid);
  }

  // ---------- exit ----------

  /** list_traversal with init_adopt_a_child: every child of pid p becomes a child of init. */
  ghost predicate Adopted(m: map<nat, Task>, m': map<nat, Task>, p: int, init: nat) {
    && m'.Keys == m.Keys
    && forall t :: t in m ==> m'[t] == if m[t].parent == p then m[t].(parent := INIT, up := init) else m[t]
  }

  /** The first half of sys_exit: status kept, children (now m) given to init. */
  ghost function ExitBegun(s: Procs, m: map<nat, Task>, t: nat, status: int): (s': Procs)
    requires t in m
  {
    s.(tasks := m[t := m[t].(mode := Exiting, code := Int8(status))], exits := s.exits[t := status])
  }

  lemma BegunPids(s: Procs, m: map<nat, Task>, t: nat, status: int)
    requires PidsOk(s) && t in s.tasks && Adopted(s.tasks, m, s.tasks[t].pid, s.init)
    ensures t in m && PidsOk(ExitBegun(s, m, t, status))
  {
    assert t in m.Keys;
    assert forall x :: x in m ==> x in m.Keys;
  }

  lemma BegunParents(s: Procs, m: map<nat, Task>, t: nat, status: int)
    requires ParentsOk(s) && t in s.tasks && Adopted(s.tasks, m, s.tasks[t].pid, s.init)
    requires s.tasks[t].mode == Active && s.tasks[t].parent != NO_PARENT && s.tasks[t].pid != NO_PARENT && t in m
    ensures ParentsOk(ExitBegun(s, m, t, status))
  {
    assert forall x :: x in m <==> x in m.Keys;
    var s' := ExitBegun(s, m, t, status);
    forall x | x in s'.tasks && s'.tasks[x].parent != NO_PARENT
      ensures s'.tasks[x].up in s'.tasks && s'.tasks[x].up != x && s'.tasks[s'.tasks[x].up].pid == s'.tasks[x].parent
        && !Leaving(s'.tasks[s'.tasks[x].up].mode)
    {
      assert s.tasks[x].parent != s.tasks[t].pid ==> s.tasks[x].up != t;
    }
  }

  lemma BegunWaiters(s: Procs, m: map<nat, Task>, t: nat, status: int)
    requires ParentsOk(s) && WaitersOk(s) && t in s.tasks && Adopted(s.tasks, m, s.tasks[t].pid, s.init) && t in m
    ensures WaitersOk(ExitBegun(s, m, t, status))
  {
    assert forall x :: x in m ==> x in m.Keys;
    hide PidsOk;
  }

  lemma BegunHistory(s: Procs, m: map<nat, Task>, t: nat, status: int)
    requires HistoryOk(s) && t in s.tasks && Adopted(s.tasks, m, s.tasks[t].pid, s.init) && s.tasks[t].mode == Active
      && t in m
    ensures HistoryOk(ExitBegun(s, m, t, status))
  {
    assert forall x :: x in m ==> x in m.Keys;
  }

  lemma ExitBegunOk(s: Procs, m: map<nat, Task>, t: nat, status: int)
    requires Ok(s) && t in s.tasks && Adopted(s.tasks, m, s.tasks[t].pid, s.init)
    requires s.tasks[t].mode == Active && s.tasks[t].parent != NO_PARENT
    ensures t in m && Ok(ExitBegun(s, m, t, status))
  {
    assert forall x :: x in m <==> x in m.Keys;
    hide PidsOk, ParentsOk, WaitersOk, HistoryOk;
    PidIn(s, t);
    BegunPids(s, m, t, status);
    BegunParents(s, m, t, status);
    BegunWaiters(s, m, t, status);
    BegunHistory(s, m, t, status);
  }

  /** The second half of sys_exit: a parent asleep in sys_wait is woken, then the task hangs. */
  ghost function ExitEnded(s: Procs, t: nat): (s': Procs)
    requires t in s.tasks && s.tasks[t].up in s.tasks
  {
    var p := s.tasks[t].up;
    var m := if s.tasks[p].mode == Waiting then s.tasks[p := s.tasks[p].(mode := Woken)] else s.tasks;
    s.(tasks := m[t := m[t].(mode := Zombie)])
  }

  lemma EndedParents(s: Procs, t: nat)
    requires ParentsOk(s) && t in s.tasks && s.tasks[t].mode == Exiting
    ensures s.tasks[t].up in s.tasks && s.tasks[t].up != t && ParentsOk(ExitEnded(s, t))
  {
  }

  lemma EndedWaiters(s: Procs, t: nat)
    requires WaitersOk(s) && t in s.tasks && s.tasks[t].mode == Exiting && s.tasks[t].up in s.tasks
      && s.tasks[t].up != t
    ensures WaitersOk(ExitEnded(s, t))
  {
  }

  lemma EndedRest(s: Procs, t: nat)
    requires HistoryOk(s) && Listed(s) && PidsOk(s) && t in s.tasks && s.tasks[t].mode == Exiting
      && s.tasks[t].up in s.tasks
    ensures HistoryOk(ExitEnded(s, t)) && Listed(ExitEnded(s, t)) && PidsOk(ExitEnded(s, t))
  {
  }

  lemma ExitEndedOk(s: Procs, t: nat)
    requires Ok(s) && t in s.tasks && s.tasks[t].mode == Exiting
    ensures s.tasks[t].up in s.tasks && s.tasks[t].up != t && Ok(ExitEnded(s, t))
  {
    hide PidsOk, ParentsOk, WaitersOk, HistoryOk, Listed;
    EndedParents(s, t);
    EndedWaiters(s, t);
    EndedRest(s, t);
  }

  // ---------- wait ----------

  /** The zombie child c is taken by t: its pid and PCB are free again. */
  ghost function Reaped(s: Procs, t: nat, c: nat): (s': Procs)
    requires t in s.tasks && c in s.tasks && 1 <= s.tasks[c].pid <= |s.bits|
  {
    var k := s.tasks[c];
    s.(tasks := (s.tasks - {c})[t := s.tasks[t].(mode := Active)], order := Taken(s.order, c),
       bits := s.bits[k.pid - 1 := false], byPid := s.byPid - {k.pid},
       reaps := s.reaps + [Reap(c, k.pid, k.code)], reapedAt := s.reapedAt[c := |s.reaps|])
  }

  /** list_remove */
  function Taken(q: seq<nat>, c: nat): (q': seq<nat>)
    ensures forall x :: x in q' <==> x in q && x != c
  {
    if q == [] then [] else
      assert q == [q[0]] + q[1..];
      if q[0] == c then Taken(q[1..], c) else [q[0]] + Taken(q[1..], c)
  }

  /** Task x is a child of pid p, and hanging if that is asked. */
  predicate Wanted(tasks: map<nat, Task>, p: int, hanging: bool, x: nat) {
    x in tasks && tasks[x].parent == p && (hanging ==> tasks[x].mode == Zombie)
  }

  /** c is the first such task of the list. */
  ghost predicate FirstChild(tasks: map<nat, Task>, order: seq<nat>, p: int, hanging: bool, c: nat) {
    && Wanted(tasks, p, hanging, c)
    && exists i :: 0 <= i < |order| && order[i] == c && forall j :: 0 <= j < i ==> !Wanted(tasks, p, hanging, order[j])
  }

  ghost predicate ChildOf(s: Procs, c: nat, t: nat) {
    c in s.tasks && t in s.tasks && s.tasks[c].parent == s.tasks[t].pid
  }

  lemma ReapedPids(s: Procs, t: nat, c: nat)
    requires PidsOk(s) && t in s.tasks && c in s.tasks && c != t
    ensures 1 <= s.tasks[c].pid <= |s.bits| && PidsOk(Reaped(s, t, c))
  {
    hide Taken;
  }

  lemma ReapedParents(s: Procs, t: nat, c: nat)
    requires ParentsOk(s) && ChildOf(s, c, t) && s.tasks[c].mode == Zombie && c != t && !Leaving(s.tasks[t].mode)
    requires 1 <= s.tasks[c].pid <= |s.bits|
    ensures ParentsOk(Reaped(s, t, c))
  {
    hide Taken;
  }

  lemma ReapedWaiters(s: Procs, t: nat, c: nat)
    requires ParentsOk(s) && WaitersOk(s) && ChildOf(s, c, t) && s.tasks[c].mode == Zombie && c != t
    requires 1 <= s.tasks[c].pid <= |s.bits|
    ensures WaitersOk(Reaped(s, t, c))
  {
    hide Taken;
  }

  lemma ReapedHistory(s: Procs, t: nat, c: nat)
    requires HistoryOk(s) && t in s.tasks && c in s.tasks && s.tasks[c].mode == Zombie && c != t
      && !Leaving(s.tasks[t].mode)
    requires 1 <= s.tasks[c].pid <= |s.bits|
    ensures HistoryOk(Reaped(s, t, c))
  {
    hide Taken;
  }

  lemma ReapedOk(s: Procs, t: nat, c: nat)
    requires Ok(s) && ChildOf(s, c, t) && s.tasks[c].mode == Zombie && !Leaving(s.tasks[t].mode)
    ensures c != t && 1 <= s.tasks[c].pid <= |s.bits| && Ok(Reaped(s, t, c))
  {
    hide PidsOk, ParentsOk, WaitersOk, HistoryOk;
    ReapedPids(s, t, c);
    ReapedParents(s, t, c);
    ReapedWaiters(s, t, c);
    ReapedHistory(s, t, c);
  }

  /** Task t changes its mode inside sys_wait. */
  ghost function SetMode(s: Procs, t: nat, mode: Mode): (s': Procs)
    requires t in s.tasks
  {
    s.(tasks := s.tasks[t := s.tasks[t].(mode := mode)])
  }

  lemma SetModeOk(s: Procs, t: nat, mode: Mode)
    requires Ok(s) && t in s.tasks && !Leaving(s.tasks[t].mode) && !Leaving(mode)
    requires mode == Waiting ==> forall c :: ChildOf(s, c, t) ==> s.tasks[c].mode != Zombie
    ensures Ok(SetMode(s, t, mode))
  {
    hide PidsOk, ParentsOk, WaitersOk, HistoryOk, Listed;
    ModeParents(s, t, mode);
    ModeRest(s, t, mode);
  }

  lemma ModeParents(s: Procs, t: nat, mode: Mode)
    requires ParentsOk(s) && WaitersOk(s) && t in s.tasks && !Leaving(s.tasks[t].mode) && !Leaving(mode)
    requires mode == Waiting ==> forall c :: ChildOf(s, c, t) ==> s.tasks[c].mode != Zombie
    ensures ParentsOk(SetMode(s, t, mode)) && WaitersOk(SetMode(s, t, mode))
  {
    assert forall c :: c in s.tasks && s.tasks[c].mode == Zombie && s.tasks[c].up == t ==> ChildOf(s, c, t);
  }

  lemma ModeRest(s: Procs, t: nat, mode: Mode)
    requires HistoryOk(s) && Listed(s) && PidsOk(s) && t in s.tasks && !Leaving(s.tasks[t].mode) && !Leaving(mode)
    ensures HistoryOk(SetMode(s, t, mode)) && Listed(SetMode(s, t, mode)) && PidsOk(SetMode(s, t, mode))
  {
  }

  // ---------- the code ----------

  /** What sys_wait comes to: a child taken, no child at all, or asleep until one exits. */
  datatype WaitResult = Took(pid: int, status: int) | NoChild | Sleeps

  ghost function Started(init: nat): (s: Procs) {
    Procs(map[init := Task(INIT, NO_PARENT, Active, 0, init)], [init], seq(MAX_PIDS, k => k == 0), init,
          map[INIT := init], map[init := INIT], map[], [], map[])
  }

  lemma StartedOk(init: nat)
    ensures Ok(Started(init))
  {
    var s := Started(init);
    assert s.tasks.Keys == {init};
    assert PidsOk(s) by {
      hide HistoryOk, Listed, WaitersOk, ParentsOk;
    }
  }

  class Table {
    const init: nat
    var tasks: map<nat, Task>
    var order: seq<nat>            // thread_all_list
    var bits: seq<bool>            // pid_bitmap
    ghost var byPid: map<int, nat>
    ghost var pids: map<nat, int>
    ghost var exits: map<nat, int>
    ghost var reaps: seq<Reap>
    ghost var reapedAt: map<nat, int>

    ghost function S(): Procs
      reads this
    {
      Procs(tasks, order, bits, init, byPid, pids, exits, reaps, reapedAt)
    }

    /** thread_init: init is the first task and gets pid 1. */
    constructor (init: nat)
      ensures S() == Started(init) && Ok(S())
    {
      this.init := init;
      tasks := map[init := Task(INIT, NO_PARENT, Active, 0, init)];
      order := [init];
      bits := seq(MAX_PIDS, k => k == 0);
      byPid, pids, exits, reaps, reapedAt := map[INIT := init], map[init := INIT], map[], [], map[];
      StartedOk(init);
      hide *;
    }

    /** fork_pid and the PCB of the child; a full pid bitmap stops the kernel. */
    method Fork(t: nat, c: nat) returns (pid: int)
      requires Ok(S()) && t in tasks && tasks[t].mode == Active && c !in S().pids && c !in S().exits
      modifies this
      ensures pid == -1 <==> Full(old(bits))
      ensures pid != -1 ==>
        && Ok(S()) && LeastRun(old(bits), pid - 1, 1) && 1 <= pid <= |old(bits)| && S() == Forked(old(S()), t, c, pid)
    {
      hide Ok;
      var r := ScanBits(bits, 1);
      if r.Panic? {
        return -1;
      }
      assert RunAt(bits, r.index, 1);
      pid := r.index + 1;
      ForkedOk(S(), t, c, pid);
      bits := bits[r.index := true];
      tasks := tasks[c := Task(pid, tasks[t].pid, Active, 0, t)];
      order := order + [c];
      byPid, pids := byPid[pid := c], pids[c := pid];
    }

    /** The first half of sys_exit; a task without a parent stops the kernel (ok is false). */
    method ExitBegin(t: nat, status: int) returns (ok: bool, ghost m: map<nat, Task>)
      requires Ok(S()) && t in tasks && tasks[t].mode == Active
      modifies this
      ensures ok <==> old(tasks)[t].parent != NO_PARENT
      ensures ok ==>
        Ok(S()) && Adopted(old(tasks), m, old(tasks)[t].pid, init) && t in m && S() == ExitBegun(old(S()), m, t, status)
    {
      m := tasks;
      if tasks[t].parent == NO_PARENT {
        return false, m;
      }
      ok := true;
      assert Listed(S());
      var kids := Adopt(tasks, order, tasks[t].pid, init);
      m := kids;
      hide Ok, Adopted;
      ExitBegunOk(S(), m, t, status);
      tasks := kids[t := kids[t].(mode := Exiting, code := Int8(status))];
      exits := exits[t := status];
    }

    /** The second half of sys_exit. */
    method ExitEnd(t: nat)
      requires Ok(S()) && t in tasks && tasks[t].mode == Exiting
      modifies this
      ensures Ok(S()) && t in old(tasks) && old(tasks)[t].up in old(tasks) && S() == ExitEnded(old(S()), t)
    {
      ExitEndedOk(S(), t);
      ParentFound(S(), t);
      hide Ok;
      var p := tasks[t].up;
      if tasks[p].mode == Waiting {
        tasks := tasks[p := tasks[p].(mode := Woken)];
      }
      tasks := tasks[t := tasks[t].(mode := Zombie)];
    }

    lemma Fields()
      ensures S() == Procs(tasks, order, bits, init, byPid, pids, exits, reaps, reapedAt)
    {
    }

    /** One round of sys_wait. */
    method Wait(t: nat) returns (r: WaitResult, c: nat)
      requires Ok(S()) && t in S().tasks && (S().tasks[t].mode == Active || S().tasks[t].mode == Woken)
      modifies this
      ensures Ok(S()) && Waits(old(S()), S(), t, r, c)
    {
      hide *;
      ghost var s := S();
      Fields();
      Parts(s);
      NotLeaving(s, t);
      var found;
      found, c := FindChild(tasks, order, tasks[t].pid, true);
      if found {
        ChildIs(s, c, t);
        ReapedOk(s, t, c);
        ReapedIs(s, t, c);
        var k := tasks[c];
        r := Took(k.pid, k.code);
        order := Taken(order, c);
        tasks := (tasks - {c})[t := tasks[t].(mode := Active)];
        bits := bits[k.pid - 1 := false];
        byPid := byPid - {k.pid};
        reapedAt := reapedAt[c := |reaps|];
        reaps := reaps + [Reap(c, k.pid, k.code)];
        Fields();
        WaitTook(s, t, c);
        return;
      }
      found, c := FindChild(tasks, order, tasks[t].pid, false);
      WaitNone(s, t, c, found);
      r := if found then Sleeps else NoChild;
      tasks := tasks[t := tasks[t].(mode := if found then Waiting else Active)];
      Fields();
    }
  }

  /** What one round of sys_wait does: the first hanging child of the list is taken, with its pid and
      status, if there is one; without any child it fails; otherwise the task sleeps. */
  ghost predicate Waits(s: Procs, s': Procs, t: nat, r: WaitResult, c: nat) {
    && t in s.tasks
    && match r
       case Took(pid, status) =>
         && ChildOf(s, c, t) && s.tasks[c].mode == Zombie && pid == s.tasks[c].pid && status == s.tasks[c].code
         && FirstChild(s.tasks, s.order, s.tasks[t].pid, true, c)
         && 1 <= pid <= |s.bits| && s' == Reaped(s, t, c)
       case NoChild => (forall x :: !ChildOf(s, x, t)) && s' == SetMode(s, t, Active)
       case Sleeps =>
         && ChildOf(s, c, t) && (forall x :: ChildOf(s, x, t) ==> s.tasks[x].mode != Zombie)
         && s' == SetMode(s, t, Waiting)
  }

  lemma Parts(s: Procs)
    requires Ok(s)
    ensures forall t :: t in s.order <==> t in s.tasks
  {
  }

  lemma NotLeaving(s: Procs, t: nat)
    requires t in s.tasks && (s.tasks[t].mode == Active || s.tasks[t].mode == Woken)
    ensures !Leaving(s.tasks[t].mode)
  {
  }

  lemma ChildIs(s: Procs, c: nat, t: nat)
    requires c in s.tasks && t in s.tasks
    ensures ChildOf(s, c, t) <==> s.tasks[c].parent == s.tasks[t].pid
  {
  }

  lemma ReapedIs(s: Procs, t: nat, c: nat)
    requires t in s.tasks && c in s.tasks && 1 <= s.tasks[c].pid <= |s.bits|
    ensures var k := s.tasks[c];
      Reaped(s, t, c) ==
      Procs((s.tasks - {c})[t := s.tasks[t].(mode := Active)], Taken(s.order, c), s.bits[k.pid - 1 := false], s.init,
            s.byPid - {k.pid}, s.pids, s.exits, s.reaps + [Reap(c, k.pid, k.code)], s.reapedAt[c := |s.reaps|])
  {
  }

  lemma WaitTook(s: Procs, t: nat, c: nat)
    requires ChildOf(s, c, t) && c in s.tasks && s.tasks[c].mode == Zombie && t in s.tasks
      && 1 <= s.tasks[c].pid <= |s.bits| && FirstChild(s.tasks, s.order, s.tasks[t].pid, true, c)
    ensures Waits(s, Reaped(s, t, c), t, Took(s.tasks[c].pid, s.tasks[c].code), c)
  {
    hide Reaped;
  }

  lemma WaitNone(s: Procs, t: nat, c: nat, found: bool)
    requires Ok(s) && t in s.tasks && !Leaving(s.tasks[t].mode)
    requires forall x :: x in s.tasks ==> s.tasks[x].parent != s.tasks[t].pid || s.tasks[x].mode != Zombie
    requires found ==> c in s.tasks && s.tasks[c].parent == s.tasks[t].pid
    requires !found ==> forall x :: x in s.tasks ==> s.tasks[x].parent != s.tasks[t].pid
    ensures var mode := if found then Waiting else Active;
      && SetMode(s, t, mode) == s.(tasks := s.tasks[t := s.tasks[t].(mode := mode)])
      && Ok(SetMode(s, t, mode)) && Waits(s, SetMode(s, t, mode), t, if found then Sleeps else NoChild, c)
  {
    hide Ok;
    SetModeOk(s, t, if found then Waiting else Active);
  }

  /** pid2thread finds the parent: the one task with that pid. */
  lemma ParentFound(s: Procs, t: nat)
    requires Ok(s) && t in s.tasks && Leaving(s.tasks[t].mode)
    ensures forall p :: p in s.tasks && s.tasks[p].pid == s.tasks[t].parent <==> p == s.tasks[t].up
  {
    hide HistoryOk, WaitersOk, Listed;
  }

  /** list_traversal with init_adopt_a_child. */
  method Adopt(tasks: map<nat, Task>, order: seq<nat>, p: int, init: nat) returns (m: map<nat, Task>)
    requires forall t :: t in order <==> t in tasks
    requires p != INIT
    ensures Adopted(tasks, m, p, init)
  {
    m := tasks;
    var i := 0;
    while i < |order|
      invariant 0 <= i <= |order| && m.Keys == tasks.Keys
      invariant forall t :: t in tasks ==>
        m[t] == if t in order[..i] && tasks[t].parent == p then tasks[t].(parent := INIT, up := init) else tasks[t]
    {
      var x := order[i];
      assert x in tasks;
      assert order[..i + 1] == order[..i] + [x];
      if m[x].parent == p {
        m := m[x := m[x].(parent := INIT, up := init)];
      }
      i := i + 1;
    }
    assert order[..i] == order;
  }

  /** list_traversal with find_child or find_hanging_child: the first such child. */
  method FindChild(tasks: map<nat, Task>, order: seq<nat>, p: int, hanging: bool) returns (found: bool, c: nat)
    requires forall t :: t in order <==> t in tasks
    ensures found ==> c in tasks && tasks[c].parent == p && (hanging ==> tasks[c].mode == Zombie)
    ensures found ==> FirstChild(tasks, order, p, hanging, c)
    ensures !found ==> forall t :: t in tasks ==> tasks[t].parent != p || (hanging && tasks[t].mode != Zombie)
  {
    var i := 0;
    while i < |order|
      invariant 0 <= i <= |order|
        && forall t :: t in order[..i] ==> t in tasks && (tasks[t].parent != p || (hanging && tasks[t].mode != Zombie))
    {
      var x := order[i];
      assert x in tasks;
      assert order[..i + 1] == order[..i] + [x];
      if tasks[x].parent == p && (hanging ==> tasks[x].mode == Zombie) {
        assert forall j :: 0 <= j < i ==> order[j] in order[..i];
        return true, x;
      }
      i := i + 1;
    }
    assert order[..i] == order;
    return false, 0;
  }

  // ---------- runs ----------

  datatype Step =
    | DoFork(t: nat, c: nat, pid: int)
    | DoExitBegin(t: nat, status: int, m: map<nat, Task>)
    | DoExitEnd(t: nat)
    | DoWait(t: nat, r: WaitResult, c: nat)

  ghost predicate Does(s: Procs, s': Procs, a: Step) {
    match a
    case DoFork(t, c, pid) =>
      && t in s.tasks && s.tasks[t].mode == Active && c !in s.pids && c !in s.exits
      && 1 <= pid <= |s.bits| && !s.bits[pid - 1] && s' == Forked(s, t, c, pid)
    case DoExitBegin(t, status, m) =>
      && t in s.tasks && t in m && s.tasks[t].mode == Active && s.tasks[t].parent != NO_PARENT
      && Adopted(s.tasks, m, s.tasks[t].pid, s.init) && s' == ExitBegun(s, m, t, status)
    case DoExitEnd(t) =>
      t in s.tasks && s.tasks[t].mode == Exiting && s.tasks[t].up in s.tasks && s' == ExitEnded(s, t)
    case DoWait(t, r, c) =>
      t in s.tasks && (s.tasks[t].mode == Active || s.tasks[t].mode == Woken) && Waits(s, s', t, r, c)
  }

  lemma DoesOk(s: Procs, s': Procs, a: Step)
    requires Ok(s) && Does(s, s', a)
    ensures Ok(s')
  {
    hide Ok, Forked, ExitBegun, ExitEnded, Reaped, Adopted, ChildOf;
    match a
    case DoFork(t, c, pid) => ForkedOk(s, t, c, pid);
    case DoExitBegin(t, status, m) => ExitBegunOk(s, m, t, status);
    case DoExitEnd(t) => ExitEndedOk(s, t);
    case DoWait(t, r, c) =>
      match r
      case Took(_, _) => ReapedOk(s, t, c);
      case NoChild => SetModeOk(s, t, Active);
      case Sleeps => SetModeOk(s, t, Waiting);
  }

  ghost predicate Run(ss: seq<Procs>, steps: seq<Step>) {
    |ss| == |steps| + 1 && forall i :: 0 <= i < |steps| ==> Does(ss[i], ss[i + 1], steps[i])
  }

  lemma {:induction false} RunOk(ss: seq<Procs>, steps: seq<Step>, n: nat)
    requires Run(ss, steps) && Ok(ss[0]) && n < |ss|
    ensures Ok(ss[n])
  {
    hide Ok, Does;
    if n > 0 {
      RunOk(ss, steps, n - 1);
      assert Does(ss[n - 1], ss[n - 1 + 1], steps[n - 1]);
      DoesOk(ss[n - 1], ss[n], steps[n - 1]);
    }
  }

  /** In every run pids are unique until reaped, every parent pid names a living task, and nobody but
      init is asleep in sys_wait with a hanging child. */
  lemma RunParents(ss: seq<Procs>, steps: seq<Step>, n: nat, t: nat, u: nat)
    requires Run(ss, steps) && Ok(ss[0]) && n < |ss| && t in ss[n].tasks && u in ss[n].tasks
    ensures ss[n].tasks[t].pid == ss[n].tasks[u].pid ==> t == u
    ensures ss[n].tasks[t].parent != NO_PARENT ==>
      exists p :: p in ss[n].tasks && ss[n].tasks[p].pid == ss[n].tasks[t].parent
    ensures ss[n].tasks[t].mode == Waiting && ss[n].tasks[t].pid != INIT ==>
      ss[n].tasks[u].parent == ss[n].tasks[t].pid ==> ss[n].tasks[u].mode != Zombie
  {
    RunOk(ss, steps, n);
    var s := ss[n];
    hide HistoryOk, Listed, Does;
    assert s.tasks[t].pid != NO_PARENT;
  }

  /** In every run each exited child is reaped at most once, with its own pid and the low byte of the
      status it passed to exit. */
  lemma RunReaps(ss: seq<Procs>, steps: seq<Step>, n: nat, i: nat, j: nat)
    requires Run(ss, steps) && Ok(ss[0]) && n < |ss| && i < |ss[n].reaps| && j < |ss[n].reaps|
    ensures ss[n].reaps[i].who == ss[n].reaps[j].who ==> i == j
    ensures var r := ss[n].reaps[i];
      && r.who in ss[n].pids && r.pid == ss[n].pids[r.who]
      && r.who in ss[n].exits && r.code == Int8(ss[n].exits[r.who]) && r.who !in ss[n].tasks
  {
    RunOk(ss, steps, n);
    hide PidsOk, ParentsOk, WaitersOk, Does;
  }

  lemma InitFacts(s: Procs, t: nat)
    requires Ok(s) && t in s.tasks && s.tasks[t].parent != NO_PARENT
    ensures s.init in s.tasks && s.tasks[s.init].pid == INIT && s.tasks[s.init].parent == NO_PARENT && s.init != t
    ensures s.tasks[t].pid != NO_PARENT
    ensures s.tasks[t].up in s.tasks && !Leaving(s.tasks[s.tasks[t].up].mode) && s.tasks[t].parent != s.tasks[t].pid
  {
    hide HistoryOk, Listed, WaitersOk;
    PidIn(s, t);
  }

  // ---------- when init sleeps although a child is ready ----------

  /** Init sleeps in sys_wait while a child of its own is hanging. */
  ghost predicate InitStuck(s: Procs) {
    s.init in s.tasks && s.tasks[s.init].mode == Waiting
    && exists b :: ChildOf(s, b, s.init) && s.tasks[b].mode == Zombie
  }

  /** Step a is the exit of a task with a hanging child, begun while init sleeps in sys_wait. */
  ghost predicate HandsOver(s: Procs, a: Step) {
    && a.DoExitBegin? && s.init in s.tasks && s.tasks[s.init].mode == Waiting
    && exists b :: ChildOf(s, b, a.t) && s.tasks[b].mode == Zombie
  }

  /** Step a is the end of the exit of a child of init, which wakes it. */
  ghost predicate WakesInit(s: Procs, a: Step) {
    a.DoExitEnd? && a.t in s.tasks && s.tasks[a.t].up == s.init
  }

  lemma InitIs(s: Procs)
    requires Ok(s)
    ensures s.init in s.tasks && s.tasks[s.init].pid == INIT && s.tasks[s.init].parent == NO_PARENT
    ensures forall c :: ChildOf(s, c, s.init) <==> c in s.tasks && s.tasks[c].parent == INIT
    ensures forall c :: c in s.tasks && s.tasks[c].parent != NO_PARENT ==>
        s.tasks[c].parent != INIT || s.tasks[c].up == s.init
    ensures forall c :: c in s.tasks && s.tasks[c].parent != NO_PARENT && s.tasks[c].up == s.init ==>
        s.tasks[c].parent == INIT
    ensures forall c :: c in s.tasks && Leaving(s.tasks[c].mode) ==> s.tasks[c].parent != NO_PARENT
    ensures forall c :: c in s.tasks && s.tasks[c].pid == INIT ==> c == s.init
  {
    hide HistoryOk, Listed, WaitersOk;
    forall c | c in s.tasks && s.tasks[c].parent == INIT
      ensures s.tasks[c].up == s.init
    {
      assert s.byPid[s.tasks[s.tasks[c].up].pid] == s.tasks[c].up;
      assert s.byPid[s.tasks[s.init].pid] == s.init;
    }
  }

  lemma ForkStuck(s: Procs, t: nat, c: nat, pid: int)
    requires Ok(s) && t in s.tasks && s.tasks[t].mode == Active && c !in s.tasks && 1 <= pid <= |s.bits|
    ensures InitStuck(Forked(s, t, c, pid)) <==> InitStuck(s)
  {
    InitIs(s);
    hide Ok;
    var s' := Forked(s, t, c, pid);
    assert forall b :: b in s.tasks ==> s'.tasks[b] == s.tasks[b];
    assert s'.tasks[c].mode == Active;
    assert forall b :: b in s.tasks && ChildOf(s, b, s.init) ==> ChildOf(s', b, s.init);
    assert forall b :: b in s.tasks && ChildOf(s', b, s.init) ==> ChildOf(s, b, s.init);
  }

  lemma BegunChild(s: Procs, m: map<nat, Task>, t: nat, status: int, b: nat)
    requires t in s.tasks && t in m && s.tasks[t].mode == Active && s.tasks[t].parent != s.tasks[t].pid
    requires Adopted(s.tasks, m, s.tasks[t].pid, s.init) && s.init != t
    requires s.init in s.tasks && s.tasks[s.init].pid == INIT && s.tasks[s.init].parent != s.tasks[t].pid
    ensures var s' := ExitBegun(s, m, t, status);
      && s.init in s'.tasks && s'.tasks[s.init] == s.tasks[s.init]
      && (ChildOf(s', b, s.init) && s'.tasks[b].mode == Zombie <==>
          (ChildOf(s, b, s.init) || ChildOf(s, b, t)) && s.tasks[b].mode == Zombie)
  {
    assert b in m <==> b in m.Keys;
    assert s.init in m.Keys;
    hide Int8;
  }

  lemma BegunStuck(s: Procs, m: map<nat, Task>, t: nat, status: int)
    requires Ok(s) && t in s.tasks && t in m && s.tasks[t].mode == Active && s.tasks[t].parent != NO_PARENT
    requires Adopted(s.tasks, m, s.tasks[t].pid, s.init)
    ensures InitStuck(ExitBegun(s, m, t, status)) <==> InitStuck(s) || HandsOver(s, DoExitBegin(t, status, m))
  {
    InitFacts(s, t);
    hide Ok, Adopted;
    var s' := ExitBegun(s, m, t, status);
    assert s'.init == s.init;
    BegunChild(s, m, t, status, t);
    forall b
      ensures ChildOf(s', b, s.init) && s'.tasks[b].mode == Zombie <==>
              (ChildOf(s, b, s.init) || ChildOf(s, b, t)) && s.tasks[b].mode == Zombie
    {
      BegunChild(s, m, t, status, b);
    }
    hide ExitBegun;
  }

  lemma EndedStuck(s: Procs, t: nat)
    requires Ok(s) && t in s.tasks && s.tasks[t].mode == Exiting && s.tasks[t].up in s.tasks
    ensures InitStuck(ExitEnded(s, t)) <==> InitStuck(s) && s.tasks[t].up != s.init
  {
    InitIs(s);
    hide Ok;
    var s' := ExitEnded(s, t);
    assert s.tasks[t].up != s.init ==> s'.tasks[s.init] == s.tasks[s.init];
    forall b | s.tasks[t].up != s.init
      ensures ChildOf(s', b, s.init) && s'.tasks[b].mode == Zombie <==>
        ChildOf(s, b, s.init) && s.tasks[b].mode == Zombie
    {
    }
  }

  lemma ReapedStuck(s: Procs, t: nat, c: nat)
    requires Ok(s) && ChildOf(s, c, t) && s.tasks[c].mode == Zombie
      && (s.tasks[t].mode == Active || s.tasks[t].mode == Woken)
    requires 1 <= s.tasks[c].pid <= |s.bits|
    ensures InitStuck(Reaped(s, t, c)) <==> InitStuck(s)
  {
    InitIs(s);
    assert c != s.init;
    ReapedIs(s, t, c);
    var s' := Reaped(s, t, c);
    hide Ok, Taken, Reaped;
    assert t != s.init ==> s'.tasks[s.init] == s.tasks[s.init];
    forall b | t != s.init
      ensures ChildOf(s', b, s.init) && s'.tasks[b].mode == Zombie <==>
        ChildOf(s, b, s.init) && s.tasks[b].mode == Zombie
    {
    }
  }

  lemma ModeStuck(s: Procs, t: nat, mode: Mode)
    requires Ok(s) && t in s.tasks && (s.tasks[t].mode == Active || s.tasks[t].mode == Woken) && !Leaving(mode)
    requires mode == Waiting ==> forall c :: ChildOf(s, c, t) ==> s.tasks[c].mode != Zombie
    ensures InitStuck(SetMode(s, t, mode)) <==> InitStuck(s)
  {
    InitIs(s);
    hide Ok;
    var s' := SetMode(s, t, mode);
    forall b
      ensures ChildOf(s', b, s.init) && s'.tasks[b].mode == Zombie <==>
        ChildOf(s, b, s.init) && s.tasks[b].mode == Zombie
    {
    }
  }

  /** Every step, exactly: init gets stuck by the hand-over of a hanging child and by nothing else, and
      only the exit of a child of its own frees it. */
  lemma StepStuck(s: Procs, s': Procs, a: Step)
    requires Ok(s) && Does(s, s', a)
    ensures InitStuck(s') <==> (InitStuck(s) && !WakesInit(s, a)) || HandsOver(s, a)
  {
    hide Ok, Forked, ExitBegun, ExitEnded, Reaped, SetMode, Adopted, ChildOf, InitStuck;
    match a
    case DoFork(t, c, pid) =>
      Unused(s, c);
      ForkStuck(s, t, c, pid);
    case DoExitBegin(t, status, m) => BegunStuck(s, m, t, status);
    case DoExitEnd(t) => EndedStuck(s, t);
    case DoWait(t, r, c) =>
      match r
      case Took(_, _) => ReapedStuck(s, t, c);
      case NoChild => ModeStuck(s, t, Active);
      case Sleeps => ModeStuck(s, t, Waiting);
  }

  lemma Unused(s: Procs, c: nat)
    requires Ok(s) && c !in s.pids
    ensures c !in s.tasks
  {
  }

  /** Step i hands init a hanging child and no step before the n-th wakes it again. */
  ghost predicate StuckSince(ss: seq<Procs>, steps: seq<Step>, i: nat, n: nat)
    requires |ss| == |steps| + 1
  {
    && i < n <= |steps| && HandsOver(ss[i], steps[i])
    && forall j :: i < j < n ==> !WakesInit(ss[j], steps[j])
  }

  /** Every run, exactly: init is asleep beside a hanging child if and only if, earlier in the run, a
      task with a hanging child began to exit while init slept, and no child of init has exited since. */
  lemma {:induction false} RunStuck(ss: seq<Procs>, steps: seq<Step>, n: nat)
    requires Run(ss, steps) && Ok(ss[0]) && !InitStuck(ss[0]) && n < |ss|
    ensures InitStuck(ss[n]) <==> exists i: nat :: StuckSince(ss, steps, i, n)
  {
    hide Ok, Does, InitStuck, HandsOver, WakesInit;
    if n > 0 {
      RunStuck(ss, steps, n - 1);
      RunOk(ss, steps, n - 1);
      assert Does(ss[n - 1], ss[n - 1 + 1], steps[n - 1]);
      StepStuck(ss[n - 1], ss[n], steps[n - 1]);
      if HandsOver(ss[n - 1], steps[n - 1]) {
        assert StuckSince(ss, steps, n - 1, n);
      } else {
        var k := n - 1;
        if i: nat :| StuckSince(ss, steps, i, k) && !WakesInit(ss[k], steps[k]) {
          assert StuckSince(ss, steps, i, n);
        }
        if i: nat :| StuckSince(ss, steps, i, n) {
          assert !WakesInit(ss[k], steps[k]) && StuckSince(ss, steps, i, k);
        }
      }
    }
  }

  /** So init is never stuck exactly when no exit of the run meets the guard. */
  lemma RunNeverStuck(ss: seq<Procs>, steps: seq<Step>)
    requires Run(ss, steps) && Ok(ss[0]) && !InitStuck(ss[0])
    ensures (forall n :: 0 <= n < |ss| ==> !InitStuck(ss[n])) <==>
      (forall i :: 0 <= i < |steps| ==> !HandsOver(ss[i], steps[i]))
  {
    hide Ok, Does, InitStuck, HandsOver, WakesInit;
    if n :| 0 <= n < |ss| && InitStuck(ss[n]) {
      RunStuck(ss, steps, n);
      var i: nat :| StuckSince(ss, steps, i, n);
      assert HandsOver(ss[i], steps[i]);
    }
    if i :| 0 <= i < |steps| && HandsOver(ss[i], steps[i]) {
      var n: nat := i + 1;
      RunStuck(ss, steps, n);
      assert StuckSince(ss, steps, i, n);
      assert InitStuck(ss[n]);
    }
  }

  /** A whole sys_exit of t: afterwards init is stuck exactly when it was, or slept in sys_wait while t had
      a hanging child, and the parent that t then wakes is not init; the hanging children of t are its own. */
  lemma AdoptionDoesNotWake(s: Procs, m: map<nat, Task>, t: nat, status: int)
    requires Ok(s) && t in s.tasks && s.tasks[t].mode == Active && s.tasks[t].parent != NO_PARENT
    requires Adopted(s.tasks, m, s.tasks[t].pid, s.init) && t in m
    ensures var s1 := ExitBegun(s, m, t, status);
      && Ok(s1) && s1.tasks[t].up in s1.tasks
      && var s2 := ExitEnded(s1, t);
         && Ok(s2)
         && (InitStuck(s2) <==>
             (InitStuck(s) || HandsOver(s, DoExitBegin(t, status, m))) && s.tasks[t].up != s.init)
         && forall b :: ChildOf(s, b, t) && s.tasks[b].mode == Zombie ==>
              ChildOf(s2, b, s.init) && s2.tasks[b].mode == Zombie
  {
    ExitBegunOk(s, m, t, status);
    InitFacts(s, t);
    BegunStuck(s, m, t, status);
    BegunUp(s, m, t, status);
    var s1 := ExitBegun(s, m, t, status);
    hide *;
    ExitEndedOk(s1, t);
    EndedStuck(s1, t);
    forall b | ChildOf(s, b, t) && b in s.tasks && s.tasks[b].mode == Zombie
      ensures ChildOf(ExitEnded(s1, t), b, s.init) && ExitEnded(s1, t).tasks[b].mode == Zombie
    {
      HandedToInit(s, m, t, status, b);
    }
    KnownTasks(s, t);
  }

  lemma KnownTasks(s: Procs, t: nat)
    ensures forall b :: ChildOf(s, b, t) ==> b in s.tasks
  {
  }

  /** A hanging child of the exiting task becomes init's and stays as it is. */
  lemma HandedToInit(s: Procs, m: map<nat, Task>, t: nat, status: int, b: nat)
    requires Ok(s) && t in s.tasks && s.tasks[t].mode == Active && s.tasks[t].parent != NO_PARENT
    requires Adopted(s.tasks, m, s.tasks[t].pid, s.init) && t in m && ChildOf(s, b, t) && s.tasks[b].mode == Zombie
    ensures var s1 := ExitBegun(s, m, t, status);
      && s1.tasks[t].up in s1.tasks
      && var s2 := ExitEnded(s1, t);
         b in s2.tasks && ChildOf(s2, b, s.init) && s2.tasks[b].mode == Zombie
  {
    hide Ok;
    ExitBegunOk(s, m, t, status);
    ExitEndedOk(ExitBegun(s, m, t, status), t);
    InitFacts(s, t);
    assert !Leaving(s.tasks[s.tasks[t].up].mode);
    hide Int8;
    assert forall x :: x in m <==> x in m.Keys;
  }

  lemma BegunUp(s: Procs, m: map<nat, Task>, t: nat, status: int)
    requires t in s.tasks && t in m && Adopted(s.tasks, m, s.tasks[t].pid, s.init)
      && s.tasks[t].parent != s.tasks[t].pid
    ensures var s1 := ExitBegun(s, m, t, status);
      t in s1.tasks && s1.tasks[t].up == s.tasks[t].up && s1.tasks[t].mode == Exiting && s1.init == s.init
  {
  }

  // A run that gets there: init (task 0) forks 1, which forks 2, which forks 3; 3 exits, init waits,
  // 2 exits.

  ghost function Family(): (s: Procs)
    ensures s.init == 0 && s.tasks.Keys == {0, 1, 2, 3}
    ensures s.tasks[0] == Task(1, NO_PARENT, Active, 0, 0) && s.tasks[1] == Task(2, 1, Active, 0, 0)
    ensures s.tasks[2] == Task(3, 2, Active, 0, 1) && s.tasks[3] == Task(4, 3, Active, 0, 2)
  {
    Forked(Forked(Forked(Started(0), 0, 1, 2), 1, 2, 3), 2, 3, 4)
  }

  lemma FamilyRuns() returns (ss: seq<Procs>, steps: seq<Step>)
    ensures Run(ss, steps) && |ss| == |steps| + 1 && ss[0] == Started(0) && ss[|steps|] == Family()
  {
    var s0 := Started(0);
    var s1 := Forked(s0, 0, 1, 2);
    var s2 := Forked(s1, 1, 2, 3);
    ss, steps := [s0, s1, s2, Family()], [DoFork(0, 1, 2), DoFork(1, 2, 3), DoFork(2, 3, 4)];
  }

  /** The exits and the wait after that, as states of the tasks. */
  ghost function Stage(k: nat): (s: Procs)
    requires k <= 4
    ensures s.init == 0 && s.tasks.Keys == {0, 1, 2, 3}
    ensures s.tasks[1] == Task(2, 1, Active, 0, 0)
    ensures s.tasks[0] == Task(1, NO_PARENT, if k <= 2 then Active else Waiting, 0, 0)
    ensures s.tasks[2] == Task(3, 2, if k <= 3 then Active else Exiting, 0, 1)
    ensures s.tasks[3] ==
      Task(4, if k <= 3 then 3 else 1, [Active, Exiting, Zombie, Zombie, Zombie][k], 0, if k <= 3 then 2 else 0)
  {
    if k == 0 then Family()
    else if k == 1 then ExitBegun(Stage(0), Stage(0).tasks, 3, 0)
    else if k == 2 then ExitEnded(Stage(1), 3)
    else if k == 3 then SetMode(Stage(2), 0, Waiting)
    else ExitBegun(Stage(3), HandedOver(Stage(3).tasks), 2, 0)
  }

  ghost function HandedOver(m: map<nat, Task>): map<nat, Task>
    requires 3 in m
  {
    m[3 := m[3].(parent := INIT, up := 0)]
  }

  lemma FirstExit()
    ensures Does(Stage(0), Stage(1), DoExitBegin(3, 0, Stage(0).tasks)) && Does(Stage(1), Stage(2), DoExitEnd(3))
  {
    var s0, s1 := Stage(0), Stage(1);
    assert s1 == ExitBegun(s0, s0.tasks, 3, 0) && Stage(2) == ExitEnded(s1, 3);
    hide Stage, Family, Forked, ExitBegun, ExitEnded, SetMode, Int8;
    assert Adopted(s0.tasks, s0.tasks, 4, 0);
  }

  lemma InitWaits()
    ensures Does(Stage(2), Stage(3), DoWait(0, Sleeps, 1))
  {
    var s2 := Stage(2);
    assert Stage(3) == SetMode(s2, 0, Waiting);
    hide Stage, SetMode;
    assert ChildOf(s2, 1, 0);
  }

  lemma SecondExit()
    ensures Does(Stage(3), Stage(4), DoExitBegin(2, 0, HandedOver(Stage(3).tasks)))
  {
    var s3 := Stage(3);
    assert Stage(4) == ExitBegun(s3, HandedOver(s3.tasks), 2, 0);
    hide Stage, ExitBegun;
    assert Adopted(s3.tasks, HandedOver(s3.tasks), 3, 0);
  }

  lemma StagesEnd()
    ensures !InitStuck(Started(0)) && Does(Stage(4), ExitEnded(Stage(4), 2), DoExitEnd(2))
    ensures InitStuck(ExitEnded(Stage(4), 2))
  {
    var s, s' := Stage(4), ExitEnded(Stage(4), 2);
    hide Stage;
    assert ChildOf(s', 3, 0) && s'.tasks[3].mode == Zombie;
  }

  /** The guard is met in a run from the start: at its end init sleeps beside its hanging child 3. */
  lemma StuckRun() returns (ss: seq<Procs>, steps: seq<Step>)
    ensures Run(ss, steps) && |ss| == |steps| + 1 && ss[0] == Started(0) && Ok(ss[0]) && !InitStuck(ss[0])
      && InitStuck(ss[|steps|])
  {
    ss, steps := FamilyRuns();
    StartedOk(0);
    FirstExit();
    InitWaits();
    SecondExit();
    StagesEnd();
    assert Stage(0) == Family();
    var k, z := HandedOver(Stage(3).tasks), ExitEnded(Stage(4), 2);
    hide *;
    ss, steps := Joined(ss, steps, Stage(1), DoExitBegin(3, 0, Stage(0).tasks));
    ss, steps := Joined(ss, steps, Stage(2), DoExitEnd(3));
    ss, steps := Joined(ss, steps, Stage(3), DoWait(0, Sleeps, 1));
    ss, steps := Joined(ss, steps, Stage(4), DoExitBegin(2, 0, k));
    ss, steps := Joined(ss, steps, z, DoExitEnd(2));
  }

  lemma Joined(ss: seq<Procs>, steps: seq<Step>, s: Procs, a: Step) returns (ss': seq<Procs>, steps': seq<Step>)
    requires Run(ss, steps) && |ss| == |steps| + 1 && Does(ss[|steps|], s, a)
    ensures Run(ss', steps') && |ss'| == |steps'| + 1 && ss'[0] == ss[0] && ss'[|steps'|] == s
  {
    hide Does;
    ss', steps' := ss + [s], steps + [a];
  }
}
