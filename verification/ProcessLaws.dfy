/** What whole runs of fork, exit and wait come to (userprog/wait_exit.c, userprog/fork.c). */
module ProcessLaws {
  import opened Processes

  // ---------- the order of thread_all_list ----------

  /** The tasks in the order of their creation: init, then the child of every fork among the first n steps. */
  function Created(init: nat, steps: seq<Step>, n: nat): (q: seq<nat>)
    requires n <= |steps|
  {
    if n == 0 then [init] else Created(init, steps, n - 1) + if steps[n - 1].DoFork? then [steps[n - 1].c] else []
  }

  /** Those of the list that are still there, in its order. */
  function Among(q: seq<nat>, m: map<nat, Task>): (a: seq<nat>) {
    if q == [] then [] else
      var x := q[|q| - 1];
      Among(q[..|q| - 1], m) + if x in m then [x] else []
  }

  lemma {:induction false} AmongSame(q: seq<nat>, m: map<nat, Task>, m': map<nat, Task>)
    requires forall x :: x in q ==> (x in m <==> x in m')
    ensures Among(q, m) == Among(q, m')
  {
    if q != [] {
      AmongSame(q[..|q| - 1], m, m');
    }
  }

  lemma {:induction false} TakenLast(q: seq<nat>, x: nat, c: nat)
    ensures Taken(q + [x], c) == Taken(q, c) + if x == c then [] else [x]
  {
    if q != [] {
      TakenLast(q[1..], x, c);
      assert (q + [x])[1..] == q[1..] + [x];
    }
  }

  lemma {:induction false} TakenAmong(q: seq<nat>, m: map<nat, Task>, m': map<nat, Task>, c: nat)
    requires forall x :: x in m' <==> x in m && x != c
    ensures Taken(Among(q, m), c) == Among(q, m')
  {
    if q != [] {
      var x := q[|q| - 1];
      TakenAmong(q[..|q| - 1], m, m', c);
      if x in m {
        TakenLast(Among(q[..|q| - 1], m), x, c);
      } else {
        assert Among(q, m) == Among(q[..|q| - 1], m);
      }
    }
  }

  /** What a step does to the list and to who is on it. */
  lemma ListStep(s: Procs, s': Procs, a: Step)
    requires Ok(s) && Does(s, s', a)
    ensures s.pids.Keys <= s'.pids.Keys
    ensures a.DoFork? ==>
      && s'.order == s.order + [a.c] && a.c !in s.pids && a.c !in s.tasks && a.c in s'.pids
      && s'.tasks.Keys == s.tasks.Keys + {a.c}
    ensures a.DoWait? && a.r.Took? ==>
      s'.order == Taken(s.order, a.c) && s'.tasks.Keys == s.tasks.Keys - {a.c}
    ensures !a.DoFork? && !(a.DoWait? && a.r.Took?) ==> s'.order == s.order && s'.tasks.Keys == s.tasks.Keys
  {
    hide PidsOk, ParentsOk, WaitersOk, Listed, Taken, FirstChild, Int8;
    if a.DoWait? && a.r.Took? {
      assert a.c != a.t;
    }
  }

  /** thread_all_list is, in every state of every run, the living tasks in the order in which they were forked. */
  lemma {:induction false} ListIsForkOrder(ss: seq<Procs>, steps: seq<Step>, n: nat)
    requires Run(ss, steps) && |ss| == |steps| + 1 && ss[0] == Started(ss[0].init) && n < |ss|
    ensures ss[n].order == Among(Created(ss[0].init, steps, n), ss[n].tasks)
    ensures forall x :: x in Created(ss[0].init, steps, n) ==> x in ss[n].pids
  {
    hide Ok, Does, Started, Run, Among;
    var init := ss[0].init;
    if n == 0 {
      StartOrder(init);
    } else {
      StartedOk(init);
      RunOk(ss, steps, n - 1);
      RunAt(ss, steps, n - 1);
      ListIsForkOrder(ss, steps, n - 1);
      OrderStep(Created(init, steps, n - 1), ss[n - 1], ss[n], steps[n - 1]);
    }
  }

  lemma StartOrder(init: nat)
    ensures Started(init).order == Among([init], Started(init).tasks) && init in Started(init).pids
  {
    assert Among([], Started(init).tasks) == [];
  }

  lemma RunAt(ss: seq<Procs>, steps: seq<Step>, n: nat)
    requires Run(ss, steps) && n < |steps|
    ensures Does(ss[n], ss[n + 1], steps[n])
  {
  }

  lemma OrderStep(q: seq<nat>, s: Procs, s': Procs, a: Step)
    requires Ok(s) && Does(s, s', a) && s.order == Among(q, s.tasks) && forall x :: x in q ==> x in s.pids
    ensures var q' := q + if a.DoFork? then [a.c] else [];
            s'.order == Among(q', s'.tasks) && forall x :: x in q' ==> x in s'.pids
  {
    hide Ok, Does;
    ListStep(s, s', a);
    assert q + [] == q && forall x :: x in s.pids ==> x in s'.pids.Keys;
    assert forall x :: x in s'.tasks <==> x in s'.tasks.Keys;
    if a.DoFork? {
      assert (q + [a.c])[..|q|] == q;
      AmongSame(q, s.tasks, s'.tasks);
    } else if a.DoWait? && a.r.Took? {
      TakenAmong(q, s.tasks, s'.tasks, a.c);
    } else {
      AmongSame(q, s.tasks, s'.tasks);
    }
  }

  /** a stands before b in the list. */
  ghost predicate Before(q: seq<nat>, a: nat, b: nat) {
    exists i, j :: 0 <= i < j < |q| && q[i] == a && q[j] == b
  }

  lemma {:induction false} AmongBefore(q: seq<nat>, m: map<nat, Task>, a: nat, b: nat)
    requires Before(Among(q, m), a, b)
    ensures Before(q, a, b)
  {
    var p, w := q[..|q| - 1], Among(q, m);
    var x := q[|q| - 1];
    var i, j :| 0 <= i < j < |w| && w[i] == a && w[j] == b;
    var u := Among(p, m);
    if j < |u| {
      assert u[i] == a && u[j] == b;
      AmongBefore(p, m, a, b);
      var i', j' :| 0 <= i' < j' < |p| && p[i'] == a && p[j'] == b;
      assert q[i'] == a && q[j'] == b;
    } else {
      assert u[i] == a && b == x;
      AmongIn(p, m, a);
      var k :| 0 <= k < |p| && p[k] == a;
      assert q[k] == a && q[|q| - 1] == b;
    }
  }

  lemma {:induction false} AmongIn(q: seq<nat>, m: map<nat, Task>, a: nat)
    requires a in Among(q, m)
    ensures a in q
  {
    var p := q[..|q| - 1];
    if a in Among(p, m) {
      AmongIn(p, m, a);
      assert a in p;
    }
  }

  /** sys_wait takes, of several hanging children, the one that was forked first. */
  lemma OldestFirst(ss: seq<Procs>, steps: seq<Step>, n: nat, x: nat)
    requires Run(ss, steps) && |ss| == |steps| + 1 && ss[0] == Started(ss[0].init) && n < |steps|
    requires steps[n].DoWait? && steps[n].r.Took? && x != steps[n].c
    requires ChildOf(ss[n], x, steps[n].t) && ss[n].tasks[x].mode == Zombie
    ensures Before(Created(ss[0].init, steps, n), steps[n].c, x)
  {
    ListIsForkOrder(ss, steps, n);
    StartedOk(ss[0].init);
    RunOk(ss, steps, n);
    assert Does(ss[n], ss[n + 1], steps[n]);
    var s, t, c := ss[n], steps[n].t, steps[n].c;
    Parts(s);
    assert x in s.order && Wanted(s.tasks, s.tasks[t].pid, true, x);
    FirstBefore(s.tasks, s.order, s.tasks[t].pid, c, x);
    AmongBefore(Created(ss[0].init, steps, n), s.tasks, c, x);
  }

  lemma FirstBefore(tasks: map<nat, Task>, order: seq<nat>, p: int, c: nat, x: nat)
    requires FirstChild(tasks, order, p, true, c) && x in order && Wanted(tasks, p, true, x) && x != c
    ensures Before(order, c, x)
  {
    var i :| 0 <= i < |order| && order[i] == c && forall j :: 0 <= j < i ==> !Wanted(tasks, p, true, order[j]);
    var j :| 0 <= j < |order| && order[j] == x;
    assert i < j && order[i] == c && order[j] == x;
  }

  // ---------- fork, exit and wait together ----------

  /** Task t forks c, perhaps goes to sleep in sys_wait, and c exits: the state in which t looks again. */
  ghost function AfterExit(s: Procs, t: nat, c: nat, pid: int, asleep: bool, status: int): (s': Procs)
    requires t in s.tasks && t != c && 1 <= pid <= |s.bits|
  {
    var s1 := Forked(s, t, c, pid);
    var s2 := if asleep then SetMode(s1, t, Waiting) else s1;
    ExitEnded(ExitBegun(s2, s2.tasks, c, status), c)
  }

  /** Nobody has the pid of the new child for a parent. */
  lemma NoneYet(s: Procs, t: nat, c: nat, pid: int, asleep: bool)
    requires Ok(s) && t in s.tasks && t != c && c !in s.tasks && 1 <= pid <= |s.bits| && !s.bits[pid - 1]
    ensures var s1 := Forked(s, t, c, pid);
            var s2 := if asleep then SetMode(s1, t, Waiting) else s1;
            Adopted(s2.tasks, s2.tasks, pid, s.init)
  {
    hide HistoryOk, WaitersOk, Listed;
    forall x | x in s.tasks ensures s.tasks[x].parent != pid {
      assert s.tasks[x].parent != NO_PARENT ==> s.tasks[x].parent in s.byPid;
    }
    assert s.tasks[t].pid != pid;
  }

  /** State s3 is s with t awake, perhaps just woken, and with its hanging child c more. */
  ghost predicate WithHanging(s: Procs, s3: Procs, t: nat, c: nat, pid: int, code: int) {
    && t in s.tasks && c !in s.tasks && 1 <= pid <= |s.bits|
    && t in s3.tasks && !Leaving(s3.tasks[t].mode) && s3.tasks[t] == s.tasks[t].(mode := s3.tasks[t].mode)
    && s3.tasks == s.tasks[t := s3.tasks[t]][c := Task(pid, s.tasks[t].pid, Zombie, code, t)]
    && s3.order == s.order + [c] && s3.bits == s.bits[pid - 1 := true] && s3.byPid == s.byPid[pid := c]
  }

  lemma AfterExitIs(s: Procs, t: nat, c: nat, pid: int, asleep: bool, status: int)
    requires t in s.tasks && s.tasks[t].mode == Active && t != c && c !in s.tasks && 1 <= pid <= |s.bits|
    ensures WithHanging(s, AfterExit(s, t, c, pid, asleep, status), t, c, pid, Int8(status))
  {
    hide Int8;
  }

  lemma Sleeping(s: Procs, t: nat, c: nat, pid: int)
    requires t in s.tasks && s.tasks[t].mode == Active && t != c && c !in s.tasks && 1 <= pid <= |s.bits|
    requires forall x :: ChildOf(s, x, t) ==> s.tasks[x].mode != Zombie
    ensures var s1 := Forked(s, t, c, pid);
            t in s1.tasks && Does(s1, SetMode(s1, t, Waiting), DoWait(t, Sleeps, c))
  {
    var s1 := Forked(s, t, c, pid);
    assert ChildOf(s1, c, t);
    forall x | ChildOf(s1, x, t) ensures s1.tasks[x].mode != Zombie {
      assert x == c || ChildOf(s, x, t);
    }
  }

  lemma Exits(s2: Procs, c: nat, status: int)
    requires c in s2.tasks && s2.tasks[c].mode == Active && s2.tasks[c].parent != NO_PARENT
      && s2.tasks[c].up in s2.tasks
    requires Adopted(s2.tasks, s2.tasks, s2.tasks[c].pid, s2.init)
    ensures var s3 := ExitBegun(s2, s2.tasks, c, status);
      && Does(s2, s3, DoExitBegin(c, status, s2.tasks)) && c in s3.tasks && s3.tasks[c].up in s3.tasks
      && Does(s3, ExitEnded(s3, c), DoExitEnd(c))
  {
    hide Adopted, Int8;
  }

  /** The fork, the sleep and the exit are steps of the machine. */
  lemma AfterExitRuns(s: Procs, t: nat, c: nat, pid: int, asleep: bool, status: int)
    returns (ss: seq<Procs>, steps: seq<Step>)
    requires Ok(s) && t in s.tasks && s.tasks[t].mode == Active && c !in s.pids && c !in s.exits && t != c
    requires 1 <= pid <= |s.bits| && !s.bits[pid - 1]
    requires asleep ==> forall x :: ChildOf(s, x, t) ==> s.tasks[x].mode != Zombie
    ensures Run(ss, steps) && |ss| == |steps| + 1 && ss[0] == s
    ensures ss[|steps|] == AfterExit(s, t, c, pid, asleep, status)
  {
    Unused(s, c);
    PidIn(s, t);
    NoneYet(s, t, c, pid, asleep);
    var s1 := Forked(s, t, c, pid);
    var s2 := if asleep then SetMode(s1, t, Waiting) else s1;
    assert Does(s, s1, DoFork(t, c, pid));
    hide Ok, Does, Adopted, ChildOf, ExitBegun, ExitEnded;
    if asleep {
      Sleeping(s, t, c, pid);
    }
    Exits(s2, c, status);
    hide Forked, SetMode;
    ss, steps := Joined([s], [], s1, DoFork(t, c, pid));
    if asleep {
      ss, steps := Joined(ss, steps, s2, DoWait(t, Sleeps, c));
    }
    var s3 := ExitBegun(s2, s2.tasks, c, status);
    ss, steps := Joined(ss, steps, s3, DoExitBegin(c, status, s2.tasks));
    ss, steps := Joined(ss, steps, ExitEnded(s3, c), DoExitEnd(c));
  }

  /** fork, exit and wait are a round: when no other child of t hangs, its sys_wait returns the pid that fork
      returned and the status passed to exit, as a signed byte, and leaves every task, the list and the pids
      in use as they were before the fork, whether t slept meanwhile or not. */
  lemma ForkExitWait(s: Procs, t: nat, c: nat, pid: int, asleep: bool, status: int, s': Procs, r: WaitResult, x: nat)
    requires Ok(s) && t in s.tasks && s.tasks[t].mode == Active && c !in s.tasks && t != c
    requires 1 <= pid <= |s.bits| && !s.bits[pid - 1]
    requires forall x :: ChildOf(s, x, t) ==> s.tasks[x].mode != Zombie
    requires Waits(AfterExit(s, t, c, pid, asleep, status), s', t, r, x)
    ensures r == Took(pid, Int8(status)) && x == c
    ensures s'.tasks == s.tasks && s'.order == s.order && s'.bits == s.bits && s'.byPid == s.byPid
  {
    hide *;
    AfterExitIs(s, t, c, pid, asleep, status);
    FreePid(s, pid);
    WaitsForIt(s, AfterExit(s, t, c, pid, asleep, status), t, c, pid, Int8(status), s', r, x);
    Undone(s, AfterExit(s, t, c, pid, asleep, status), t, c, pid, Int8(status));
  }

  lemma FreePid(s: Procs, pid: int)
    requires Ok(s) && 1 <= pid <= |s.bits| && !s.bits[pid - 1]
    ensures pid !in s.byPid
  {
    hide ParentsOk, WaitersOk, HistoryOk, Listed;
  }

  /** Task c is the one hanging child, so sys_wait takes it. */
  lemma WaitsForIt(s: Procs, s3: Procs, t: nat, c: nat, pid: int, code: int, s': Procs, r: WaitResult, x: nat)
    requires WithHanging(s, s3, t, c, pid, code) && forall x :: ChildOf(s, x, t) ==> s.tasks[x].mode != Zombie
    requires Waits(s3, s', t, r, x)
    ensures x == c && r == Took(pid, code) && c in s3.tasks && t in s3.tasks && 1 <= s3.tasks[c].pid <= |s3.bits|
    ensures s' == Reaped(s3, t, c)
  {
    hide Reaped, FirstChild, SetMode;
    assert ChildOf(s3, c, t);
    assert ChildOf(s3, x, t) && x != t && x != c ==> ChildOf(s, x, t);
  }

  /** Taking the child undoes all of it. */
  lemma Undone(s: Procs, s3: Procs, t: nat, c: nat, pid: int, code: int)
    requires Ok(s) && WithHanging(s, s3, t, c, pid, code) && s.tasks[t].mode == Active
    requires !s.bits[pid - 1] && pid !in s.byPid
    requires c in s3.tasks && t in s3.tasks && 1 <= s3.tasks[c].pid <= |s3.bits|
    ensures var s' := Reaped(s3, t, c);
            s'.tasks == s.tasks && s'.order == s.order && s'.bits == s.bits && s'.byPid == s.byPid
  {
    Parts(s);
    hide Ok, Taken;
    ReapedIs(s3, t, c);
    TasksBack(s.tasks, t, c, s3.tasks[t], s3.tasks[c]);
    assert s3.tasks[c].pid == pid;
    PidsBack(s.bits, s.byPid, pid, c);
    TakenLast(s.order, c, c);
    TakenNone(s.order, c);
  }

  lemma TasksBack(m: map<nat, Task>, t: nat, c: nat, k: Task, z: Task)
    requires t in m && c !in m && k == m[t].(mode := k.mode) && m[t].mode == Active
    ensures (m[t := k][c := z] - {c})[t := k.(mode := Active)] == m
  {
  }

  lemma PidsBack(bits: seq<bool>, byPid: map<int, nat>, pid: int, c: nat)
    requires 1 <= pid <= |bits| && !bits[pid - 1] && pid !in byPid
    ensures bits[pid - 1 := true][pid - 1 := false] == bits && byPid[pid := c] - {pid} == byPid
  {
  }

  lemma {:induction false} TakenNone(q: seq<nat>, c: nat)
    requires c !in q
    ensures Taken(q, c) == q
  {
    if q != [] {
      TakenNone(q[1..], c);
      assert q == [q[0]] + q[1..];
    }
  }
}
