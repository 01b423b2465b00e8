/** Safety of the storage protocol over every run. */
module ProtocolSafety {
  import opened Names
  import opened Lifecycle
  import opened Protocol
  import opened ProtocolInvariant
  import opened StepEffects

  // ---- Files, for all tasks ----

  lemma OwnersAfter(sh: Shared, tasks: map<Tid, Task>, t: Tid, a: After, touched: set<Name>)
    requires t in tasks && Temps(sh, tasks) && Accounts(sh, tasks[t], a, touched)
    requires Undisturbed(sh.disk, a.sh.disk, touched)
    ensures Temps(a.sh, tasks[t := a.k])
    ensures forall u, n :: u != t && Owns(sh.pid, tasks, u, n) ==> n !in touched
  {
    var tasks' := tasks[t := a.k];
    assert forall u, n :: u != t ==> (Owns(sh.pid, tasks', u, n) <==> Owns(sh.pid, tasks, u, n));
    forall u, n | u != t && Owns(sh.pid, tasks, u, n)
      ensures n !in touched && !Owns(sh.pid, tasks', t, n)
    {
      if TempBy(tasks[t]).Some? { assert Owns(sh.pid, tasks, t, TempOf(sh.pid, tasks[t], TempBy(tasks[t]).value)); }
    }
    forall n | n in a.sh.disk.dir && n.Temp? ensures exists u :: Owns(sh.pid, tasks', u, n) {
      if n in touched {
        assert Owns(sh.pid, tasks', t, n);
      } else {
        var u :| Owns(sh.pid, tasks, u, n);
        assert Owns(sh.pid, tasks', u, n);
      }
    }
  }

  lemma OtherUndisturbed(d: Disk, d': Disk, touched: set<Name>, pid: nat, k: Task)
    requires Undisturbed(d, d', touched) && Filling(d, pid, k) && ReadsWhole(d, k)
    requires TempBy(k).Some? ==> TempOf(pid, k, TempBy(k).value) !in touched
    ensures Filling(d', pid, k) && ReadsWhole(d', k)
  {
  }

  lemma TouchKeepsFiles(sh: Shared, tasks: map<Tid, Task>, t: Tid, a: After, touched: set<Name>)
    requires t in tasks && Files(sh, tasks) && Touches(sh, tasks[t], a, touched)
    ensures Files(a.sh, tasks[t := a.k])
  {
    OwnersAfter(sh, tasks, t, a, touched);
    forall u | u in tasks && u != t
      ensures Filling(a.sh.disk, sh.pid, tasks[u]) && ReadsWhole(a.sh.disk, tasks[u])
    {
      if TempBy(tasks[u]).Some? { assert Owns(sh.pid, tasks, u, TempOf(sh.pid, tasks[u], TempBy(tasks[u]).value)); }
      OtherUndisturbed(sh.disk, a.sh.disk, touched, sh.pid, tasks[u]);
    }
  }

  lemma RolesAfter(tasks: map<Tid, Task>, t: Tid, k: Task)
    ensures Roles(tasks[t := k]) == Roles(tasks)[t := RoleOf(k)]
  {
  }

  lemma ClearHasNoFile(sh: Shared, tasks: map<Tid, Task>, t: Tid)
    requires Alive(sh, tasks) && t in tasks && HeldBy(tasks[t]).Clear?
    ensures forall e :: Data(tasks[t].op.id, e) !in sh.disk.dir
  {
    assert Roles(tasks)[t].held == Clear(tasks[t].op.id);
    assert forall e :: Data(tasks[t].op.id, e) !in sh.disk.dir.Keys;
  }

  lemma CounterIsFresh(sh: Shared, tasks: map<Tid, Task>, n: Name)
    requires Temps(sh, tasks) && n.Temp? && n.n == sh.counter
    ensures n !in sh.disk.dir
  {
  }

  // ---- History ----

  lemma EverAfter(sh: Shared, k: Task, ok: bool)
    ensures var a := Advance(sh, k, ok);
            && sh.ever <= a.sh.ever
            && (sh.index.Keys <= sh.ever ==> a.sh.index.Keys <= a.sh.ever)
  {
  }

  lemma SightAfter(sh: Shared, k: Task, a: After, e: Effect)
    requires Has(sh, k, a, e) && sh.index.Keys <= sh.ever
    requires SeenBy(k).Some? ==> SeenBy(k).value.0 in sh.ever
    ensures SeenBy(a.k).Some? ==> SeenBy(a.k).value.0 in sh.ever
  {
  }

  predicate AtTemp(pc: Pc) { pc.MakeTemp? || pc.Writing? || pc.PartNamed? || pc.PartOpen? || pc.Flushed? }

  lemma AtTempStaysValid(sh: Shared, k: Task, ok: bool)
    requires ValidTask(k) && AtTemp(k.pc)
    ensures ValidTask(Advance(sh, k, ok).k)
  {
  }

  lemma OthersStayValid(sh: Shared, k: Task, ok: bool)
    requires ValidTask(k) && !AtTemp(k.pc)
    ensures ValidTask(Advance(sh, k, ok).k)
  {
  }

  lemma ValidAfter(sh: Shared, k: Task, ok: bool)
    requires ValidTask(k)
    ensures ValidTask(Advance(sh, k, ok).k)
  {
    if AtTemp(k.pc) { AtTempStaysValid(sh, k, ok); } else { OthersStayValid(sh, k, ok); }
  }

  // ---- The invariant over steps ----

  lemma StepKeepsInv(s: Sys, t: Tid, ok: bool)
    requires Inv(s) && t in s.tasks && Timely(s, Run(t, ok))
    ensures Inv(Step(s, t, ok))
  {
    var k, a := s.tasks[t], Advance(s.sh, s.tasks[t], ok);
    var e := StepEffect(s.sh, k, ok);
    RolesAfter(s.tasks, t, a.k);
    assert Roles(s.tasks)[t] == RoleOf(k);
    EffectKeepsLife(s.sh.disk.dir.Keys, a.sh.disk.dir.Keys, s.sh.index, a.sh.index, Roles(s.tasks), t, RoleOf(a.k), e);
    StepKeepsFiles(s, t, ok);
    StepKeepsHistory(s, t, ok);
  }

  lemma StepKeepsFiles(s: Sys, t: Tid, ok: bool)
    requires Inv(s) && t in s.tasks
    ensures Files(Step(s, t, ok).sh, Step(s, t, ok).tasks)
  {
    var k := s.tasks[t];
    if HeldBy(k).Clear? { ClearHasNoFile(s.sh, s.tasks, t); }
    CounterIsFresh(s.sh, s.tasks, TempOf(s.sh.pid, k, s.sh.counter));
    var touched := StepTouches(s.sh, k, ok);
    TouchKeepsFiles(s.sh, s.tasks, t, Advance(s.sh, k, ok), touched);
  }

  lemma StepKeepsHistory(s: Sys, t: Tid, ok: bool)
    requires History(s.sh, s.tasks) && Inodes(s.sh.disk) && t in s.tasks
    ensures History(Step(s, t, ok).sh, Step(s, t, ok).tasks)
  {
    var k := s.tasks[t];
    EverAfter(s.sh, k, ok);
    ValidAfter(s.sh, k, ok);
    var e := StepEffect(s.sh, k, ok);
    SightAfter(s.sh, k, Advance(s.sh, k, ok), e);
  }

  lemma SpawnKeepsTemps(sh: Shared, tasks: map<Tid, Task>, t: Tid, op: Op)
    requires Temps(sh, tasks) && t !in tasks
    ensures Temps(sh, tasks[t := Task(op, Start, [])])
  {
    var tasks' := tasks[t := Task(op, Start, [])];
    assert forall u, n :: Owns(sh.pid, tasks', u, n) <==> Owns(sh.pid, tasks, u, n);
    forall n | n in sh.disk.dir && n.Temp? ensures exists u :: Owns(sh.pid, tasks', u, n) {
      var u :| Owns(sh.pid, tasks, u, n);
      assert Owns(sh.pid, tasks', u, n);
    }
  }

  lemma SpawnKeepsInv(s: Sys, t: Tid, op: Op)
    requires Inv(s) && Enabled(s, Spawn(t, op))
    ensures Inv(Apply(s, Spawn(t, op)))
  {
    var tasks' := s.tasks[t := Task(op, Start, [])];
    SpawnKeepsTemps(s.sh, s.tasks, t, op);
    assert Alive(s.sh, tasks') by {
      NewTask(s.sh.disk.dir.Keys, s.sh.index, Roles(s.tasks), t);
      RolesAfter(s.tasks, t, Task(op, Start, []));
    }
  }
}
