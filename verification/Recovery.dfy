/** Crashes: what a restarted process finds, after any run, at any point. */
module Recovery {
  import opened Names
  import opened Lifecycle
  import opened Protocol
  import opened ProtocolInvariant
  import opened ProtocolSafety

  /** A directory that a restart can index. */
  ghost predicate Recoverable(d: Disk) {
    Sound(d) && UniqueIds(d.dir.Keys)
  }

  lemma AliveIdsAreUnique(sh: Shared, tasks: map<Tid, Task>)
    requires Alive(sh, tasks)
    ensures UniqueIds(sh.disk.dir.Keys)
  {
    var names, roles := sh.disk.dir.Keys, Roles(tasks);
    forall a, b | a in names && b in names && a.Data? && b.Data? && a.id == b.id ensures a == b {
      OneExtension(names, sh.index, roles, a.id, a.ext, b.ext);
    }
  }

  lemma OneExtension(names: set<Name>, index: map<string, string>, roles: map<Tid, Role>, id: string, e: string, f: string)
    requires Life(names, index, roles) && Data(id, e) in names && Data(id, f) in names
    ensures e == f
  {
    if id !in index {
      var t :| Publishes(roles, t, id, e);
    }
  }

  /** Every state that keeps the invariant is recoverable: a restart never meets a duplicate id. */
  lemma InvRecoverable(s: Sys)
    requires Inv(s)
    ensures Recoverable(s.sh.disk)
  {
    AliveIdsAreUnique(s.sh, s.tasks);
  }

  lemma CleanNames(d: Disk)
    requires Sound(d)
    ensures forall n :: n in d.dir && n !in DebrisIn(d.dir.Keys) <==> n in d.dir && n.Data?
  {
    forall n | n in d.dir ensures n in DebrisIn(d.dir.Keys) <==> !n.Data? {
      ClassifyCorrect(n);
    }
  }

  lemma SameIndex(names: set<Name>, names': set<Name>)
    requires UniqueIds(names) && names' <= names && forall n :: n in names && n.Data? ==> n in names'
    ensures UniqueIds(names') && IndexOf(names') == IndexOf(names)
  {
  }

  /** A restart leaves a fresh process over exactly the data files, each complete. */
  lemma RecoverIsInitial(s: Sys, pid: nat)
    requires Recoverable(s.sh.disk)
    ensures Initial(Recover(s, pid))
  {
    var d := s.sh.disk;
    var s' := Recover(s, pid);
    CleanNames(d);
    assert s'.sh.disk.dir.Keys <= d.dir.Keys;
    SameIndex(d.dir.Keys, s'.sh.disk.dir.Keys);
  }

  /** A crash in the middle of a restart changes nothing: the next restart ends in the same directory and index. */
  lemma InterruptedRecovery(s: Sys, removed: set<Name>, pid: nat)
    requires Recoverable(s.sh.disk) && removed <= DebrisIn(s.sh.disk.dir.Keys)
    ensures var s' := s.(sh := s.sh.(disk := s.sh.disk.(dir := s.sh.disk.dir - removed)));
            Recoverable(s'.sh.disk) && Recover(s', pid) == Recover(s, pid)
  {
    var d := s.sh.disk;
    var d' := d.(dir := d.dir - removed);
    assert d'.dir.Keys == d.dir.Keys - removed;
    assert Sound(d') by { FewerNames(d, d'); }
    assert UniqueIds(d'.dir.Keys) && IndexOf(d'.dir.Keys) == IndexOf(d.dir.Keys) by {
      CleanNames(d);
      SameIndex(d.dir.Keys, d'.dir.Keys);
    }
    assert d'.dir - DebrisIn(d'.dir.Keys) == d.dir - DebrisIn(d.dir.Keys) by { SameRemains(d.dir, removed); }
  }

  lemma FewerNames(d: Disk, d': Disk)
    requires Sound(d) && d' == d.(dir := d'.dir)
    requires forall n :: n in d'.dir ==> n in d.dir && d'.dir[n] == d.dir[n]
    ensures Sound(d')
  {
  }

  lemma SameRemains(dir: map<Name, nat>, removed: set<Name>)
    requires removed <= DebrisIn(dir.Keys)
    ensures (dir - removed) - DebrisIn((dir - removed).Keys) == dir - DebrisIn(dir.Keys)
  {
    assert DebrisIn((dir - removed).Keys) == DebrisIn(dir.Keys) - removed;
  }

  lemma InitialIsAlive(names: set<Name>, index: map<string, string>)
    requires UniqueIds(names) && index == IndexOf(names) && forall n :: n in names ==> n.Data?
    ensures Life(names, index, map[])
  {
    assert forall id, e :: Data(id, e) in names <==> id in index && index[id] == e;
  }

  lemma InitialKeepsInv(s: Sys)
    requires Initial(s)
    ensures Inv(s)
  {
    InitialIsAlive(s.sh.disk.dir.Keys, s.sh.index);
    assert Roles(s.tasks) == map[];
    assert Sound(s.sh.disk);
  }

  lemma ApplyKeepsInv(s: Sys, l: Label)
    requires Inv(s) && Enabled(s, l) && Timely(s, l)
    ensures Inv(Apply(s, l))
  {
    match l
    case Run(t, ok) => StepKeepsInv(s, t, ok);
    case Spawn(t, op) => SpawnKeepsInv(s, t, op);
    case Restart(pid) =>
      InvRecoverable(s);
      RecoverIsInitial(s, pid);
      InitialKeepsInv(Recover(s, pid));
  }

  /**
   The invariant holds in every state of every run: any number of puts, stream puts, renames, concats, deletes
   and readers, in any interleaving, with any failing calls, and with any number of crashes and restarts.
   */
  lemma {:induction false} RunSafe(states: seq<Sys>, labels: seq<Label>, i: nat)
    requires IsRun(states, labels) && Initial(states[0]) && i < |states|
    ensures Inv(states[i])
  {
    if i == 0 {
      InitialKeepsInv(states[0]);
    } else {
      RunSafe(states, labels, i - 1);
      assert StepAt(states, labels, i - 1);
      ApplyKeepsInv(states[i - 1], labels[i - 1]);
    }
  }

  /** `s` is a process that has indexed exactly the data files of `d`, and each holds what its creator meant to store. */
  ghost predicate Restored(d: Disk, s: Sys) {
    && s.tasks == map[]
    && (forall n :: n in s.sh.disk.dir <==> n in d.dir && n.Data?)
    && (forall id, e :: id in s.sh.index && s.sh.index[id] == e <==> Data(id, e) in d.dir)
    && (forall n :: n in s.sh.disk.dir ==>
          && n in d.dir && s.sh.disk.dir[n] == d.dir[n] && d.dir[n] in s.sh.disk.data && n.id in d.made
          && s.sh.disk.data[d.dir[n]].bytes == d.made[n.id])
  }

  lemma RecoverRestores(s: Sys, pid: nat)
    requires Recoverable(s.sh.disk)
    ensures Restored(s.sh.disk, Recover(s, pid))
  {
    CleanNames(s.sh.disk);
  }

  /** Wherever a run stops, a restart succeeds, indexes exactly the data files, and every one of them is whole. */
  lemma CrashSafe(states: seq<Sys>, labels: seq<Label>, i: nat, pid: nat)
    requires IsRun(states, labels) && Initial(states[0]) && i < |states|
    ensures Enabled(states[i], Restart(pid))
    ensures Restored(states[i].sh.disk, Apply(states[i], Restart(pid)))
  {
    RunSafe(states, labels, i);
    InvRecoverable(states[i]);
    RecoverRestores(states[i], pid);
  }

  /**
   Between the link of a put, rename or concat and its index entry, or its rollback, a crash loses nothing: the
   restarted process has the new id, with the bytes meant for it. `Survival` goes on from there.
   */
  lemma LinkedSurvivesCrash(s: Sys, t: Tid, pid: nat)
    requires Inv(s) && t in s.tasks && HeldBy(s.tasks[t]).Linked?
    ensures var Linked(id, ext) := HeldBy(s.tasks[t]);
            && Enabled(s, Restart(pid))
            && var s' := Apply(s, Restart(pid));
               && Restored(s.sh.disk, s')
               && id in s'.sh.index && s'.sh.index[id] == ext && Data(id, ext) in s'.sh.disk.dir
  {
    var Linked(id, ext) := HeldBy(s.tasks[t]);
    assert Publishes(Roles(s.tasks), t, id, ext);
    assert Data(id, ext) in s.sh.disk.dir.Keys;
    InvRecoverable(s);
    RecoverRestores(s, pid);
  }

  /** The link of a rename gives the new id the very file, and the meant bytes, of the old one. */
  lemma RenameLinksSameFile(sh: Shared, k: Task)
    requires Sound(sh.disk) && k.pc.Linking? && LinkMade(sh, k, true).Some?
    ensures var from, to := Data(k.op.source, k.pc.ext), Data(k.op.id, k.pc.ext);
            var d, d' := sh.disk, Advance(sh, k, true).sh.disk;
            && from in d.dir && to in d'.dir && d'.dir[to] == d.dir[from]
            && k.op.source in d.made && k.op.id in d'.made && d'.made[k.op.id] == d.made[k.op.source]
            && d.dir[from] in d.data && d'.dir[to] in d'.data && d'.data[d'.dir[to]].bytes == d.data[d.dir[from]].bytes
  {
  }
}
