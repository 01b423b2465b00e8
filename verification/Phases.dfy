/** The four phases of a file id, and the one assumption that keeps every id in one of them. */
module Phases {
  import opened Base
  import opened Names
  import opened Lifecycle
  import opened Protocol
  import opened ProtocolInvariant
  import opened ProtocolSafety
  import opened Recovery

  datatype Phase =
    | Absent                       // no file, no index entry
    | Publishing(t: Tid)           // one file, not indexed; t holds the reservation and will index or unlink it
    | Stored                       // one file, indexed under its extension
    | Removing(t: Tid)             // no file, still indexed; t alone will remove the entry

  ghost predicate InPhase(s: Sys, id: string, p: Phase) {
    var names, index, roles := s.sh.disk.dir.Keys, s.sh.index, Roles(s.tasks);
    match p
    case Absent =>
      && id !in index && (forall e :: Data(id, e) !in names)
      && (forall u, e :: !Publishes(roles, u, id, e)) && (forall u :: !Removes(roles, u, id))
    case Publishing(t) =>
      && id !in index && Reserve(id) in names
      && (exists e :: Publishes(roles, t, id, e) && Data(id, e) in names && forall e' :: Data(id, e') in names ==> e' == e)
      && (forall u :: Holds(roles, u, id) ==> u == t) && (forall u :: !Removes(roles, u, id))
    case Stored =>
      && id in index && (forall e :: Data(id, e) in names <==> e == index[id])
      && (forall u, e :: !Publishes(roles, u, id, e)) && (forall u :: !Removes(roles, u, id))
    case Removing(t) =>
      && id in index && (forall e :: Data(id, e) !in names)
      && (forall u, e :: !Publishes(roles, u, id, e)) && (forall u :: Removes(roles, u, id) <==> u == t)
  }

  lemma PhaseIsUnique(s: Sys, id: string, p: Phase, q: Phase)
    requires InPhase(s, id, p) && InPhase(s, id, q)
    ensures p == q
  {
    if p.Publishing? {
      var e :| Publishes(Roles(s.tasks), p.t, id, e) && Data(id, e) in s.sh.disk.dir.Keys;
      assert Holds(Roles(s.tasks), p.t, id);
    }
    if q.Publishing? {
      var e :| Publishes(Roles(s.tasks), q.t, id, e) && Data(id, e) in s.sh.disk.dir.Keys;
      assert Holds(Roles(s.tasks), q.t, id);
    }
    if p.Removing? { assert Removes(Roles(s.tasks), p.t, id); }
    if q.Removing? { assert Removes(Roles(s.tasks), q.t, id); }
  }

  lemma IndexedPhase(s: Sys, id: string) returns (p: Phase)
    requires Alive(s.sh, s.tasks) && id in s.sh.index
    ensures InPhase(s, id, p)
  {
    var names, index, roles := s.sh.disk.dir.Keys, s.sh.index, Roles(s.tasks);
    if Data(id, index[id]) in names {
      forall e | Data(id, e) in names ensures e == index[id] {
        OneExtension(names, index, roles, id, e, index[id]);
      }
      p := Stored;
    } else {
      var t :| Removes(roles, t, id);
      p := Removing(t);
    }
  }

  lemma UnindexedPhase(s: Sys, id: string) returns (p: Phase)
    requires Alive(s.sh, s.tasks) && id !in s.sh.index
    ensures InPhase(s, id, p)
  {
    var names, index, roles := s.sh.disk.dir.Keys, s.sh.index, Roles(s.tasks);
    if e :| Data(id, e) in names {
      var t :| Publishes(roles, t, id, e);
      assert Holds(roles, t, id);
      p := Publishing(t);
    } else {
      p := Absent;
    }
  }

  /** In every state of every run each id is in exactly one phase; so it has at most one data file, of any extension. */
  lemma ExactlyOnePhase(states: seq<Sys>, labels: seq<Label>, i: nat, id: string) returns (p: Phase)
    requires IsRun(states, labels) && Initial(states[0]) && i < |states|
    ensures InPhase(states[i], id, p)
    ensures forall q :: InPhase(states[i], id, q) ==> q == p
    ensures forall e, f :: Data(id, e) in states[i].sh.disk.dir && Data(id, f) in states[i].sh.disk.dir ==> e == f
  {
    RunSafe(states, labels, i);
    var s := states[i];
    if id in s.sh.index { p := IndexedPhase(s, id); } else { p := UnindexedPhase(s, id); }
    forall q | InPhase(s, id, q) ensures q == p {
      PhaseIsUnique(s, id, p, q);
    }
    forall e, f | Data(id, e) in s.sh.disk.dir && Data(id, f) in s.sh.disk.dir ensures e == f {
      OneExtension(s.sh.disk.dir.Keys, s.sh.index, Roles(s.tasks), id, e, f);
    }
  }

  /** When nothing has begun or is still running, index and directory agree exactly, with no reservation or temporary file. */
  lemma Quiescent(s: Sys)
    requires Inv(s) && forall t :: t in s.tasks ==> s.tasks[t].pc.Start? || s.tasks[t].pc.Done?
    ensures forall n :: n in s.sh.disk.dir ==> n.Data?
    ensures forall id, e :: Data(id, e) in s.sh.disk.dir <==> id in s.sh.index && s.sh.index[id] == e
  {
    var names, index, roles := s.sh.disk.dir.Keys, s.sh.index, Roles(s.tasks);
    assert forall t :: t in roles ==> roles[t] == BYSTANDER;
    forall id ensures Reserve(id) !in names {
      assert forall t :: !Holds(roles, t, id);
    }
    assert forall t, n :: !Owns(s.sh.pid, s.tasks, t, n);
    forall n | n in s.sh.disk.dir ensures n.Data? {
      assert n in names;
    }
    forall id, e ensures Data(id, e) in s.sh.disk.dir <==> id in index && index[id] == e {
      assert forall t :: !Removes(roles, t, id);
      assert forall t :: !Publishes(roles, t, id, e);
      assert Data(id, e) in names <==> Data(id, e) in s.sh.disk.dir;
    }
  }

  // ---- The assumption: no link while a task still acts on an earlier life of the file ----

  /** The step links no id that has been in the index since the process started. */
  predicate SingleUse(s: Sys, l: Label) {
    l.Run? && l.t in s.tasks && LinkMade(s.sh, s.tasks[l.t], l.ok).Some? ==>
      LinkMade(s.sh, s.tasks[l.t], l.ok).value.0 !in s.sh.ever
  }

  lemma SingleUseIsTimely(s: Sys, l: Label)
    requires Inv(s) && SingleUse(s, l)
    ensures Timely(s, l)
  {
    if l.Run? && l.t in s.tasks && LinkMade(s.sh, s.tasks[l.t], l.ok).Some? {
      forall u | u in Roles(s.tasks) ensures Roles(s.tasks)[u].seen != Some(LinkMade(s.sh, s.tasks[l.t], l.ok).value) {
        assert Roles(s.tasks)[u].seen == SeenBy(s.tasks[u]);
      }
    }
  }

  /** When ids are never reused, every run satisfies the assumption. */
  lemma {:induction false} SingleUseRuns(states: seq<Sys>, labels: seq<Label>)
    requires |states| == |labels| + 1 && Initial(states[0])
    requires forall i :: 0 <= i < |labels| ==>
               Enabled(states[i], labels[i]) && SingleUse(states[i], labels[i]) && states[i + 1] == Apply(states[i], labels[i])
    ensures IsRun(states, labels)
  {
    if labels != [] {
      var n := |labels| - 1;
      SingleUseRuns(states[..n + 1], labels[..n]);
      RunSafe(states[..n + 1], labels[..n], n);
      SingleUseIsTimely(states[n], labels[n]);
      forall i: nat | i < |labels| ensures StepAt(states, labels, i) {
        if i < n { assert StepAt(states[..n + 1], labels[..n], i); }
      }
    }
  }

  /** A task that is about to unlink the file it has seen. */
  predicate AboutToUnlink(k: Task) {
    (k.pc.Seen? && k.op.kind.Delete?) || k.pc.PartSeen? || k.pc.Moving?
  }

  /** The id's file has been unlinked while some task still publishes it. */
  ghost predicate Broken(s: Sys, id: string) {
    && id !in s.sh.index && (forall e :: Data(id, e) !in s.sh.disk.dir)
    && exists t, e :: Publishes(Roles(s.tasks), t, id, e)
  }

  lemma BrokenHasNoPhase(s: Sys, id: string, p: Phase)
    requires Broken(s, id)
    ensures !InPhase(s, id, p)
  {
    var t, e :| Publishes(Roles(s.tasks), t, id, e);
    assert forall e' :: Data(id, e') !in s.sh.disk.dir.Keys;
  }

  /** State after the link in which another task still remembers the linked file. */
  ghost predicate Exposed(s: Sys, t: Tid, u: Tid, id: string, ext: string) {
    && t in s.tasks && u in s.tasks && t != u && HeldBy(s.tasks[t]) == Linked(id, ext)
    && id !in s.sh.index && (forall e :: Data(id, e) in s.sh.disk.dir <==> e == ext)
    && SeenBy(s.tasks[u]) == Some((id, ext))
    && s.sh.disk.dir[Data(id, ext)] in s.sh.disk.data
    && (HeldBy(s.tasks[u]).Clear? ==> forall e :: Data(s.tasks[u].op.id, e) !in s.sh.disk.dir)
  }

  lemma ExposedStrikes(s: Sys, t: Tid, u: Tid, id: string, ext: string)
    requires Exposed(s, t, u, id, ext) && AboutToUnlink(s.tasks[u])
    ensures Broken(Step(s, u, true), id)
  {
    var s' := Step(s, u, true);
    assert s'.sh.disk == Remove(s.sh.disk, Data(id, ext)) && s'.sh.index == s.sh.index;
    assert Roles(s'.tasks)[t] == RoleOf(s.tasks[t]);
    assert Publishes(Roles(s'.tasks), t, id, ext);
  }

  function StepMany(s: Sys, u: Tid, n: nat): Sys
    requires u in s.tasks
    decreases n
  {
    if n == 0 then s else StepMany(Step(s, u, true), u, n - 1)
  }

  lemma AfterLink(sh: Shared, k: Task, id: string, ext: string)
    requires Inodes(sh.disk) && LinkMade(sh, k, true) == Some((id, ext))
    ensures var a := Advance(sh, k, true);
            && a.sh.index == sh.index && HeldBy(a.k) == Linked(id, ext)
            && a.sh.disk.dir.Keys == sh.disk.dir.Keys + {Data(id, ext)}
            && a.sh.disk.dir[Data(id, ext)] in a.sh.disk.data
  {
  }

  lemma LinkExposes(s: Sys, t: Tid, u: Tid, id: string, ext: string)
    requires Alive(s.sh, s.tasks) && Inodes(s.sh.disk)
    requires t in s.tasks && u in s.tasks && LinkMade(s.sh, s.tasks[t], true) == Some((id, ext))
    requires SeenBy(s.tasks[u]) == Some((id, ext))
    ensures Exposed(Step(s, t, true), t, u, id, ext)
    ensures HeldBy(s.tasks[u]).Clear? ==> s.tasks[u].op.id != id
  {
    var roles := Roles(s.tasks);
    assert roles[t].held == Clear(id) && roles[u].seen == Some((id, ext));
    ClearHasNoFile(s.sh, s.tasks, t);
    AfterLink(s.sh, s.tasks[t], id, ext);
    var keys := Step(s, t, true).sh.disk.dir.Keys;
    assert forall e :: Data(id, e) in keys <==> e == ext;
    if HeldBy(s.tasks[u]).Clear? {
      ClearHasNoFile(s.sh, s.tasks, u);
      assert Holds(roles, u, s.tasks[u].op.id) && Holds(roles, t, id);
      assert forall e :: Data(s.tasks[u].op.id, e) !in keys;
    }
  }

  lemma ExposedLinks(s: Sys, t: Tid, u: Tid, id: string, ext: string)
    requires Exposed(s, t, u, id, ext) && s.tasks[u].pc.Linking? && s.tasks[u].op.id != id
    ensures Exposed(Step(s, u, true), t, u, id, ext) && AboutToUnlink(Step(s, u, true).tasks[u])
  {
  }

  lemma ExposedProbes(s: Sys, t: Tid, u: Tid, id: string, ext: string)
    requires Exposed(s, t, u, id, ext) && s.tasks[u].pc.Probe?
    ensures Exposed(Step(s, u, true), t, u, id, ext) && Step(s, u, true).tasks[u] == s.tasks[u].(pc := Linking(ext))
  {
  }

  lemma StrikeAfter(s: Sys, t: Tid, u: Tid, id: string, ext: string, n: nat)
    requires u in s.tasks && n > 0
    requires var s' := StepMany(s, u, n - 1); Exposed(s', t, u, id, ext) && AboutToUnlink(s'.tasks[u])
    ensures forall p :: !InPhase(StepMany(s, u, n), id, p)
    decreases n
  {
    if n == 1 {
      ExposedStrikes(s, t, u, id, ext);
      assert StepMany(s, u, 1) == Step(s, u, true);
      forall p ensures !InPhase(StepMany(s, u, n), id, p) { BrokenHasNoPhase(Step(s, u, true), id, p); }
    } else {
      StrikeAfter(Step(s, u, true), t, u, id, ext, n - 1);
    }
  }

  lemma ExposedChase(s: Sys, t: Tid, u: Tid, id: string, ext: string) returns (n: nat)
    requires Exposed(s, t, u, id, ext) && (HeldBy(s.tasks[u]).Clear? ==> s.tasks[u].op.id != id)
    ensures n <= 3 && forall p :: !InPhase(StepMany(s, u, n), id, p)
  {
    n := 1;
    if s.tasks[u].pc.Probe? {
      var s' := Step(s, u, true);
      ExposedProbes(s, t, u, id, ext);
      ExposedLinks(s', t, u, id, ext);
      assert StepMany(s, u, 2) == StepMany(s', u, 1) == Step(s', u, true);
      n := 3;
    } else if s.tasks[u].pc.Linking? {
      ExposedLinks(s, t, u, id, ext);
      assert StepMany(s, u, 1) == Step(s, u, true);
      n := 2;
    }
    StrikeAfter(s, t, u, id, ext, n);
  }

  /**
   The assumption is exact: after an untimely link, one other task needs at most three steps, none of which fails,
   to leave the id in no phase at all.
   */
  lemma UntimelyLinkBreaks(s: Sys, t: Tid) returns (u: Tid, n: nat)
    requires Inv(s) && t in s.tasks && LinkMade(s.sh, s.tasks[t], true).Some? && !Timely(s, Run(t, true))
    ensures u in s.tasks && u != t && n <= 3
    ensures forall p :: !InPhase(StepMany(Step(s, t, true), u, n), LinkMade(s.sh, s.tasks[t], true).value.0, p)
  {
    var (id, ext) := LinkMade(s.sh, s.tasks[t], true).value;
    u :| u in Roles(s.tasks) && Roles(s.tasks)[u].seen == Some((id, ext));
    LinkExposes(s, t, u, id, ext);
    n := ExposedChase(Step(s, t, true), t, u, id, ext);
  }
}
