/** What becomes of a linked file: it stays, whole, until another task that has read its index entry unlinks it. */
module Survival {
  import opened Base
  import opened Names
  import opened Lifecycle
  import opened Protocol
  import opened ProtocolInvariant
  import opened Recovery
  import opened Phases

  /** The name of an id's file is linked to `ino`, and `bytes` is what was meant to be stored under the id. */
  ghost predicate FileIs(d: Disk, id: string, ext: string, ino: nat, bytes: Bytes) {
    Data(id, ext) in d.dir && d.dir[Data(id, ext)] == ino && id in d.made && d.made[id] == bytes
  }

  ghost predicate Indexed(sh: Shared, id: string, ext: string) {
    id in sh.index && sh.index[id] == ext
  }

  /** The step unlinks a file that its task has read from the index, for a delete, a rename or a concat. */
  predicate Strikes(k: Task, ok: bool, id: string, ext: string) {
    AboutToUnlink(k) && ok && SeenBy(k) == Some((id, ext))
  }

  // ---- What one step leaves alone ----

  /** A name that stays in the directory stays linked to the same file. */
  lemma SameInode(sh: Shared, k: Task, ok: bool, n: Name)
    requires n in sh.disk.dir && n in Advance(sh, k, ok).sh.disk.dir
    ensures Advance(sh, k, ok).sh.disk.dir[n] == sh.disk.dir[n]
  {
  }

  predicate Unlinking(pc: Pc) { pc.Moving? || pc.PartSeen? || pc.Seen? || pc.Rollback? }

  lemma UnlinkingKeepsNames(sh: Shared, k: Task, ok: bool, id: string, ext: string)
    requires Data(id, ext) in sh.disk.dir && !Strikes(k, ok, id, ext) && Unlinking(k.pc)
    requires k.pc.Rollback? ==> HeldBy(k) != Linked(id, ext)
    ensures Data(id, ext) in Advance(sh, k, ok).sh.disk.dir
  {
  }

  lemma OthersKeepNames(sh: Shared, k: Task, ok: bool, id: string, ext: string)
    requires Data(id, ext) in sh.disk.dir && !Unlinking(k.pc)
    ensures Data(id, ext) in Advance(sh, k, ok).sh.disk.dir
  {
  }

  /** Data files go only by a strike, or by the rollback of the rename that linked them. */
  lemma NameStays(sh: Shared, k: Task, ok: bool, id: string, ext: string)
    requires Data(id, ext) in sh.disk.dir && !Strikes(k, ok, id, ext)
    requires k.pc.Rollback? ==> HeldBy(k) != Linked(id, ext)
    ensures Data(id, ext) in Advance(sh, k, ok).sh.disk.dir
  {
    if Unlinking(k.pc) { UnlinkingKeepsNames(sh, k, ok, id, ext); } else { OthersKeepNames(sh, k, ok, id, ext); }
  }

  /** Only a link says anew what an id was meant to store. */
  lemma MadeStays(sh: Shared, k: Task, ok: bool, id: string)
    requires HeldBy(k) != Clear(id) && id in sh.disk.made
    ensures id in Advance(sh, k, ok).sh.disk.made && Advance(sh, k, ok).sh.disk.made[id] == sh.disk.made[id]
  {
  }

  lemma EntryStays(sh: Shared, k: Task, ok: bool, id: string, ext: string)
    requires Indexed(sh, id, ext) && RemovedBy(k) != Some(id)
    requires HeldBy(k).Linked? && HeldBy(k).id == id ==> HeldBy(k).ext == ext
    ensures Indexed(Advance(sh, k, ok).sh, id, ext)
  {
  }

  lemma FileStays(sh: Shared, k: Task, ok: bool, id: string, ext: string, ino: nat, bytes: Bytes)
    requires FileIs(sh.disk, id, ext, ino, bytes) && !Strikes(k, ok, id, ext) && HeldBy(k) != Clear(id)
    requires k.pc.Rollback? ==> HeldBy(k) != Linked(id, ext)
    ensures FileIs(Advance(sh, k, ok).sh.disk, id, ext, ino, bytes)
  {
    NameStays(sh, k, ok, id, ext);
    SameInode(sh, k, ok, Data(id, ext));
    MadeStays(sh, k, ok, id);
  }

  /** A strike that meets the file removes it, so nothing less than its absence keeps a file. */
  lemma StrikeRemoves(sh: Shared, k: Task, id: string, ext: string)
    requires Strikes(k, true, id, ext) && Data(id, ext) in sh.disk.dir
    ensures Data(id, ext) !in Advance(sh, k, true).sh.disk.dir
  {
  }

  /** What is known of each state of a run, and of each step. */
  lemma RunStep(states: seq<Sys>, labels: seq<Label>, m: nat)
    requires IsRun(states, labels) && Initial(states[0]) && m < |labels|
    ensures Inv(states[m]) && Enabled(states[m], labels[m]) && states[m + 1] == Apply(states[m], labels[m])
  {
    RunSafe(states, labels, m);
    assert StepAt(states, labels, m);
  }

  /** What a task can rely on. */
  ghost predicate Grounded(sh: Shared, k: Task) {
    Complete(sh.disk) && ReadsWhole(sh.disk, k) && ValidTask(k)
  }

  lemma RunGrounded(states: seq<Sys>, labels: seq<Label>, m: nat, t: Tid)
    requires IsRun(states, labels) && Initial(states[0]) && m < |states| && t in states[m].tasks
    ensures Grounded(states[m].sh, states[m].tasks[t])
  {
    RunSafe(states, labels, m);
  }

  /** `k'` is what the next step of the task makes of it. */
  predicate Becomes(sh: Shared, k: Task, ok: bool, k': Task) {
    k' == Advance(sh, k, ok).k
  }

  /** A task that has begun was there one step before, and that step was its own if it has changed. */
  lemma TaskBefore(states: seq<Sys>, labels: seq<Label>, i: nat, t: Tid)
    requires IsRun(states, labels) && Initial(states[0]) && i < |states|
    requires t in states[i].tasks && !states[i].tasks[t].pc.Start?
    ensures 0 < i && !labels[i - 1].Restart? && t in states[i - 1].tasks
    ensures || states[i].tasks[t] == states[i - 1].tasks[t]
            || (labels[i - 1].Run? && labels[i - 1].t == t
                && Becomes(states[i - 1].sh, states[i - 1].tasks[t], labels[i - 1].ok, states[i].tasks[t]))
  {
    if i > 0 { assert StepAt(states, labels, i - 1); }
  }

  // ---- Stored files ----

  ghost predicate StoredAs(s: Sys, id: string, ext: string, ino: nat, bytes: Bytes) {
    Indexed(s.sh, id, ext) && FileIs(s.sh.disk, id, ext, ino, bytes)
  }

  predicate StruckBy(s: Sys, l: Label, id: string, ext: string) {
    l.Run? && l.t in s.tasks && Strikes(s.tasks[l.t], l.ok, id, ext)
  }

  lemma NobodyElses(sh: Shared, tasks: map<Tid, Task>, u: Tid, id: string, ext: string)
    requires Alive(sh, tasks) && u in tasks && Data(id, ext) in sh.disk.dir
    ensures HeldBy(tasks[u]) != Clear(id) && RemovedBy(tasks[u]) != Some(id)
    ensures Indexed(sh, id, ext) ==> !(HeldBy(tasks[u]).Linked? && HeldBy(tasks[u]).id == id)
  {
    var roles := Roles(tasks);
    assert roles[u] == RoleOf(tasks[u]) && Data(id, ext) in sh.disk.dir.Keys;
    assert Removes(roles, u, id) <==> RemovedBy(tasks[u]) == Some(id);
    if HeldBy(tasks[u]).Linked? { assert Publishes(roles, u, HeldBy(tasks[u]).id, HeldBy(tasks[u]).ext); }
  }

  lemma RestartKeepsStored(s: Sys, pid: nat, id: string, ext: string, ino: nat, bytes: Bytes)
    requires Inv(s) && StoredAs(s, id, ext, ino, bytes)
    ensures Enabled(s, Restart(pid)) && StoredAs(Apply(s, Restart(pid)), id, ext, ino, bytes)
  {
    InvRecoverable(s);
    RecoverRestores(s, pid);
  }

  /** A stored file keeps its name, inode, bytes and index entry in every step, and in every crash, but a strike at it. */
  lemma StoredStays(s: Sys, l: Label, id: string, ext: string, ino: nat, bytes: Bytes)
    requires Inv(s) && Enabled(s, l) && StoredAs(s, id, ext, ino, bytes) && !StruckBy(s, l, id, ext)
    ensures StoredAs(Apply(s, l), id, ext, ino, bytes)
  {
    match l
    case Run(t, ok) =>
      NobodyElses(s.sh, s.tasks, t, id, ext);
      FileStays(s.sh, s.tasks[t], ok, id, ext, ino, bytes);
      EntryStays(s.sh, s.tasks[t], ok, id, ext);
    case Spawn(_, _) =>
    case Restart(pid) => RestartKeepsStored(s, pid, id, ext, ino, bytes);
  }

  /** Over every run: a stored file stays, the same and whole, until a task that has read its index entry unlinks it. */
  lemma {:induction false} StoredUntilStruck(states: seq<Sys>, labels: seq<Label>, i: nat, j: nat, id: string, ext: string,
                                             ino: nat, bytes: Bytes)
    requires IsRun(states, labels) && Initial(states[0]) && i <= j < |states|
    requires StoredAs(states[i], id, ext, ino, bytes)
    requires forall m :: i <= m < j ==> !StruckBy(states[m], labels[m], id, ext)
    ensures StoredAs(states[j], id, ext, ino, bytes)
    decreases j
  {
    if i < j {
      StoredUntilStruck(states, labels, i, j - 1, id, ext, ino, bytes);
      StoredNext(states, labels, j - 1, id, ext, ino, bytes);
    }
  }

  lemma StoredNext(states: seq<Sys>, labels: seq<Label>, m: nat, id: string, ext: string, ino: nat, bytes: Bytes)
    requires IsRun(states, labels) && Initial(states[0]) && m < |labels|
    requires StoredAs(states[m], id, ext, ino, bytes) && !StruckBy(states[m], labels[m], id, ext)
    ensures StoredAs(states[m + 1], id, ext, ino, bytes)
  {
    RunStep(states, labels, m);
    StoredStays(states[m], labels[m], id, ext, ino, bytes);
  }

  // ---- A concat never deletes its own target ----

  /** How many parts a concat has found in the index while it held its own id's reservation. */
  function Passed(pc: Pc, parts: nat): nat {
    match pc
    case Writing(_, j) => j
    case PartNamed(_, j, _, _) => j + 1
    case PartOpen(_, j, _, _) => j + 1
    case Flushed(_) | Published(_) | Indexing => parts
    case Deleting(_) | PartSeen(_, _, _) | PartUnlinked(_, _) => parts
    case _ => 0
  }

  predicate Apart(k: Task) {
    && (!k.op.kind.Put? ==> forall i :: 0 <= i < Min(Passed(k.pc, |k.op.parts|), |k.op.parts|) ==> k.op.parts[i] != k.op.id)
    && (k.pc.Deleting? || k.pc.PartSeen? || k.pc.PartUnlinked? ==> !k.op.kind.Put?)
    && (k.pc.PartSeen? ==> k.pc.part != k.op.id)
  }

  predicate Copying(pc: Pc) { pc.Writing? || pc.PartNamed? || pc.PartOpen? }

  lemma CopyingKeepsApart(sh: Shared, k: Task, ok: bool)
    requires Apart(k) && Copying(k.pc) && k.op.id !in sh.index
    ensures Apart(Advance(sh, k, ok).k)
  {
  }

  lemma OthersKeepApart(sh: Shared, k: Task, ok: bool)
    requires Apart(k) && !Copying(k.pc)
    ensures Apart(Advance(sh, k, ok).k)
  {
  }

  lemma StepKeepsApart(sh: Shared, k: Task, ok: bool)
    requires Apart(k) && (HeldBy(k).Clear? ==> k.op.id !in sh.index)
    ensures Apart(Advance(sh, k, ok).k)
  {
    if Copying(k.pc) { CopyingKeepsApart(sh, k, ok); } else { OthersKeepApart(sh, k, ok); }
  }

  lemma ClearIsNotIndexed(sh: Shared, tasks: map<Tid, Task>, t: Tid)
    requires Alive(sh, tasks) && t in tasks && HeldBy(tasks[t]).Clear?
    ensures tasks[t].op.id !in sh.index
  {
    assert Roles(tasks)[t].held == Clear(tasks[t].op.id);
  }

  lemma ApartNext(states: seq<Sys>, labels: seq<Label>, m: nat, t: Tid)
    requires IsRun(states, labels) && Initial(states[0]) && m < |labels| && t in states[m + 1].tasks
    requires t in states[m].tasks ==> Apart(states[m].tasks[t])
    ensures Apart(states[m + 1].tasks[t])
  {
    assert StepAt(states, labels, m);
    var s, l := states[m], labels[m];
    if l.Run? && l.t == t {
      RunStep(states, labels, m);
      if HeldBy(s.tasks[t]).Clear? { ClearIsNotIndexed(s.sh, s.tasks, t); }
      StepKeepsApart(s.sh, s.tasks[t], l.ok);
    }
  }

  /** In every state of every run: no task has its own id among the parts it has been through. */
  lemma {:induction false} RunApart(states: seq<Sys>, labels: seq<Label>, i: nat, t: Tid)
    requires IsRun(states, labels) && Initial(states[0]) && i < |states| && t in states[i].tasks
    ensures Apart(states[i].tasks[t])
  {
    if i > 0 {
      if t in states[i - 1].tasks { RunApart(states, labels, i - 1, t); }
      ApartNext(states, labels, i - 1, t);
    }
  }

  // ---- From the link on ----

  /** The task has linked the file of its id, and has not given it up. */
  predicate PastLink(k: Task) {
    match k.pc
    case Published(_) | Indexing | Moving(_) | Moved(_) | Reindex(_) => true
    case Deleting(_) | PartSeen(_, _, _) | PartUnlinked(_, _) => true
    case Leaving(reply) => reply == Success
    case Done(reply) => reply == Success
    case _ => false
  }

  /** The bytes meant for the file that a task is about to link. */
  function Meant(sh: Shared, k: Task): Bytes {
    if k.pc.Linking? then MadeFor(sh.disk, k.op.source) else Intended(k)
  }

  /** Since its link, the task has kept its request, and what it meant to store. */
  predicate SameRequest(k: Task, k': Task) {
    k'.op == k.op && k'.want == k.want
  }

  lemma StepPastLink(sh: Shared, k: Task, ok: bool)
    requires PastLink(Advance(sh, k, ok).k)
    ensures PastLink(k) || (LinkMade(sh, k, ok).Some? && ok)
    ensures SameRequest(k, Advance(sh, k, ok).k)
  {
  }

  /** Task `t` makes its link in step `link`, and has lived on in the same process up to state `i`. */
  ghost predicate LinkedAt(states: seq<Sys>, labels: seq<Label>, link: nat, i: nat, t: Tid)
    requires |states| == |labels| + 1
  {
    && link < i < |states| && labels[link] == Run(t, true) && t in states[link].tasks
    && LinkMade(states[link].sh, states[link].tasks[t], true).Some?
    && (forall m :: link <= m < i ==> !labels[m].Restart?)
    && (forall m :: link < m <= i ==>
          t in states[m].tasks && PastLink(states[m].tasks[t]) && SameRequest(states[link].tasks[t], states[m].tasks[t]))
  }

  lemma LinkedEarlier(states: seq<Sys>, labels: seq<Label>, link: nat, i: nat, j: nat, t: Tid)
    requires |states| == |labels| + 1 && LinkedAt(states, labels, link, i, t) && link < j <= i
    ensures LinkedAt(states, labels, link, j, t)
  {
  }

  lemma LinkedLater(states: seq<Sys>, labels: seq<Label>, link: nat, i: nat, t: Tid)
    requires |states| == |labels| + 1 && LinkedAt(states, labels, link, i, t) && i + 1 < |states| && !labels[i].Restart?
    requires t in states[i + 1].tasks && PastLink(states[i + 1].tasks[t]) && SameRequest(states[i].tasks[t], states[i + 1].tasks[t])
    ensures LinkedAt(states, labels, link, i + 1, t)
  {
  }

  /** A task past its link was past it one step before, or has just made it. */
  lemma OneStepBack(states: seq<Sys>, labels: seq<Label>, i: nat, t: Tid)
    requires IsRun(states, labels) && Initial(states[0]) && i < |states|
    requires t in states[i].tasks && PastLink(states[i].tasks[t])
    ensures 0 < i && !labels[i - 1].Restart? && t in states[i - 1].tasks
    ensures SameRequest(states[i - 1].tasks[t], states[i].tasks[t])
    ensures || PastLink(states[i - 1].tasks[t])
            || (labels[i - 1] == Run(t, true) && LinkMade(states[i - 1].sh, states[i - 1].tasks[t], true).Some?)
  {
    TaskBefore(states, labels, i, t);
    var s := states[i - 1];
    if states[i].tasks[t] != s.tasks[t] { StepPastLink(s.sh, s.tasks[t], labels[i - 1].ok); }
  }

  /** Whatever is past its link has made one. */
  lemma {:induction false} FindLink(states: seq<Sys>, labels: seq<Label>, i: nat, t: Tid) returns (link: nat)
    requires IsRun(states, labels) && Initial(states[0]) && i < |states|
    requires t in states[i].tasks && PastLink(states[i].tasks[t])
    ensures LinkedAt(states, labels, link, i, t)
  {
    OneStepBack(states, labels, i, t);
    if PastLink(states[i - 1].tasks[t]) {
      link := FindLink(states, labels, i - 1, t);
      LinkedLater(states, labels, link, i - 1, t);
    } else {
      link := i - 1;
    }
  }

  /** The file that `t` has linked is there, indexed as soon as `t` has come that far. */
  ghost predicate Upheld(s: Sys, t: Tid, id: string, ext: string, ino: nat, bytes: Bytes) {
    && t in s.tasks && s.tasks[t].op.id == id && PastLink(s.tasks[t])
    && FileIs(s.sh.disk, id, ext, ino, bytes)
    && (HeldBy(s.tasks[t]) == Linked(id, ext) || (!HeldBy(s.tasks[t]).Linked? && Indexed(s.sh, id, ext)))
  }

  lemma LinkResult(sh: Shared, k: Task)
    requires Inodes(sh.disk) && LinkMade(sh, k, true).Some?
    ensures var (id, ext) := LinkMade(sh, k, true).value;
            var a := Advance(sh, k, true);
            && HeldBy(a.k) == Linked(id, ext) && PastLink(a.k) && a.k.op == k.op && k.op.id == id
            && Data(id, ext) in a.sh.disk.dir
            && FileIs(a.sh.disk, id, ext, a.sh.disk.dir[Data(id, ext)], Meant(sh, k))
  {
  }

  lemma LinkUpholds(s: Sys, t: Tid)
    requires Inodes(s.sh.disk) && t in s.tasks && LinkMade(s.sh, s.tasks[t], true).Some?
    ensures var (id, ext) := LinkMade(s.sh, s.tasks[t], true).value;
            var s' := Step(s, t, true);
            && Data(id, ext) in s'.sh.disk.dir
            && Upheld(s', t, id, ext, s'.sh.disk.dir[Data(id, ext)], Meant(s.sh, s.tasks[t]))
  {
    LinkResult(s.sh, s.tasks[t]);
  }

  lemma OwnStrike(s: Sys, t: Tid, ok: bool, id: string, ext: string)
    requires Alive(s.sh, s.tasks) && t in s.tasks && Apart(s.tasks[t])
    requires s.tasks[t].op.id == id && PastLink(s.tasks[t])
    ensures !Strikes(s.tasks[t], ok, id, ext)
  {
    assert Roles(s.tasks)[t] == RoleOf(s.tasks[t]);
  }

  lemma OwnStep(sh: Shared, k: Task, ok: bool, id: string, ext: string)
    requires HeldBy(k) == Linked(id, ext) && PastLink(Advance(sh, k, ok).k)
    ensures var a := Advance(sh, k, ok); HeldBy(a.k) == Linked(id, ext) || (!HeldBy(a.k).Linked? && Indexed(a.sh, id, ext))
  {
  }

  lemma OwnTail(sh: Shared, k: Task, ok: bool)
    requires PastLink(k) && !HeldBy(k).Linked?
    ensures !HeldBy(Advance(sh, k, ok).k).Linked?
  {
  }

  lemma OwnStepUpholds(s: Sys, t: Tid, ok: bool, id: string, ext: string, ino: nat, bytes: Bytes)
    requires Alive(s.sh, s.tasks) && Upheld(s, t, id, ext, ino, bytes) && Apart(s.tasks[t]) && PastLink(Advance(s.sh, s.tasks[t], ok).k)
    ensures Upheld(Step(s, t, ok), t, id, ext, ino, bytes)
  {
    var k := s.tasks[t];
    NobodyElses(s.sh, s.tasks, t, id, ext);
    OwnStrike(s, t, ok, id, ext);
    FileStays(s.sh, k, ok, id, ext, ino, bytes);
    if HeldBy(k).Linked? {
      OwnStep(s.sh, k, ok, id, ext);
    } else {
      OwnTail(s.sh, k, ok);
      EntryStays(s.sh, k, ok, id, ext);
    }
  }

  lemma OtherStepUpholds(s: Sys, u: Tid, ok: bool, t: Tid, id: string, ext: string, ino: nat, bytes: Bytes)
    requires Alive(s.sh, s.tasks) && Upheld(s, t, id, ext, ino, bytes) && u in s.tasks && u != t && !Strikes(s.tasks[u], ok, id, ext)
    ensures Upheld(Step(s, u, ok), t, id, ext, ino, bytes)
  {
    var k, roles := s.tasks[u], Roles(s.tasks);
    NobodyElses(s.sh, s.tasks, u, id, ext);
    if k.pc.Rollback? && HeldBy(k) == Linked(id, ext) && !Indexed(s.sh, id, ext) {
      assert Holds(roles, u, id) && Holds(roles, t, id);
    }
    FileStays(s.sh, k, ok, id, ext, ino, bytes);
    if Indexed(s.sh, id, ext) { EntryStays(s.sh, k, ok, id, ext); }
  }

  /** A task other than `t` strikes at the file. */
  predicate StruckByOther(s: Sys, l: Label, t: Tid, id: string, ext: string) {
    StruckBy(s, l, id, ext) && l.t != t
  }

  lemma StepUpholds(s: Sys, l: Label, t: Tid, id: string, ext: string, ino: nat, bytes: Bytes)
    requires Alive(s.sh, s.tasks) && Enabled(s, l) && !l.Restart? && Upheld(s, t, id, ext, ino, bytes) && Apart(s.tasks[t])
    requires !StruckByOther(s, l, t, id, ext)
    requires t in Apply(s, l).tasks && PastLink(Apply(s, l).tasks[t])
    ensures Upheld(Apply(s, l), t, id, ext, ino, bytes)
  {
    match l
    case Run(u, ok) =>
      if u == t { OwnStepUpholds(s, t, ok, id, ext, ino, bytes); } else { OtherStepUpholds(s, u, ok, t, id, ext, ino, bytes); }
    case Spawn(_, _) =>
  }

  lemma {:induction false} LinkedStays(states: seq<Sys>, labels: seq<Label>, link: nat, i: nat, t: Tid, id: string,
                                       ext: string, ino: nat, bytes: Bytes)
    requires IsRun(states, labels) && Initial(states[0]) && LinkedAt(states, labels, link, i, t)
    requires Upheld(states[link + 1], t, id, ext, ino, bytes)
    requires forall m :: link < m < i ==> !StruckByOther(states[m], labels[m], t, id, ext)
    ensures Upheld(states[i], t, id, ext, ino, bytes)
    decreases i
  {
    if i != link + 1 {
      LinkedEarlier(states, labels, link, i, i - 1, t);
      LinkedStays(states, labels, link, i - 1, t, id, ext, ino, bytes);
      UpheldNext(states, labels, i - 1, t, id, ext, ino, bytes);
    }
  }

  lemma LinkStep(states: seq<Sys>, labels: seq<Label>, link: nat, t: Tid)
    requires IsRun(states, labels) && Initial(states[0]) && link < |labels| && labels[link] == Run(t, true)
    requires t in states[link].tasks && LinkMade(states[link].sh, states[link].tasks[t], true).Some?
    ensures var (id, ext) := LinkMade(states[link].sh, states[link].tasks[t], true).value;
            && Data(id, ext) in states[link + 1].sh.disk.dir
            && Upheld(states[link + 1], t, id, ext, states[link + 1].sh.disk.dir[Data(id, ext)],
                      Meant(states[link].sh, states[link].tasks[t]))
  {
    RunStep(states, labels, link);
    LinkUpholds(states[link], t);
  }

  lemma UpheldNext(states: seq<Sys>, labels: seq<Label>, m: nat, t: Tid, id: string, ext: string, ino: nat, bytes: Bytes)
    requires IsRun(states, labels) && Initial(states[0]) && m < |labels|
    requires Upheld(states[m], t, id, ext, ino, bytes) && !labels[m].Restart?
    requires !StruckByOther(states[m], labels[m], t, id, ext)
    requires t in states[m + 1].tasks && PastLink(states[m + 1].tasks[t])
    ensures Upheld(states[m + 1], t, id, ext, ino, bytes)
  {
    RunStep(states, labels, m);
    RunApart(states, labels, m, t);
    StepUpholds(states[m], labels[m], t, id, ext, ino, bytes);
  }

  // ---- The theorems ----

  /** No task but `t` has struck at the file since `t` linked it. */
  ghost predicate Unstruck(states: seq<Sys>, labels: seq<Label>, link: nat, i: nat, t: Tid, id: string, ext: string)
    requires |states| == |labels| + 1 && i <= |labels|
  {
    forall m :: link < m < i ==> !StruckByOther(states[m], labels[m], t, id, ext)
  }

  /**
   In every state of every run: a put, rename or concat that has linked its file, up to and after its successful
   reply, has it in the directory, with the bytes meant for it, and in the index as soon as it has come that far,
   unless another task that had read the index entry has unlinked it.
   */
  lemma PublishedStays(states: seq<Sys>, labels: seq<Label>, i: nat, t: Tid) returns (link: nat, ext: string, ino: nat)
    requires IsRun(states, labels) && Initial(states[0]) && i < |states|
    requires t in states[i].tasks && PastLink(states[i].tasks[t])
    ensures LinkedAt(states, labels, link, i, t)
    ensures LinkMade(states[link].sh, states[link].tasks[t], true) == Some((states[i].tasks[t].op.id, ext))
    ensures Unstruck(states, labels, link, i, t, states[i].tasks[t].op.id, ext) ==>
              Upheld(states[i], t, states[i].tasks[t].op.id, ext, ino, Meant(states[link].sh, states[link].tasks[t]))
  {
    link := FindLink(states, labels, i, t);
    var k := states[link].tasks[t];
    LinkerIsItsOwn(states[link].sh, k);
    var id := k.op.id;
    ext := LinkMade(states[link].sh, k, true).value.1;
    LinkStep(states, labels, link, t);
    ino := states[link + 1].sh.disk.dir[Data(id, ext)];
    if Unstruck(states, labels, link, i, t, id, ext) {
      LinkedStays(states, labels, link, i, t, id, ext, ino, Meant(states[link].sh, k));
    }
  }

  lemma LinkerIsItsOwn(sh: Shared, k: Task)
    requires LinkMade(sh, k, true).Some?
    ensures LinkMade(sh, k, true).value.0 == k.op.id
  {
  }

  /** A restart finds the file under its id, with these bytes. */
  ghost predicate FoundAgain(s: Sys, id: string, ext: string, bytes: Bytes) {
    && Indexed(s.sh, id, ext) && Data(id, ext) in s.sh.disk.dir && s.sh.disk.dir[Data(id, ext)] in s.sh.disk.data
    && s.sh.disk.data[s.sh.disk.dir[Data(id, ext)]].bytes == bytes
  }

  lemma UpheldSurvives(s: Sys, t: Tid, id: string, ext: string, ino: nat, bytes: Bytes, pid: nat)
    requires Inv(s) && Upheld(s, t, id, ext, ino, bytes)
    ensures Enabled(s, Restart(pid)) && FoundAgain(Apply(s, Restart(pid)), id, ext, bytes)
  {
    InvRecoverable(s);
    RecoverRestores(s, pid);
  }

  /**
   A crash at any time after the link, also while a concat deletes its parts, and after the reply, loses nothing: the
   restarted process has the id with the bytes meant for it, unless another task has unlinked the file before.
   */
  lemma PublishedSurvivesCrash(states: seq<Sys>, labels: seq<Label>, i: nat, t: Tid, pid: nat) returns (link: nat, ext: string)
    requires IsRun(states, labels) && Initial(states[0]) && i < |states|
    requires t in states[i].tasks && PastLink(states[i].tasks[t])
    ensures LinkedAt(states, labels, link, i, t)
    ensures LinkMade(states[link].sh, states[link].tasks[t], true) == Some((states[i].tasks[t].op.id, ext))
    ensures Enabled(states[i], Restart(pid))
    ensures Unstruck(states, labels, link, i, t, states[i].tasks[t].op.id, ext) ==>
              FoundAgain(Apply(states[i], Restart(pid)), states[i].tasks[t].op.id, ext, Meant(states[link].sh, states[link].tasks[t]))
  {
    var ino: nat;
    link, ext, ino := PublishedStays(states, labels, i, t);
    RunSafe(states, labels, i);
    InvRecoverable(states[i]);
    var id := states[i].tasks[t].op.id;
    if Unstruck(states, labels, link, i, t, id, ext) {
      UpheldSurvives(states[i], t, id, ext, ino, Meant(states[link].sh, states[link].tasks[t]), pid);
    }
  }
}
