/** What every step of the protocol keeps. */
module ProtocolInvariant {
  import opened Base
  import opened Names
  import opened Lifecycle
  import opened Protocol

  // ---- Files ----

  ghost predicate Inodes(d: Disk) {
    && (forall n :: n in d.dir ==> d.dir[n] in d.data)
    && (forall i :: i in d.data ==> i < d.next)
    && (forall a, b :: a in d.dir && b in d.dir && d.dir[a] == d.dir[b] && a != b ==> d.data[d.dir[a]].published)
    && (forall n :: n in d.dir ==> WellFormed(n) && !n.Cap? && n.id != "cap")
  }

  /** Every linked data file holds, completely, what its creator meant to store. */
  ghost predicate Complete(d: Disk) {
    forall n :: n in d.dir && n.Data? ==>
      d.dir[n] in d.data && n.id in d.made && d.data[d.dir[n]] == Node(d.made[n.id], true)
  }

  /** Only the names in `touched` are made, removed, or written through; published files never change. */
  ghost predicate Undisturbed(d: Disk, d': Disk, touched: set<Name>) {
    && (forall n :: n in d.dir && n !in touched ==> n in d'.dir && d'.dir[n] == d.dir[n])
    && (forall n :: n in d'.dir && n !in touched ==> n in d.dir)
    && (forall i :: i in d.data && d.data[i].published ==> i in d'.data && d'.data[i] == d.data[i])
    && (forall n :: n in d.dir && n !in touched && d.dir[n] in d.data && !d.data[d.dir[n]].published ==>
          d.dir[n] in d'.data && d'.data[d.dir[n]] == d.data[d.dir[n]])
  }

  ghost predicate Sound(d: Disk) {
    Inodes(d) && Complete(d)
  }

  ghost predicate Keeps(d: Disk, d': Disk, touched: set<Name>) {
    Sound(d') && Undisturbed(d, d', touched)
  }

  lemma SameKeeps(d: Disk)
    requires Sound(d)
    ensures Keeps(d, d, {})
  {
  }

  lemma CreateKeeps(d: Disk, n: Name)
    requires Sound(d) && WellFormed(n) && (n.Temp? || n.Reserve?) && n.id != "cap" && n !in d.dir
    ensures Keeps(d, Create(d, n), {n})
  {
  }

  lemma RemoveKeeps(d: Disk, n: Name)
    requires Sound(d)
    ensures Keeps(d, Remove(d, n), {n})
  {
  }

  lemma AppendKeeps(d: Disk, n: Name, b: Bytes)
    requires Sound(d) && n in d.dir && !d.data[d.dir[n]].published
    ensures Keeps(d, Append(d, n, b), {n})
  {
  }

  lemma LinkKeeps(d: Disk, from: Name, id: string, ext: string, intended: Bytes)
    requires Sound(d) && from in d.dir && d.data[d.dir[from]].bytes == intended
    requires WellFormed(Data(id, ext)) && id != "cap" && forall e :: Data(id, e) !in d.dir
    ensures Keeps(d, LinkData(d, from, id, ext, intended), {from, Data(id, ext)})
  {
  }

  // ---- Files of one task ----

  /** The counter value of the temporary file a task may have in the directory. */
  function TempBy(k: Task): Option<nat> {
    match k.pc
    case Writing(n, _) => Some(n)
    case PartNamed(n, _, _, _) => Some(n)
    case PartOpen(n, _, _, _) => Some(n)
    case Flushed(n) => Some(n)
    case Published(n) => Some(n)
    case Abort(n, _) => Some(n)
    case _ => None
  }

  function Prefix(items: seq<Item>, j: nat): Bytes {
    if j < |items| then Body(items[..j]) else Body(items)
  }

  /** What a temporary file holds while it is still being filled. */
  function Progress(k: Task): Option<Bytes> {
    match k.pc
    case Writing(_, j) => Some(if k.op.kind.Put? then Prefix(k.op.items, j) else k.want)
    case PartNamed(_, _, _, _) => Some(k.want)
    case PartOpen(_, _, _, _) => Some(k.want)
    case Flushed(_) => Some(Intended(k))
    case _ => None
  }

  /** The file a task has open for reading, and what it expects to read. */
  function Reading(k: Task): Option<(nat, Bytes)> {
    match k.pc
    case PartOpen(_, _, ino, intended) => Some((ino, intended))
    case Open(ino, intended) => Some((ino, intended))
    case _ => None
  }

  ghost predicate Filling(d: Disk, pid: nat, k: Task) {
    TempBy(k).Some? ==>
      var n := TempOf(pid, k, TempBy(k).value);
      && (Progress(k).Some? ==> n in d.dir && d.dir[n] in d.data && d.data[d.dir[n]] == Node(Progress(k).value, false))
      && (k.pc.Abort? && n in d.dir ==> d.dir[n] in d.data && !d.data[d.dir[n]].published)
  }

  ghost predicate ReadsWhole(d: Disk, k: Task) {
    Reading(k).Some? ==>
      var (ino, intended) := Reading(k).value; ino in d.data && d.data[ino] == Node(intended, true)
  }

  ghost predicate MyFiles(sh: Shared, k: Task) {
    && Sound(sh.disk) && Filling(sh.disk, sh.pid, k) && ReadsWhole(sh.disk, k) && ValidTask(k)
  }

  // ---- The invariant ----

  ghost predicate Owns(pid: nat, tasks: map<Tid, Task>, t: Tid, n: Name) {
    t in tasks && TempBy(tasks[t]).Some? && n == TempOf(pid, tasks[t], TempBy(tasks[t]).value)
  }

  ghost predicate Temps(sh: Shared, tasks: map<Tid, Task>) {
    && (forall t, u, n :: Owns(sh.pid, tasks, t, n) && Owns(sh.pid, tasks, u, n) ==> t == u)
    && (forall t :: t in tasks && TempBy(tasks[t]).Some? ==> TempBy(tasks[t]).value < sh.counter)
    && (forall n :: n in sh.disk.dir && n.Temp? ==> exists t :: Owns(sh.pid, tasks, t, n))
  }

  ghost predicate Contents(sh: Shared, tasks: map<Tid, Task>) {
    forall t :: t in tasks ==> Filling(sh.disk, sh.pid, tasks[t]) && ReadsWhole(sh.disk, tasks[t])
  }

  ghost predicate Files(sh: Shared, tasks: map<Tid, Task>) {
    Sound(sh.disk) && Temps(sh, tasks) && Contents(sh, tasks)
  }

  ghost predicate History(sh: Shared, tasks: map<Tid, Task>) {
    && sh.index.Keys <= sh.ever
    && (forall t :: t in tasks && SeenBy(tasks[t]).Some? ==> SeenBy(tasks[t]).value.0 in sh.ever)
    && (forall t :: t in tasks ==> ValidTask(tasks[t]))
  }

  /** Requests are valid, a task is at a stage of its own kind of request, and `want` starts out empty. */
  predicate ValidTask(k: Task) {
    && ValidOp(k.op)
    && (HeldBy(k) != Free ==> k.op.Creates())
    && (TempBy(k).Some? || k.pc.Space? || k.pc.MakeTemp? || k.pc.Indexing? ==> k.op.kind.Put? || k.op.kind.Concat?)
    && (k.pc.PartNamed? || k.pc.PartOpen? ==> k.op.kind.Concat?)
    && (k.pc.Start? || k.pc.Reserved? || k.pc.Space? || k.pc.MakeTemp? ==> k.want == [])
  }

  ghost predicate Alive(sh: Shared, tasks: map<Tid, Task>) {
    Life(sh.disk.dir.Keys, sh.index, Roles(tasks))
  }

  ghost predicate Inv(s: Sys) {
    Alive(s.sh, s.tasks) && Files(s.sh, s.tasks) && History(s.sh, s.tasks)
  }
}
