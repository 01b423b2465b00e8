/**
 The storage protocol as a step relation: any number of tasks over one directory and one index.

 One step is one filesystem call or one access to the index. `ok` says whether the environment lets that call
 succeed; the removals that only clean up (temporary file, reservation, rollback) always do.
 */
module Protocol {
  import opened Base
  import opened Names
  import opened Lifecycle

  datatype Kind = Put | Rename | Concat | Delete | Get

  /** A request. A kind leaves the fields it has no use for unread. */
  datatype Op = Op(kind: Kind, id: string, ext: string, items: seq<Item>, parts: seq<string>, source: string)
  {
    predicate Creates() { kind.Put? || kind.Rename? || kind.Concat? }

    /** The number of rounds of the loop that fills the temporary file. */
    function Rounds(): nat {
      if kind.Put? then |items| else |parts|
    }
  }

  datatype Reply = Success | Deleted(found: bool) | Contents(bytes: Bytes) | Failure(error: StorageError)

  datatype Pc =
    | Start
    | Done(reply: Reply)
    // every creating operation
    | Reserved                                        // reservation made; consult the index
    | Refused                                         // the index has the id; remove the reservation
    | Leaving(reply: Reply)                           // drop the reservation
    // put and concat
    | Space                                           // check the free space
    | MakeTemp                                        // create the temporary file
    | Writing(n: nat, round: nat)                     // temporary file open
    | Flushed(n: nat)                                 // link the temporary file to its final name
    | Published(n: nat)                               // unlink the temporary name
    | Indexing                                        // insert the index entry
    | Abort(n: nat, error: StorageError)              // remove the temporary file
    // concat
    | PartNamed(n: nat, round: nat, part: string, ext: string)  // open the part
    | PartOpen(n: nat, round: nat, ino: nat, intended: Bytes)   // copy the part
    | Deleting(round: nat)                            // look up the next part to delete
    | PartSeen(round: nat, part: string, ext: string) // unlink the part
    | PartUnlinked(round: nat, part: string)          // remove the part's index entry
    // rename
    | Lookup                                          // read the old id's extension
    | Probe(ext: string)                              // stat the old file
    | Linking(ext: string)                            // link the old file to the new name
    | Moving(ext: string)                             // unlink the old name
    | Rollback(ext: string)                           // unlink the new name
    | Moved(ext: string)                              // remove the old index entry
    | Reindex(ext: string)                            // insert the new index entry
    // delete and get
    | Seen(ext: string)                               // unlink or open the file
    | Unlinked                                        // remove the index entry
    | Open(ino: nat, intended: Bytes)                 // read the file

  /** `want` records, for a concat, what the creators of the parts opened so far meant to store. */
  datatype Task = Task(op: Op, pc: Pc, want: Bytes)

  /** A file: its bytes, and whether a final name was ever linked to it. */
  datatype Node = Node(bytes: Bytes, published: bool)

  /** The directory and the files. `made` is history: what the creator of each id meant to store. */
  datatype Disk = Disk(dir: map<Name, nat>, data: map<nat, Node>, next: nat, made: map<string, Bytes>)

  /** What all tasks share. `ever` is history: the ids indexed since the process started. */
  datatype Shared = Shared(disk: Disk, index: map<string, string>, ever: set<string>, pid: nat, counter: nat)

  datatype Sys = Sys(sh: Shared, tasks: map<Tid, Task>)

  // ---- Filesystem calls ----

  /** A new empty file. */
  function Create(d: Disk, n: Name): Disk {
    d.(dir := d.dir[n := d.next], data := d.data[d.next := Node([], false)], next := d.next + 1)
  }

  function Remove(d: Disk, n: Name): Disk {
    d.(dir := d.dir - {n})
  }

  function Append(d: Disk, n: Name, b: Bytes): Disk {
    if n in d.dir && d.dir[n] in d.data
    then d.(data := d.data[d.dir[n] := d.data[d.dir[n]].(bytes := d.data[d.dir[n]].bytes + b)])
    else d
  }

  /** Hard link `from` to a data file of `id`, meant to hold `intended`. */
  function LinkData(d: Disk, from: Name, id: string, ext: string, intended: Bytes): Disk {
    if from in d.dir && d.dir[from] in d.data
    then d.(dir := d.dir[Data(id, ext) := d.dir[from]],
            data := d.data[d.dir[from] := d.data[d.dir[from]].(published := true)],
            made := d.made[id := intended])
    else d
  }

  function MadeFor(d: Disk, id: string): Bytes {
    if id in d.made then d.made[id] else []
  }

  // ---- One step of one task ----

  /** What a step of one task leaves behind. */
  datatype After = After(sh: Shared, k: Task)

  function Goto(sh: Shared, k: Task, pc: Pc): After {
    After(sh, k.(pc := pc))
  }

  function OnDisk(sh: Shared, d: Disk, k: Task, pc: Pc): After {
    After(sh.(disk := d), k.(pc := pc))
  }

  function Enter(sh: Shared, id: string, ext: string): Shared {
    sh.(index := sh.index[id := ext], ever := sh.ever + {id})
  }

  function Forget(sh: Shared, id: string): Shared {
    sh.(index := sh.index - {id})
  }

  function TempOf(pid: nat, k: Task, n: nat): Name {
    Temp(k.op.id, pid, n)
  }

  /** What a put or a concat means to store. */
  function Intended(k: Task): Bytes {
    if k.op.kind.Put? then Body(k.op.items) else k.want
  }

  function AtReserve(sh: Shared, k: Task, ok: bool): After {
    if !ok then Goto(sh, k, Done(Failure(Io)))
    else if Reserve(k.op.id) in sh.disk.dir then Goto(sh, k, Done(Failure(Conflict)))
    else OnDisk(sh, Create(sh.disk, Reserve(k.op.id)), k, Reserved)
  }

  function AtLookup(sh: Shared, k: Task): After {
    if k.op.id in sh.index then Goto(sh, k, Seen(sh.index[k.op.id]))
    else Goto(sh, k, Done(if k.op.kind.Delete? then Deleted(false) else Failure(NotFound)))
  }

  function AtReserved(sh: Shared, k: Task): After {
    Goto(sh, k, if k.op.id in sh.index then Refused else if k.op.kind.Rename? then Lookup else Space)
  }

  function AtMakeTemp(sh: Shared, k: Task, ok: bool): After {
    var n := sh.counter;
    var sh' := sh.(counter := n + 1);
    var name := TempOf(sh.pid, k, n);
    if !ok then Goto(sh', k, Abort(n, Io))
    else if name in sh.disk.dir then Goto(sh', k, Abort(n, if k.op.kind.Put? then Conflict else Io))
    else OnDisk(sh', Create(sh.disk, name), k, Writing(n, 0))
  }

  function AtWrite(sh: Shared, k: Task, n: nat, j: nat, ok: bool): After {
    if j >= k.op.Rounds() then Goto(sh, k, if ok then Flushed(n) else Abort(n, Io))
    else if k.op.kind.Put? then
      match k.op.items[j]
      case Fail(e) => Goto(sh, k, Abort(n, e))
      case Chunk(b) =>
        if ok then OnDisk(sh, Append(sh.disk, TempOf(sh.pid, k, n), b), k, Writing(n, j + 1))
        else Goto(sh, k, Abort(n, Io))
    else
      var part := k.op.parts[j];
      if part in sh.index then Goto(sh, k, PartNamed(n, j, part, sh.index[part]))
      else Goto(sh, k, Abort(n, NotFound))
  }

  function AtPartNamed(sh: Shared, k: Task, n: nat, j: nat, part: string, ext: string, ok: bool): After {
    if !ok then Goto(sh, k, Abort(n, Io))
    else if Data(part, ext) !in sh.disk.dir then Goto(sh, k, Abort(n, NotFound))
    else Goto(sh, k, PartOpen(n, j, sh.disk.dir[Data(part, ext)], MadeFor(sh.disk, part)))
  }

  function AtPartOpen(sh: Shared, k: Task, n: nat, j: nat, ino: nat, intended: Bytes, ok: bool): After {
    if !ok || ino !in sh.disk.data then Goto(sh, k, Abort(n, Io))
    else After(sh.(disk := Append(sh.disk, TempOf(sh.pid, k, n), sh.disk.data[ino].bytes)),
               Task(k.op, Writing(n, j + 1), k.want + intended))
  }

  function AtFlushed(sh: Shared, k: Task, n: nat, ok: bool): After {
    if !ok || TempOf(sh.pid, k, n) !in sh.disk.dir then Goto(sh, k, Abort(n, Io))
    else if Data(k.op.id, k.op.ext) in sh.disk.dir then Goto(sh, k, Abort(n, Conflict))
    else OnDisk(sh, LinkData(sh.disk, TempOf(sh.pid, k, n), k.op.id, k.op.ext, Intended(k)), k, Published(n))
  }

  function AtDeleting(sh: Shared, k: Task, j: nat): After {
    if j >= |k.op.parts| then Goto(sh, k, Leaving(Success))
    else if k.op.parts[j] in sh.index then Goto(sh, k, PartSeen(j, k.op.parts[j], sh.index[k.op.parts[j]]))
    else Goto(sh, k, Deleting(j + 1))
  }

  /** `delete` of one part of a finished concat; a failure is only logged. */
  function AtPartSeen(sh: Shared, k: Task, j: nat, part: string, ext: string, ok: bool): After {
    if ok && Data(part, ext) in sh.disk.dir
    then OnDisk(sh, Remove(sh.disk, Data(part, ext)), k, PartUnlinked(j, part))
    else Goto(sh, k, Deleting(j + 1))
  }

  function AtSource(sh: Shared, k: Task): After {
    if k.op.source in sh.index then Goto(sh, k, Probe(sh.index[k.op.source]))
    else Goto(sh, k, Leaving(Failure(NotFound)))
  }

  function AtProbe(sh: Shared, k: Task, ext: string, ok: bool): After {
    Goto(sh, k, if ok && Data(k.op.source, ext) in sh.disk.dir then Linking(ext) else Leaving(Failure(NotFound)))
  }

  function AtLinking(sh: Shared, k: Task, ext: string, ok: bool): After {
    if !ok || Data(k.op.source, ext) !in sh.disk.dir then Goto(sh, k, Leaving(Failure(Io)))
    else if Data(k.op.id, ext) in sh.disk.dir then Goto(sh, k, Leaving(Failure(Conflict)))
    else OnDisk(sh, LinkData(sh.disk, Data(k.op.source, ext), k.op.id, ext, MadeFor(sh.disk, k.op.source)), k, Moving(ext))
  }

  function AtMoving(sh: Shared, k: Task, ext: string, ok: bool): After {
    if ok && Data(k.op.source, ext) in sh.disk.dir
    then OnDisk(sh, Remove(sh.disk, Data(k.op.source, ext)), k, Moved(ext))
    else Goto(sh, k, Rollback(ext))
  }

  function AtSeen(sh: Shared, k: Task, ext: string, ok: bool): After {
    var file := Data(k.op.id, ext);
    if !ok then Goto(sh, k, Done(Failure(Io)))
    else if file !in sh.disk.dir then Goto(sh, k, Done(if k.op.kind.Delete? then Deleted(false) else Failure(NotFound)))
    else if k.op.kind.Delete? then OnDisk(sh, Remove(sh.disk, file), k, Unlinked)
    else Goto(sh, k, Open(sh.disk.dir[file], MadeFor(sh.disk, k.op.id)))
  }

  function Advance(sh: Shared, k: Task, ok: bool): After {
    match k.pc
    case Start => if k.op.Creates() then AtReserve(sh, k, ok) else AtLookup(sh, k)
    case Done(_) => After(sh, k)
    case Reserved => AtReserved(sh, k)
    case Refused => OnDisk(sh, Remove(sh.disk, Reserve(k.op.id)), k, Done(Failure(Conflict)))
    case Leaving(reply) => OnDisk(sh, Remove(sh.disk, Reserve(k.op.id)), k, Done(reply))
    case Space => Goto(sh, k, if ok then MakeTemp else Leaving(Failure(InsufficientStorage)))
    case MakeTemp => AtMakeTemp(sh, k, ok)
    case Writing(n, j) => AtWrite(sh, k, n, j, ok)
    case Flushed(n) => AtFlushed(sh, k, n, ok)
    case Published(n) => OnDisk(sh, Remove(sh.disk, TempOf(sh.pid, k, n)), k, Indexing)
    case Indexing => Goto(Enter(sh, k.op.id, k.op.ext), k, if k.op.kind.Put? then Leaving(Success) else Deleting(0))
    case Abort(n, e) => OnDisk(sh, Remove(sh.disk, TempOf(sh.pid, k, n)), k, Leaving(Failure(e)))
    case PartNamed(n, j, part, ext) => AtPartNamed(sh, k, n, j, part, ext, ok)
    case PartOpen(n, j, ino, intended) => AtPartOpen(sh, k, n, j, ino, intended, ok)
    case Deleting(j) => AtDeleting(sh, k, j)
    case PartSeen(j, part, ext) => AtPartSeen(sh, k, j, part, ext, ok)
    case PartUnlinked(j, part) => Goto(Forget(sh, part), k, Deleting(j + 1))
    case Lookup => AtSource(sh, k)
    case Probe(ext) => AtProbe(sh, k, ext, ok)
    case Linking(ext) => AtLinking(sh, k, ext, ok)
    case Moving(ext) => AtMoving(sh, k, ext, ok)
    case Rollback(ext) => OnDisk(sh, Remove(sh.disk, Data(k.op.id, ext)), k, Leaving(Failure(Io)))
    case Moved(ext) => Goto(Forget(sh, k.op.source), k, Reindex(ext))
    case Reindex(ext) => Goto(Enter(sh, k.op.id, ext), k, Leaving(Success))
    case Seen(ext) => AtSeen(sh, k, ext, ok)
    case Unlinked => Goto(Forget(sh, k.op.id), k, Done(Deleted(true)))
    case Open(ino, _) =>
      Goto(sh, k, Done(if ok && ino in sh.disk.data then Contents(sh.disk.data[ino].bytes) else Failure(Io)))
  }

  function Step(s: Sys, t: Tid, ok: bool): Sys
    requires t in s.tasks
  {
    var a := Advance(s.sh, s.tasks[t], ok);
    Sys(a.sh, s.tasks[t := a.k])
  }

  // ---- The part a task plays ----

  function HeldBy(k: Task): Held {
    match k.pc
    case Start | Done(_) | Seen(_) | Unlinked | Open(_, _) => Free
    case Reserved => Unchecked(k.op.id)
    case Space | MakeTemp | Writing(_, _) | PartNamed(_, _, _, _) | PartOpen(_, _, _, _) | Flushed(_) => Clear(k.op.id)
    case Lookup | Probe(_) | Linking(_) => Clear(k.op.id)
    case Published(_) | Indexing => Linked(k.op.id, k.op.ext)
    case Moving(ext) => Linked(k.op.id, ext)
    case Rollback(ext) => Linked(k.op.id, ext)
    case Moved(ext) => Linked(k.op.id, ext)
    case Reindex(ext) => Linked(k.op.id, ext)
    case Refused | Leaving(_) | Abort(_, _) | Deleting(_) | PartSeen(_, _, _) | PartUnlinked(_, _) => Settled(k.op.id)
  }

  function SeenBy(k: Task): Option<(string, string)> {
    match k.pc
    case Probe(ext) => Some((k.op.source, ext))
    case Linking(ext) => Some((k.op.source, ext))
    case Moving(ext) => Some((k.op.source, ext))
    case PartSeen(_, part, ext) => Some((part, ext))
    case Seen(ext) => if k.op.kind.Delete? then Some((k.op.id, ext)) else None
    case _ => None
  }

  function RemovedBy(k: Task): Option<string> {
    match k.pc
    case Moved(_) => Some(k.op.source)
    case PartUnlinked(_, part) => Some(part)
    case Unlinked => Some(k.op.id)
    case _ => None
  }

  function RoleOf(k: Task): Role {
    Role(HeldBy(k), SeenBy(k), RemovedBy(k))
  }

  function Roles(tasks: map<Tid, Task>): map<Tid, Role> {
    map t | t in tasks :: RoleOf(tasks[t])
  }

  // ---- Steps, spawns and restarts ----

  datatype Label =
    | Run(t: Tid, ok: bool)             // task t makes its next step
    | Spawn(t: Tid, op: Op)             // a request arrives
    | Restart(pid: nat)                 // the process dies and a new one scans the directory

  predicate ValidOp(op: Op) {
    && (op.Creates() ==> ValidComponent(op.id) && op.id != "cap")
    && (op.kind.Put? || op.kind.Concat? ==> ValidComponent(op.ext))
  }

  predicate Enabled(s: Sys, l: Label) {
    match l
    case Run(t, _) => t in s.tasks
    case Spawn(t, op) => t !in s.tasks && ValidOp(op)
    case Restart(_) => UniqueIds(s.sh.disk.dir.Keys)
  }

  /** The state after a restart: `init_cache` drops the debris and indexes the data files. */
  function Recover(s: Sys, pid: nat): Sys
    requires UniqueIds(s.sh.disk.dir.Keys)
  {
    var d := s.sh.disk;
    var index := IndexOf(d.dir.Keys);
    Sys(Shared(d.(dir := d.dir - DebrisIn(d.dir.Keys)), index, index.Keys, pid, 0), map[])
  }

  function Apply(s: Sys, l: Label): Sys
    requires Enabled(s, l)
  {
    match l
    case Run(t, ok) => Step(s, t, ok)
    case Spawn(t, op) => s.(tasks := s.tasks[t := Task(op, Start, [])])
    case Restart(pid) => Recover(s, pid)
  }

  /** The data file that a task's next step links, if it links one. */
  function LinkMade(sh: Shared, k: Task, ok: bool): Option<(string, string)> {
    match k.pc
    case Flushed(n) =>
      if ok && TempOf(sh.pid, k, n) in sh.disk.dir && Data(k.op.id, k.op.ext) !in sh.disk.dir
      then Some((k.op.id, k.op.ext)) else None
    case Linking(ext) =>
      if ok && Data(k.op.source, ext) in sh.disk.dir && Data(k.op.id, ext) !in sh.disk.dir
      then Some((k.op.id, ext)) else None
    case _ => None
  }

  /** A step is timely when no task still acts on an earlier life of the file that the step links. */
  ghost predicate Timely(s: Sys, l: Label) {
    l.Run? && l.t in s.tasks && LinkMade(s.sh, s.tasks[l.t], l.ok).Some? ==>
      var (id, ext) := LinkMade(s.sh, s.tasks[l.t], l.ok).value;
      NoStaleSight(Roles(s.tasks), id, ext)
  }

  /** Step `i` of a run is enabled and timely, and leads from state `i` to the next. */
  ghost predicate StepAt(states: seq<Sys>, labels: seq<Label>, i: nat)
    requires |states| == |labels| + 1 && i < |labels|
  {
    Enabled(states[i], labels[i]) && Timely(states[i], labels[i]) && states[i + 1] == Apply(states[i], labels[i])
  }

  /** `states` is a run under `labels`. */
  ghost predicate IsRun(states: seq<Sys>, labels: seq<Label>) {
    |states| == |labels| + 1 && forall i: nat :: i < |labels| ==> StepAt(states, labels, i)
  }

  /** A freshly started process: data files only, all indexed, no tasks. */
  ghost predicate Initial(s: Sys) {
    var d := s.sh.disk;
    && UniqueIds(d.dir.Keys)
    && s.sh.index == IndexOf(d.dir.Keys) && s.sh.ever == s.sh.index.Keys && s.tasks == map[]
    && (forall n :: n in d.dir ==> n.Data? && WellFormed(n) && n.id != "cap")
    && (forall n :: n in d.dir ==> d.dir[n] in d.data && n.id in d.made && d.data[d.dir[n]] == Node(d.made[n.id], true))
    && (forall i :: i in d.data ==> i < d.next)
  }
}
