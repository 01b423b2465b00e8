/** Concurrent puts of one absent id: exactly one wins, and every task comes to an end. */
module Race {
  import opened Base
  import opened Names
  import opened Lifecycle
  import opened Protocol
  import opened ProtocolInvariant
  import opened ProtocolSafety
  import opened Phases

  // ---- Every interleaving ends ----

  function Left(rounds: nat, j: nat): nat {
    if j < rounds then rounds - j else 0
  }

  /** An upper bound on the steps a concat has left once its file is published. */
  function DeletingRank(pc: Pc, parts: nat): nat
    requires pc.Deleting? || pc.PartSeen? || pc.PartUnlinked?
  {
    match pc
    case Deleting(j) => 3 * Left(parts, j) + 2
    case PartSeen(j, _, _) => 3 * Left(parts, j + 1) + 4
    case PartUnlinked(j, _) => 3 * Left(parts, j + 1) + 3
  }

  /** An upper bound on the steps a task has left to fill its temporary file. */
  function FillingRank(pc: Pc, rounds: nat): nat
    requires pc.Writing? || pc.PartNamed? || pc.PartOpen?
  {
    match pc
    case Writing(_, j) => 3 * Left(rounds, j)
    case PartNamed(_, j, _, _) => 3 * Left(rounds, j + 1) + 2
    case PartOpen(_, j, _, _) => 3 * Left(rounds, j + 1) + 1
  }

  /** An upper bound on the steps a task has left. */
  function Rank(k: Task): nat {
    var published := 3 * |k.op.parts| + 3;
    match k.pc
    case Done(_) => 0
    case Leaving(_) | Refused | Open(_, _) | Unlinked => 1
    case Abort(_, _) | Reindex(_) | Rollback(_) | Seen(_) => 2
    case Deleting(_) | PartSeen(_, _, _) | PartUnlinked(_, _) => DeletingRank(k.pc, |k.op.parts|)
    case Indexing => published
    case Published(_) => published + 1
    case Flushed(_) => published + 2
    case Writing(_, _) | PartNamed(_, _, _, _) | PartOpen(_, _, _, _) => published + 3 + FillingRank(k.pc, k.op.Rounds())
    case MakeTemp => published + 4 + 3 * k.op.Rounds()
    case Space => published + 5 + 3 * k.op.Rounds()
    case Moved(_) => 3
    case Moving(_) => 4
    case Linking(_) => 5
    case Probe(_) => 6
    case Lookup => 7
    case Reserved => published + 10 + 3 * k.op.Rounds()
    case Start => published + 11 + 3 * k.op.Rounds()
  }

  lemma DeletingIsFinite(sh: Shared, k: Task, ok: bool)
    requires k.pc.Deleting? || k.pc.PartSeen? || k.pc.PartUnlinked?
    ensures Rank(Advance(sh, k, ok).k) < Rank(k)
  {
  }

  lemma FillingIsFinite(sh: Shared, k: Task, ok: bool)
    requires k.pc.MakeTemp? || k.pc.Writing? || k.pc.PartNamed? || k.pc.PartOpen?
    ensures Rank(Advance(sh, k, ok).k) < Rank(k)
  {
  }

  lemma RenameIsFinite(sh: Shared, k: Task, ok: bool)
    requires k.pc.Lookup? || k.pc.Probe? || k.pc.Linking? || k.pc.Moving? || k.pc.Rollback? || k.pc.Moved? || k.pc.Reindex?
    ensures Rank(Advance(sh, k, ok).k) < Rank(k)
  {
  }

  /** Every step brings its task closer to its reply, whatever fails: no task can run forever or get stuck. */
  lemma StepsAreFinite(sh: Shared, k: Task, ok: bool)
    requires !k.pc.Done?
    ensures Rank(Advance(sh, k, ok).k) < Rank(k)
  {
    match k.pc
    case Deleting(_) | PartSeen(_, _, _) | PartUnlinked(_, _) => DeletingIsFinite(sh, k, ok);
    case MakeTemp | Writing(_, _) | PartNamed(_, _, _, _) | PartOpen(_, _, _, _) => FillingIsFinite(sh, k, ok);
    case Lookup | Probe(_) | Linking(_) | Moving(_) | Rollback(_) | Moved(_) | Reindex(_) => RenameIsFinite(sh, k, ok);
    case _ =>
  }

  // ---- A race of puts ----

  /** A put of `id` with an error-free body, at a stage it can reach while nothing fails. */
  predicate Runner(k: Task, id: string) {
    && k.op.kind.Put? && k.op.id == id && (forall i :: 0 <= i < |k.op.items| ==> k.op.items[i].Chunk?)
    && match k.pc
       case Start | Reserved | Refused | Space | MakeTemp | Indexing => true
       case Writing(_, _) | Flushed(_) | Published(_) => true
       case Leaving(reply) => reply == Success
       case Done(reply) => reply == Success || reply == Failure(Conflict)
       case _ => false
  }

  predicate Won(k: Task) { k.pc == Leaving(Success) || k.pc == Done(Success) }

  /** Holds the reservation and has not yet indexed its file. */
  predicate Contends(k: Task) {
    match k.pc
    case Reserved | Space | MakeTemp | Writing(_, _) | Flushed(_) | Published(_) | Indexing => true
    case _ => false
  }

  ghost predicate MadeBy(d: Disk, k: Task) {
    k.op.id in d.made && d.made[k.op.id] == Body(k.op.items)
  }

  ghost predicate Winner(tasks: map<Tid, Task>, t: Tid) {
    t in tasks && Won(tasks[t])
  }

  ghost predicate Contender(tasks: map<Tid, Task>, t: Tid) {
    t in tasks && Contends(tasks[t])
  }

  /** At most one winner, and what is stored is what the winner put. */
  ghost predicate Fair(sh: Shared, tasks: map<Tid, Task>, id: string) {
    && (forall t, u :: Winner(tasks, t) && Winner(tasks, u) ==> t == u)
    && (forall t :: Winner(tasks, t) ==> id in sh.index && sh.index[id] == tasks[t].op.ext && MadeBy(sh.disk, tasks[t]))
    && (forall t :: t in tasks && (tasks[t].pc.Published? || tasks[t].pc.Indexing?) ==> MadeBy(sh.disk, tasks[t]))
    && (id in sh.index ==> exists t :: Winner(tasks, t))
  }

  /** Every refusal has a reason: the id is indexed, or some task is on its way to index it. */
  ghost predicate Reasoned(sh: Shared, tasks: map<Tid, Task>, id: string) {
    && (forall t :: t in tasks && tasks[t].pc.Refused? ==> id in sh.index)
    && (forall t :: t in tasks && !tasks[t].pc.Start? && id !in sh.index ==> exists u :: Contender(tasks, u))
  }

  ghost predicate Runners(tasks: map<Tid, Task>, id: string) {
    forall t :: t in tasks ==> Runner(tasks[t], id)
  }

  ghost predicate RaceInv(s: Sys, id: string) {
    Inv(s) && Runners(s.tasks, id) && Fair(s.sh, s.tasks, id) && Reasoned(s.sh, s.tasks, id)
  }

  /** What one step of a runner does to the race. */
  ghost predicate Raced(sh: Shared, k: Task, a: After, id: string) {
    && Runner(k, id) && Runner(a.k, id) && a.k.op == k.op
    && (Won(a.k) <==> Won(k) || k.pc.Indexing?)
    && (Contends(a.k) <==> (Contends(k) && !k.pc.Indexing? && !(k.pc.Reserved? && id in sh.index))
                           || (k.pc.Start? && Reserve(id) !in sh.disk.dir))
    && (a.k.pc.Refused? ==> k.pc.Reserved? && id in sh.index)
    && (a.k.pc.Indexing? ==> k.pc.Published?) && (a.k.pc.Published? ==> k.pc.Flushed?)
    && a.sh.index == (if k.pc.Indexing? then sh.index[id := k.op.ext] else sh.index)
    && a.sh.disk.made == (if k.pc.Flushed? then sh.disk.made[id := Body(k.op.items)] else sh.disk.made)
  }

  lemma RunnerStep(sh: Shared, k: Task, id: string)
    requires Runner(k, id)
    requires k.pc.MakeTemp? ==> TempOf(sh.pid, k, sh.counter) !in sh.disk.dir
    requires k.pc.Flushed? ==> TempOf(sh.pid, k, k.pc.n) in sh.disk.dir && Data(id, k.op.ext) !in sh.disk.dir
                               && sh.disk.dir[TempOf(sh.pid, k, k.pc.n)] in sh.disk.data
    ensures Raced(sh, k, Advance(sh, k, true), id)
  {
  }

  lemma TaskRaced(s: Sys, t: Tid, id: string)
    requires Inv(s) && Runners(s.tasks, id) && t in s.tasks
    ensures Raced(s.sh, s.tasks[t], Advance(s.sh, s.tasks[t], true), id)
  {
    var k := s.tasks[t];
    CounterIsFresh(s.sh, s.tasks, TempOf(s.sh.pid, k, s.sh.counter));
    if k.pc.Flushed? {
      ClearHasNoFile(s.sh, s.tasks, t);
      assert Filling(s.sh.disk, s.sh.pid, k);
    }
    RunnerStep(s.sh, k, id);
  }

  /** A reserved id is already indexed, or its reservation belongs to a task that will index it. */
  lemma ReservedMeansContended(s: Sys, id: string)
    requires RaceInv(s, id) && Reserve(id) in s.sh.disk.dir
    ensures id in s.sh.index || exists u :: Contender(s.tasks, u)
  {
    var roles := Roles(s.tasks);
    assert Reserve(id) in s.sh.disk.dir.Keys;
    var u :| Holds(roles, u, id);
    assert roles[u].held == HeldBy(s.tasks[u]);
    assert Runner(s.tasks[u], id);
    if s.tasks[u].pc.Leaving? { assert Winner(s.tasks, u); }
    if Contends(s.tasks[u]) { assert Contender(s.tasks, u); }
  }

  lemma HolderIsAlone(s: Sys, t: Tid, id: string)
    requires Alive(s.sh, s.tasks) && t in s.tasks && (HeldBy(s.tasks[t]).Clear? || HeldBy(s.tasks[t]).Linked?)
    requires HeldBy(s.tasks[t]).id == id
    ensures id !in s.sh.index
    ensures forall u :: u in s.tasks && u != t && !HeldBy(s.tasks[u]).Free? ==> HeldBy(s.tasks[u]).id != id
  {
    var roles := Roles(s.tasks);
    assert roles[t].held == HeldBy(s.tasks[t]);
    if roles[t].held.Linked? { assert Publishes(roles, t, id, roles[t].held.ext); }
    forall u | u in s.tasks && u != t && !HeldBy(s.tasks[u]).Free? ensures HeldBy(s.tasks[u]).id != id {
      if HeldBy(s.tasks[u]).id == id { assert Holds(roles, u, id) && Holds(roles, t, id); }
    }
  }

  /** While a task publishes the id, the id is not indexed and no other task is past its reservation. */
  lemma PublisherIsAlone(s: Sys, t: Tid, id: string)
    requires Alive(s.sh, s.tasks) && Runners(s.tasks, id) && Fair(s.sh, s.tasks, id)
    requires t in s.tasks && (s.tasks[t].pc.Flushed? || s.tasks[t].pc.Indexing?)
    ensures forall u :: !Winner(s.tasks, u)
    ensures forall u :: u in s.tasks && u != t ==> !s.tasks[u].pc.Published? && !s.tasks[u].pc.Indexing?
  {
    assert Runner(s.tasks[t], id);
    HolderIsAlone(s, t, id);
    forall u | u in s.tasks && u != t ensures !s.tasks[u].pc.Published? && !s.tasks[u].pc.Indexing? {
      assert Runner(s.tasks[u], id);
    }
  }

  lemma RunnersAreTimely(s: Sys, t: Tid, id: string)
    requires Runners(s.tasks, id) && t in s.tasks
    ensures Timely(s, Run(t, true))
  {
    forall u | u in Roles(s.tasks) ensures Roles(s.tasks)[u].seen.None? {
      assert Runner(s.tasks[u], id);
    }
  }

  lemma FairAfter(sh: Shared, tasks: map<Tid, Task>, t: Tid, a: After, id: string)
    requires t in tasks && Runners(tasks, id) && Fair(sh, tasks, id) && Raced(sh, tasks[t], a, id)
    requires tasks[t].pc.Flushed? || tasks[t].pc.Indexing? ==>
               && (forall u :: !Winner(tasks, u))
               && (forall u :: u in tasks && u != t ==> !tasks[u].pc.Published? && !tasks[u].pc.Indexing?)
    ensures Fair(a.sh, tasks[t := a.k], id)
  {
    var tasks' := tasks[t := a.k];
    assert forall u :: Winner(tasks', u) <==> Winner(tasks, u) || (u == t && tasks[t].pc.Indexing?);
    if tasks[t].pc.Indexing? {
      assert Winner(tasks', t);
    } else if id in sh.index {
      var u :| Winner(tasks, u);
      assert Winner(tasks', u);
    }
  }

  lemma ReasonedAfter(sh: Shared, tasks: map<Tid, Task>, t: Tid, a: After, id: string)
    requires t in tasks && Reasoned(sh, tasks, id) && Raced(sh, tasks[t], a, id)
    requires Reserve(id) in sh.disk.dir ==> id in sh.index || exists u :: Contender(tasks, u)
    ensures Reasoned(a.sh, tasks[t := a.k], id)
  {
    var k, tasks' := tasks[t], tasks[t := a.k];
    if id !in a.sh.index && (exists u :: u in tasks' && !tasks'[u].pc.Start?) {
      if k.pc.Start? && Reserve(id) !in sh.disk.dir {
        assert Contender(tasks', t);
      } else {
        var v :| Contender(tasks, v);
        assert Contender(tasks', v);
      }
    }
  }

  lemma FairStep(s: Sys, t: Tid, id: string)
    requires RaceInv(s, id) && t in s.tasks
    ensures Fair(Step(s, t, true).sh, Step(s, t, true).tasks, id)
    ensures Runners(Step(s, t, true).tasks, id)
  {
    TaskRaced(s, t, id);
    if s.tasks[t].pc.Flushed? || s.tasks[t].pc.Indexing? { PublisherIsAlone(s, t, id); }
    FairAfter(s.sh, s.tasks, t, Advance(s.sh, s.tasks[t], true), id);
  }

  lemma ReasonedStep(s: Sys, t: Tid, id: string)
    requires RaceInv(s, id) && t in s.tasks
    ensures Reasoned(Step(s, t, true).sh, Step(s, t, true).tasks, id)
  {
    TaskRaced(s, t, id);
    if Reserve(id) in s.sh.disk.dir { ReservedMeansContended(s, id); }
    ReasonedAfter(s.sh, s.tasks, t, Advance(s.sh, s.tasks[t], true), id);
  }

  lemma RaceStep(s: Sys, t: Tid, id: string)
    requires RaceInv(s, id) && t in s.tasks
    ensures RaceInv(Step(s, t, true), id)
  {
    RunnersAreTimely(s, t, id);
    StepKeepsInv(s, t, true);
    FairStep(s, t, id);
    ReasonedStep(s, t, id);
  }

  /** Any number of error-free puts of one id, not one of which has begun, and no file for the id. */
  ghost predicate StartingLine(s: Sys, id: string) {
    && Inv(s) && s.tasks != map[] && id !in s.sh.index
    && forall t :: t in s.tasks ==> Runner(s.tasks[t], id) && s.tasks[t].pc.Start?
  }

  /** Any interleaving in which no call fails. */
  function Interleave(s: Sys, order: seq<Tid>): Sys
    requires forall i :: 0 <= i < |order| ==> order[i] in s.tasks
    decreases |order|
  {
    if order == [] then s
    else
      Interleave(Step(s, order[0], true), order[1..])
  }

  lemma RaceNext(s: Sys, order: seq<Tid>, id: string)
    requires RaceInv(s, id) && order != [] && forall i :: 0 <= i < |order| ==> order[i] in s.tasks
    ensures var s' := Step(s, order[0], true);
            && RaceInv(s', id) && s'.tasks.Keys == s.tasks.Keys
            && forall i :: 0 <= i < |order[1..]| ==> order[1..][i] in s'.tasks
  {
    RaceStep(s, order[0], id);
  }

  lemma {:induction false} RaceKeeps(s: Sys, order: seq<Tid>, id: string)
    requires RaceInv(s, id) && forall i :: 0 <= i < |order| ==> order[i] in s.tasks
    ensures RaceInv(Interleave(s, order), id) && Interleave(s, order).tasks.Keys == s.tasks.Keys
    decreases |order|
  {
    if order != [] {
      RaceNext(s, order, id);
      RaceKeeps(Step(s, order[0], true), order[1..], id);
    }
  }

  /**
   Exactly one put wins, whatever the interleaving: once every task is done, one has succeeded, all others report a
   conflict, and the one data file of the id has the winner's extension and bytes.
   */
  lemma ExactlyOneWins(s: Sys, order: seq<Tid>, id: string) returns (winner: Tid)
    requires StartingLine(s, id) && forall i :: 0 <= i < |order| ==> order[i] in s.tasks
    requires var s' := Interleave(s, order); forall t :: t in s'.tasks ==> s'.tasks[t].pc.Done?
    ensures var s' := Interleave(s, order);
            var d := s'.sh.disk;
            && winner in s'.tasks && s'.tasks[winner].pc == Done(Success)
            && (forall t :: t in s'.tasks && t != winner ==> s'.tasks[t].pc == Done(Failure(Conflict)))
            && var op := s'.tasks[winner].op;
               && id in s'.sh.index && s'.sh.index[id] == op.ext
               && (forall e :: Data(id, e) in d.dir <==> e == op.ext)
               && d.dir[Data(id, op.ext)] in d.data && d.data[d.dir[Data(id, op.ext)]].bytes == Body(op.items)
  {
    assert RaceInv(s, id);
    RaceKeeps(s, order, id);
    var s' := Interleave(s, order);
    winner := PickWinner(s', id);
    Quiescent(s');
    assert Data(id, s'.sh.index[id]) in s'.sh.disk.dir;
    assert Complete(s'.sh.disk);
  }

  lemma PickWinner(s: Sys, id: string) returns (winner: Tid)
    requires RaceInv(s, id) && s.tasks != map[] && forall t :: t in s.tasks ==> s.tasks[t].pc.Done?
    ensures Winner(s.tasks, winner) && s.tasks[winner].pc == Done(Success) && MadeBy(s.sh.disk, s.tasks[winner])
    ensures forall t :: t in s.tasks && t != winner ==> s.tasks[t].pc == Done(Failure(Conflict))
    ensures id in s.sh.index && s.sh.index[id] == s.tasks[winner].op.ext
  {
    var t :| t in s.tasks;
    assert forall u :: !Contender(s.tasks, u);
    winner :| Winner(s.tasks, winner);
    forall u | u in s.tasks && u != winner ensures s.tasks[u].pc == Done(Failure(Conflict)) {
      assert Runner(s.tasks[u], id);
      assert Winner(s.tasks, u) <==> Won(s.tasks[u]);
    }
  }
}
