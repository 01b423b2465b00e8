/** What gets return, concats join and puts keep, over every run: whole files, as their creators meant them. */
module Outcomes {
  import opened Base
  import opened Names
  import opened Lifecycle
  import opened Protocol
  import opened ProtocolInvariant
  import opened Survival

  // ---- Gets ----

  /** What a get has found, or is about to find, in the file it opened. */
  function ReadBy(k: Task): Option<Bytes> {
    match k.pc
    case Open(_, intended) => Some(intended)
    case Leaving(reply) => if reply.Contents? then Some(reply.bytes) else None
    case Done(reply) => if reply.Contents? then Some(reply.bytes) else None
    case _ => None
  }

  /** The task opens the file of its id, which is meant to hold `bytes`. */
  predicate Opens(sh: Shared, k: Task, bytes: Bytes) {
    k.pc.Seen? && Data(k.op.id, k.pc.ext) in sh.disk.dir && k.op.id in sh.disk.made && sh.disk.made[k.op.id] == bytes
  }

  lemma ReadStep(sh: Shared, k: Task, ok: bool, k': Task)
    requires Grounded(sh, k) && Becomes(sh, k, ok, k') && ReadBy(k').Some?
    ensures k'.op == k.op && (ReadBy(k) == ReadBy(k') || (ok && Opens(sh, k, ReadBy(k').value)))
  {
  }

  lemma ReadNext(states: seq<Sys>, labels: seq<Label>, i: nat, t: Tid)
    requires IsRun(states, labels) && Initial(states[0]) && i < |states|
    requires t in states[i].tasks && ReadBy(states[i].tasks[t]).Some?
    ensures 0 < i && t in states[i - 1].tasks && states[i - 1].tasks[t].op == states[i].tasks[t].op
    ensures || ReadBy(states[i - 1].tasks[t]) == ReadBy(states[i].tasks[t])
            || (labels[i - 1] == Run(t, true) && Opens(states[i - 1].sh, states[i - 1].tasks[t], ReadBy(states[i].tasks[t]).value))
  {
    TaskBefore(states, labels, i, t);
    var s := states[i - 1];
    if states[i].tasks[t] != s.tasks[t] {
      RunGrounded(states, labels, i - 1, t);
      ReadStep(s.sh, s.tasks[t], labels[i - 1].ok, states[i].tasks[t]);
    }
  }

  /**
   Over every run: a get that replies with contents has opened the file of its id at an earlier step, and returns,
   whole, what was then meant to be stored under the id, whatever has happened to the id since.
   */
  lemma {:induction false} ReaderSeesWholeFile(states: seq<Sys>, labels: seq<Label>, i: nat, t: Tid) returns (step: nat)
    requires IsRun(states, labels) && Initial(states[0]) && i < |states|
    requires t in states[i].tasks && ReadBy(states[i].tasks[t]).Some?
    ensures step < i && labels[step] == Run(t, true) && t in states[step].tasks
    ensures states[step].tasks[t].op == states[i].tasks[t].op
    ensures Opens(states[step].sh, states[step].tasks[t], ReadBy(states[i].tasks[t]).value)
    decreases i
  {
    ReadNext(states, labels, i, t);
    if ReadBy(states[i - 1].tasks[t]) == ReadBy(states[i].tasks[t]) {
      step := ReaderSeesWholeFile(states, labels, i - 1, t);
    } else {
      step := i - 1;
    }
  }

  // ---- Concats ----

  /** A concat from the first part on, as long as it does not fail. */
  predicate Collecting(k: Task) {
    k.op.kind.Concat? && (k.pc.Writing? || k.pc.PartNamed? || k.pc.PartOpen? || k.pc.Flushed? || PastLink(k))
  }

  /** How many parts it has opened. */
  function Count(k: Task): nat {
    match k.pc
    case Writing(_, j) => j
    case PartNamed(_, j, _, _) => j
    case PartOpen(_, j, _, _) => j + 1
    case _ => |k.op.parts|
  }

  /** What it has taken from them. */
  function Taken(k: Task): Bytes {
    if k.pc.PartOpen? then k.want + k.pc.intended else k.want
  }

  /** Only a rename is at a step of one, and the part a concat is at is the next one of its list. */
  predicate Placed(k: Task) {
    && (Renaming(k.pc) ==> k.op.kind.Rename?)
    && (k.op.kind.Concat? && Copying(k.pc) ==> Count(k) <= |k.op.parts|)
    && (k.op.kind.Concat? && k.pc.PartNamed? ==> k.pc.round < |k.op.parts| && k.pc.part == k.op.parts[k.pc.round])
  }

  lemma CopyingKeepsPlaced(sh: Shared, k: Task, ok: bool)
    requires Placed(k) && Copying(k.pc)
    ensures Placed(Advance(sh, k, ok).k)
  {
  }

  predicate Renaming(pc: Pc) {
    pc.Lookup? || pc.Probe? || pc.Linking? || pc.Moving? || pc.Rollback? || pc.Moved? || pc.Reindex?
  }

  lemma RenamingKeepsPlaced(sh: Shared, k: Task, ok: bool)
    requires Placed(k) && Renaming(k.pc)
    ensures Placed(Advance(sh, k, ok).k)
  {
  }

  predicate Arriving(pc: Pc) { pc.Start? || pc.Reserved? || pc.Refused? || pc.Space? || pc.MakeTemp? }

  lemma ArrivingKeepsPlaced(sh: Shared, k: Task, ok: bool)
    requires Placed(k) && Arriving(k.pc)
    ensures Placed(Advance(sh, k, ok).k)
  {
  }

  lemma OthersKeepPlaced(sh: Shared, k: Task, ok: bool)
    requires Placed(k) && !Copying(k.pc) && !Renaming(k.pc) && !Arriving(k.pc)
    ensures Placed(Advance(sh, k, ok).k)
  {
  }

  lemma StepKeepsPlaced(sh: Shared, k: Task, ok: bool)
    requires Placed(k)
    ensures Placed(Advance(sh, k, ok).k)
  {
    if Copying(k.pc) {
      CopyingKeepsPlaced(sh, k, ok);
    } else if Renaming(k.pc) {
      RenamingKeepsPlaced(sh, k, ok);
    } else if Arriving(k.pc) {
      ArrivingKeepsPlaced(sh, k, ok);
    } else {
      OthersKeepPlaced(sh, k, ok);
    }
  }

  lemma PlacedNext(states: seq<Sys>, labels: seq<Label>, m: nat, t: Tid)
    requires IsRun(states, labels) && m < |labels| && t in states[m + 1].tasks
    requires t in states[m].tasks ==> Placed(states[m].tasks[t])
    ensures Placed(states[m + 1].tasks[t])
  {
    assert StepAt(states, labels, m);
    var s, l := states[m], labels[m];
    if l.Run? && l.t == t { StepKeepsPlaced(s.sh, s.tasks[t], l.ok); }
  }

  lemma {:induction false} RunPlaced(states: seq<Sys>, labels: seq<Label>, i: nat, t: Tid)
    requires IsRun(states, labels) && Initial(states[0]) && i < |states| && t in states[i].tasks
    ensures Placed(states[i].tasks[t])
  {
    if i > 0 {
      if t in states[i - 1].tasks { RunPlaced(states, labels, i - 1, t); }
      PlacedNext(states, labels, i - 1, t);
    }
  }

  /** The task opens its `r`-th part, whose id is meant to hold `piece`. */
  predicate OpensPart(sh: Shared, k: Task, r: nat, piece: Bytes) {
    && k.pc.PartNamed? && r < |k.op.parts| && k.pc.part == k.op.parts[r]
    && Data(k.pc.part, k.pc.ext) in sh.disk.dir && k.pc.part in sh.disk.made && sh.disk.made[k.pc.part] == piece
  }

  /** One step of a concat: it starts with nothing, opens its next part, or takes nothing new. */
  ghost predicate Collects(sh: Shared, k: Task, ok: bool, k': Task, piece: Bytes) {
    || (Count(k') == 0 && Taken(k') == [])
    || (Collecting(k) && Count(k') == Count(k) && Taken(k') == Taken(k))
    || (Collecting(k) && ok && OpensPart(sh, k, Count(k), piece) && Count(k') == Count(k) + 1 && Taken(k') == Taken(k) + piece)
  }

  lemma OpenPartCollects(sh: Shared, k: Task, ok: bool, k': Task)
    requires Grounded(sh, k) && Placed(k) && Becomes(sh, k, ok, k') && Collecting(k') && k.pc.PartNamed?
    ensures Collects(sh, k, ok, k', MadeFor(sh.disk, k.pc.part))
  {
  }

  lemma CopyingCollects(sh: Shared, k: Task, ok: bool, k': Task)
    requires Placed(k) && Becomes(sh, k, ok, k') && Collecting(k') && (k.pc.Writing? || k.pc.PartOpen?)
    ensures Collects(sh, k, ok, k', [])
  {
  }

  lemma PublishedCollects(sh: Shared, k: Task, ok: bool, k': Task)
    requires Becomes(sh, k, ok, k') && Collecting(k') && (k.pc.Flushed? || PastLink(k))
    ensures Collects(sh, k, ok, k', [])
  {
  }

  lemma OthersCollect(sh: Shared, k: Task, ok: bool, k': Task)
    requires ValidTask(k) && Placed(k) && Becomes(sh, k, ok, k') && Collecting(k')
    requires !Copying(k.pc) && !k.pc.Flushed? && !PastLink(k)
    ensures Collects(sh, k, ok, k', [])
  {
  }

  lemma CollectStep(sh: Shared, k: Task, ok: bool, k': Task) returns (piece: Bytes)
    requires Grounded(sh, k) && Placed(k) && Becomes(sh, k, ok, k') && Collecting(k')
    ensures Collects(sh, k, ok, k', piece)
  {
    if k.pc.PartNamed? {
      piece := MadeFor(sh.disk, k.pc.part);
      OpenPartCollects(sh, k, ok, k');
    } else {
      piece := [];
      if Copying(k.pc) {
        CopyingCollects(sh, k, ok, k');
      } else if k.pc.Flushed? || PastLink(k) {
        PublishedCollects(sh, k, ok, k');
      } else {
        OthersCollect(sh, k, ok, k');
      }
    }
  }

  /** At step `m` task `t` opens its `r`-th part, whose id is meant to hold `piece`. */
  ghost predicate OpensAt(states: seq<Sys>, labels: seq<Label>, m: nat, t: Tid, r: nat, piece: Bytes) {
    && m < |labels| && m < |states| && labels[m] == Run(t, true) && t in states[m].tasks
    && OpensPart(states[m].sh, states[m].tasks[t], r, piece)
  }

  function Joined(pieces: seq<Bytes>): Bytes {
    if pieces == [] then [] else Joined(pieces[..|pieces| - 1]) + pieces[|pieces| - 1]
  }

  ghost predicate Gathered(states: seq<Sys>, labels: seq<Label>, i: nat, t: Tid, steps: seq<nat>, pieces: seq<Bytes>) {
    && |steps| == |pieces|
    && forall r :: 0 <= r < |steps| ==> steps[r] < i && OpensAt(states, labels, steps[r], t, r, pieces[r])
  }

  lemma CollectNext(states: seq<Sys>, labels: seq<Label>, i: nat, t: Tid) returns (piece: Bytes)
    requires IsRun(states, labels) && Initial(states[0]) && i < |states|
    requires t in states[i].tasks && Collecting(states[i].tasks[t])
    ensures 0 < i && t in states[i - 1].tasks
    ensures var k, k' := states[i - 1].tasks[t], states[i].tasks[t];
            || (Count(k') == 0 && Taken(k') == [])
            || (Collecting(k) && Count(k') == Count(k) && Taken(k') == Taken(k))
            || (Collecting(k) && OpensAt(states, labels, i - 1, t, Count(k), piece)
                && Count(k') == Count(k) + 1 && Taken(k') == Taken(k) + piece)
  {
    TaskBefore(states, labels, i, t);
    var s := states[i - 1];
    piece := [];
    if states[i].tasks[t] != s.tasks[t] {
      RunGrounded(states, labels, i - 1, t);
      RunPlaced(states, labels, i - 1, t);
      piece := CollectStep(s.sh, s.tasks[t], labels[i - 1].ok, states[i].tasks[t]);
    }
  }

  /** Over every run: what a concat has taken is, part by part in order, what was meant to be stored when it opened them. */
  lemma {:induction false} ConcatGathers(states: seq<Sys>, labels: seq<Label>, i: nat, t: Tid)
    returns (steps: seq<nat>, pieces: seq<Bytes>)
    requires IsRun(states, labels) && Initial(states[0]) && i < |states|
    requires t in states[i].tasks && Collecting(states[i].tasks[t])
    ensures Gathered(states, labels, i, t, steps, pieces)
    ensures |pieces| == Count(states[i].tasks[t]) && Joined(pieces) == Taken(states[i].tasks[t])
    decreases i
  {
    var piece := CollectNext(states, labels, i, t);
    var k, k' := states[i - 1].tasks[t], states[i].tasks[t];
    if Count(k') == 0 && Taken(k') == [] {
      steps, pieces := [], [];
    } else {
      var before, taken := ConcatGathers(states, labels, i - 1, t);
      if Count(k') == Count(k) && Taken(k') == Taken(k) {
        steps, pieces := before, taken;
      } else {
        OneMore(states, labels, i - 1, t, before, taken, piece);
        steps, pieces := before + [i - 1], taken + [piece];
      }
    }
  }

  lemma OneMore(states: seq<Sys>, labels: seq<Label>, m: nat, t: Tid, steps: seq<nat>, pieces: seq<Bytes>, piece: Bytes)
    requires Gathered(states, labels, m, t, steps, pieces) && OpensAt(states, labels, m, t, |pieces|, piece)
    ensures Gathered(states, labels, m + 1, t, steps + [m], pieces + [piece])
    ensures Joined(pieces + [piece]) == Joined(pieces) + piece
  {
    assert (pieces + [piece])[..|pieces|] == pieces;
  }

  /** A concat links what it has taken. */
  lemma MeantIsTaken(states: seq<Sys>, labels: seq<Label>, link: nat, i: nat, t: Tid)
    requires |states| == |labels| + 1 && LinkedAt(states, labels, link, i, t)
    requires states[i].tasks[t].op.kind.Concat? && Placed(states[link].tasks[t])
    ensures Meant(states[link].sh, states[link].tasks[t]) == Taken(states[i].tasks[t])
    ensures Collecting(states[i].tasks[t]) && Count(states[i].tasks[t]) == |states[i].tasks[t].op.parts|
  {
    assert PastLink(states[i].tasks[t]);
  }

  /**
   A crash after a concat has linked its target, also while it deletes its parts and after its reply: the restarted
   process has the target, and in it, in order, what was meant to be stored under each part when the part was opened,
   unless another task has unlinked the target before.
   */
  lemma ConcatSurvivesCrash(states: seq<Sys>, labels: seq<Label>, i: nat, t: Tid, pid: nat)
    returns (link: nat, ext: string, steps: seq<nat>, pieces: seq<Bytes>)
    requires IsRun(states, labels) && Initial(states[0]) && i < |states|
    requires t in states[i].tasks && PastLink(states[i].tasks[t]) && states[i].tasks[t].op.kind.Concat?
    ensures LinkedAt(states, labels, link, i, t) && Gathered(states, labels, i, t, steps, pieces)
    ensures |pieces| == |states[i].tasks[t].op.parts|
    ensures Enabled(states[i], Restart(pid))
    ensures Unstruck(states, labels, link, i, t, states[i].tasks[t].op.id, ext) ==>
              FoundAgain(Apply(states[i], Restart(pid)), states[i].tasks[t].op.id, ext, Joined(pieces))
  {
    link, ext := PublishedSurvivesCrash(states, labels, i, t, pid);
    RunPlaced(states, labels, link, t);
    MeantIsTaken(states, labels, link, i, t);
    steps, pieces := ConcatGathers(states, labels, i, t);
  }

  // ---- Puts ----

  /**
   Over every run: a put that has reported success has its file in the directory and in the index, with the bytes of
   its body, until another task that has read the index entry unlinks it.
   */
  lemma AcknowledgedPutStays(states: seq<Sys>, labels: seq<Label>, i: nat, t: Tid) returns (link: nat, ino: nat)
    requires IsRun(states, labels) && Initial(states[0]) && i < |states|
    requires t in states[i].tasks && states[i].tasks[t].op.kind.Put? && states[i].tasks[t].pc == Done(Success)
    ensures LinkedAt(states, labels, link, i, t)
    ensures var op := states[i].tasks[t].op;
            Unstruck(states, labels, link, i, t, op.id, op.ext) ==> StoredAs(states[i], op.id, op.ext, ino, Body(op.items))
  {
    var ext: string;
    link, ext, ino := PublishedStays(states, labels, i, t);
    RunPlaced(states, labels, link, t);
    PutMeans(states, labels, link, i, t);
  }

  lemma PutMeans(states: seq<Sys>, labels: seq<Label>, link: nat, i: nat, t: Tid)
    requires |states| == |labels| + 1 && LinkedAt(states, labels, link, i, t)
    requires states[i].tasks[t].op.kind.Put? && Placed(states[link].tasks[t])
    ensures var op := states[i].tasks[t].op;
            && Meant(states[link].sh, states[link].tasks[t]) == Body(op.items)
            && LinkMade(states[link].sh, states[link].tasks[t], true) == Some((op.id, op.ext))
  {
    assert PastLink(states[i].tasks[t]);
  }

  // ---- Renames ----

  lemma RenameMeans(sh: Shared, k: Task)
    requires Grounded(sh, k) && k.op.kind.Rename? && LinkMade(sh, k, true).Some?
    ensures var ext := LinkMade(sh, k, true).value.1;
            && Data(k.op.source, ext) in sh.disk.dir && k.op.source in sh.disk.made
            && Meant(sh, k) == sh.disk.made[k.op.source]
  {
  }

  /**
   A crash after a rename has linked its file, in the middle of the move as well as after its reply: the restarted
   process has the new id, with what was meant to be stored under the old one, unless another task has unlinked the
   file under its new name before.
   */
  lemma RenameSurvivesCrash(states: seq<Sys>, labels: seq<Label>, i: nat, t: Tid, pid: nat) returns (link: nat, ext: string)
    requires IsRun(states, labels) && Initial(states[0]) && i < |states|
    requires t in states[i].tasks && PastLink(states[i].tasks[t]) && states[i].tasks[t].op.kind.Rename?
    ensures LinkedAt(states, labels, link, i, t) && Enabled(states[i], Restart(pid))
    ensures var op, d := states[i].tasks[t].op, states[link].sh.disk;
            && Data(op.source, ext) in d.dir && op.source in d.made
            && (Unstruck(states, labels, link, i, t, op.id, ext) ==>
                  FoundAgain(Apply(states[i], Restart(pid)), op.id, ext, d.made[op.source]))
  {
    link, ext := PublishedSurvivesCrash(states, labels, i, t, pid);
    RunGrounded(states, labels, link, t);
    SameOp(states, labels, link, i, t);
    RenameMeans(states[link].sh, states[link].tasks[t]);
  }

  lemma SameOp(states: seq<Sys>, labels: seq<Label>, link: nat, i: nat, t: Tid)
    requires |states| == |labels| + 1 && LinkedAt(states, labels, link, i, t)
    ensures states[link].tasks[t].op == states[i].tasks[t].op
  {
    assert PastLink(states[i].tasks[t]);
  }
}
