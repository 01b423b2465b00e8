/** What a request does when it runs alone and no call fails: it is answered, and does what it says. */
module Solo {
  import opened Base
  import opened Names
  import opened Lifecycle
  import opened Protocol
  import opened ProtocolInvariant
  import opened ProtocolSafety
  import opened Recovery
  import opened Phases
  import opened Race

  // ---- Running alone ----

  /** Task `t` makes all its steps, and every call succeeds. */
  function Finish(s: Sys, t: Tid): Sys
    requires t in s.tasks
    decreases Rank(s.tasks[t])
  {
    if s.tasks[t].pc.Done? then s
    else
      StepsAreFinite(s.sh, s.tasks[t], true);
      Finish(Step(s, t, true), t)
  }

  ghost predicate AloneBut(s: Sys, t: Tid, u: Tid) {
    Inv(s) && t in s.tasks && (u in s.tasks && u != t ==> s.tasks[u].pc.Done?)
  }

  /** No other task is at work. */
  ghost predicate Alone(s: Sys, t: Tid) {
    forall u :: AloneBut(s, t, u)
  }

  /** A step of a task that runs alone is timely, and leaves it alone. */
  lemma AloneStep(s: Sys, t: Tid)
    requires Alone(s, t) && t in s.tasks
    ensures Timely(s, Run(t, true)) && Alone(Step(s, t, true), t)
  {
    assert AloneBut(s, t, t);
    AloneIsTimely(s, t);
    StepKeepsInv(s, t, true);
    forall u ensures AloneBut(Step(s, t, true), t, u) { assert AloneBut(s, t, u); }
  }

  lemma AloneIsTimely(s: Sys, t: Tid)
    requires Alone(s, t) && t in s.tasks
    ensures Timely(s, Run(t, true))
  {
    assert AloneBut(s, t, t);
    var k, roles := s.tasks[t], Roles(s.tasks);
    if LinkMade(s.sh, k, true).Some? {
      assert roles[t] == RoleOf(k);
      forall u | u in roles ensures roles[u].seen != Some(LinkMade(s.sh, k, true).value) {
        assert AloneBut(s, t, u) && roles[u] == RoleOf(s.tasks[u]);
      }
    }
  }

  lemma {:induction false} FinishAlone(s: Sys, t: Tid)
    requires Alone(s, t) && t in s.tasks
    ensures t in Finish(s, t).tasks && Finish(s, t).tasks[t].pc.Done? && Alone(Finish(s, t), t)
    decreases Rank(s.tasks[t])
  {
    if !s.tasks[t].pc.Done? {
      AloneStep(s, t);
      StepsAreFinite(s.sh, s.tasks[t], true);
      FinishAlone(Step(s, t, true), t);
    }
  }

  /** These steps are a run. */
  lemma {:induction false} FinishIsRun(s: Sys, t: Tid) returns (states: seq<Sys>, labels: seq<Label>)
    requires Alone(s, t) && t in s.tasks
    ensures IsRun(states, labels) && states[0] == s && states[|labels|] == Finish(s, t)
    ensures forall i :: 0 <= i < |labels| ==> labels[i] == Run(t, true)
    decreases Rank(s.tasks[t])
  {
    if s.tasks[t].pc.Done? {
      states, labels := [s], [];
    } else {
      AloneStep(s, t);
      StepsAreFinite(s.sh, s.tasks[t], true);
      var rest, later := FinishIsRun(Step(s, t, true), t);
      states, labels := [s] + rest, [Run(t, true)] + later;
      forall i: nat | i < |labels| ensures StepAt(states, labels, i) {
        if i > 0 { assert StepAt(rest, later, i - 1); }
      }
    }
  }

  // ---- What can be seen of a state ----

  /** Linked data files, the index, and what was meant to be stored. */
  datatype Visible = Visible(files: map<Name, nat>, index: map<string, string>, made: map<string, Bytes>)

  function FilesIn(dir: map<Name, nat>): map<Name, nat> {
    map n | n in dir && n.Data? :: dir[n]
  }

  function See(sh: Shared): Visible {
    Visible(FilesIn(sh.disk.dir), sh.index, sh.disk.made)
  }

  lemma HiddenNames(dir: map<Name, nat>, n: Name, i: nat)
    requires !n.Data?
    ensures FilesIn(dir[n := i]) == FilesIn(dir) && FilesIn(dir - {n}) == FilesIn(dir)
  {
  }

  lemma DataNames(dir: map<Name, nat>, n: Name, i: nat)
    requires n.Data?
    ensures FilesIn(dir[n := i]) == FilesIn(dir)[n := i] && FilesIn(dir - {n}) == FilesIn(dir) - {n}
  {
  }

  /** Task `t` ends with this reply, and then this is to be seen. */
  ghost predicate Ends(s: Sys, t: Tid, reply: Reply, v: Visible) {
    t in s.tasks && t in Finish(s, t).tasks && Finish(s, t).tasks[t].pc == Done(reply) && See(Finish(s, t).sh) == v
  }

  /** One step. */
  lemma Hop(s: Sys, t: Tid) returns (s': Sys)
    requires Alone(s, t) && t in s.tasks && !s.tasks[t].pc.Done?
    ensures Alone(s', t) && t in s'.tasks
    ensures var a := Advance(s.sh, s.tasks[t], true); s'.sh == a.sh && s'.tasks[t] == a.k
    ensures forall reply, v :: Ends(s', t, reply, v) ==> Ends(s, t, reply, v)
  {
    s' := Step(s, t, true);
    AloneStep(s, t);
  }

  /** What a task that runs alone can rely on. */
  lemma SoloFacts(s: Sys, t: Tid)
    requires Alone(s, t) && t in s.tasks
    ensures MyFiles(s.sh, s.tasks[t]) && TempOf(s.sh.pid, s.tasks[t], s.sh.counter) !in s.sh.disk.dir
  {
    assert AloneBut(s, t, t);
    CounterIsFresh(s.sh, s.tasks, TempOf(s.sh.pid, s.tasks[t], s.sh.counter));
  }

  // ---- The last steps ----

  lemma FromDone(s: Sys, t: Tid)
    requires t in s.tasks && s.tasks[t].pc.Done?
    ensures Ends(s, t, s.tasks[t].pc.reply, See(s.sh))
  {
  }

  lemma FromLeaving(s: Sys, t: Tid)
    requires Alone(s, t) && t in s.tasks && s.tasks[t].pc.Leaving?
    ensures Ends(s, t, s.tasks[t].pc.reply, See(s.sh))
  {
    var s' := Hop(s, t);
    HiddenNames(s.sh.disk.dir, Reserve(s.tasks[t].op.id), 0);
    FromDone(s', t);
  }

  lemma FromRefused(s: Sys, t: Tid)
    requires Alone(s, t) && t in s.tasks && s.tasks[t].pc.Refused?
    ensures Ends(s, t, Failure(Conflict), See(s.sh))
  {
    var s' := Hop(s, t);
    HiddenNames(s.sh.disk.dir, Reserve(s.tasks[t].op.id), 0);
    FromDone(s', t);
  }

  lemma FromAbort(s: Sys, t: Tid)
    requires Alone(s, t) && t in s.tasks && s.tasks[t].pc.Abort?
    ensures Ends(s, t, Failure(s.tasks[t].pc.error), See(s.sh))
  {
    var s' := Hop(s, t);
    HiddenNames(s.sh.disk.dir, TempOf(s.sh.pid, s.tasks[t], s.tasks[t].pc.n), 0);
    FromLeaving(s', t);
  }

  // ---- Rename ----

  lemma FromReindex(s: Sys, t: Tid)
    requires Alone(s, t) && t in s.tasks && s.tasks[t].pc.Reindex?
    ensures var k, v := s.tasks[t], See(s.sh); Ends(s, t, Success, v.(index := v.index[k.op.id := k.pc.ext]))
  {
    var s' := Hop(s, t);
    FromLeaving(s', t);
  }

  lemma FromMoved(s: Sys, t: Tid)
    requires Alone(s, t) && t in s.tasks && s.tasks[t].pc.Moved?
    ensures var k, v := s.tasks[t], See(s.sh);
            Ends(s, t, Success, v.(index := (v.index - {k.op.source})[k.op.id := k.pc.ext]))
  {
    var s' := Hop(s, t);
    FromReindex(s', t);
  }

  lemma FromMoving(s: Sys, t: Tid)
    requires Alone(s, t) && t in s.tasks && s.tasks[t].pc.Moving?
    requires Data(s.tasks[t].op.source, s.tasks[t].pc.ext) in See(s.sh).files
    ensures var k, v := s.tasks[t], See(s.sh);
            Ends(s, t, Success, Visible(v.files - {Data(k.op.source, k.pc.ext)}, (v.index - {k.op.source})[k.op.id := k.pc.ext], v.made))
  {
    var s' := Hop(s, t);
    DataNames(s.sh.disk.dir, Data(s.tasks[t].op.source, s.tasks[t].pc.ext), 0);
    FromMoved(s', t);
  }

  lemma FromLinking(s: Sys, t: Tid)
    requires Alone(s, t) && t in s.tasks && s.tasks[t].pc.Linking?
    requires var k, v := s.tasks[t], See(s.sh);
             Data(k.op.source, k.pc.ext) in v.files && Data(k.op.id, k.pc.ext) !in v.files
    ensures var k, v := s.tasks[t], See(s.sh);
            Ends(s, t, Success, Renamed(v, k.op.source, k.op.id, k.pc.ext))
  {
    var k := s.tasks[t];
    SoloFacts(s, t);
    var s' := Hop(s, t);
    var from := Data(k.op.source, k.pc.ext);
    DataNames(s.sh.disk.dir, Data(k.op.id, k.pc.ext), s.sh.disk.dir[from]);
    FromMoving(s', t);
  }

  /** The file and the index entry have moved to the new id. */
  function Renamed(v: Visible, source: string, id: string, ext: string): Visible
    requires Data(source, ext) in v.files
  {
    Visible(v.files[Data(id, ext) := v.files[Data(source, ext)]] - {Data(source, ext)}, (v.index - {source})[id := ext],
            v.made[id := if source in v.made then v.made[source] else []])
  }

  lemma FromLookup(s: Sys, t: Tid)
    requires Alone(s, t) && t in s.tasks && s.tasks[t].pc.Lookup?
    requires var op, v := s.tasks[t].op, See(s.sh);
             op.source in v.index ==> Data(op.source, v.index[op.source]) in v.files && Data(op.id, v.index[op.source]) !in v.files
    ensures var op, v := s.tasks[t].op, See(s.sh);
            if op.source !in v.index then Ends(s, t, Failure(NotFound), v)
            else Ends(s, t, Success, Renamed(v, op.source, op.id, v.index[op.source]))
  {
    var op := s.tasks[t].op;
    var s1 := Hop(s, t);
    if op.source in s.sh.index {
      var s2 := Hop(s1, t);
      FromLinking(s2, t);
    } else {
      FromLeaving(s1, t);
    }
  }

  // ---- Delete and get ----

  lemma FromUnlinked(s: Sys, t: Tid)
    requires Alone(s, t) && t in s.tasks && s.tasks[t].pc.Unlinked?
    ensures var v := See(s.sh); Ends(s, t, Deleted(true), v.(index := v.index - {s.tasks[t].op.id}))
  {
    var s' := Hop(s, t);
    FromDone(s', t);
  }

  lemma FromOpen(s: Sys, t: Tid)
    requires Alone(s, t) && t in s.tasks && s.tasks[t].pc.Open?
    ensures Ends(s, t, Contents(s.tasks[t].pc.intended), See(s.sh))
  {
    SoloFacts(s, t);
    var s' := Hop(s, t);
    FromDone(s', t);
  }

  lemma FromSeen(s: Sys, t: Tid)
    requires Alone(s, t) && t in s.tasks && s.tasks[t].pc.Seen?
    requires Data(s.tasks[t].op.id, s.tasks[t].pc.ext) in See(s.sh).files
    ensures var k, v := s.tasks[t], See(s.sh);
            if k.op.kind.Delete?
            then Ends(s, t, Deleted(true), Visible(v.files - {Data(k.op.id, k.pc.ext)}, v.index - {k.op.id}, v.made))
            else Ends(s, t, Contents(MadeFor(s.sh.disk, k.op.id)), v)
  {
    var k := s.tasks[t];
    var s' := Hop(s, t);
    if k.op.kind.Delete? {
      DataNames(s.sh.disk.dir, Data(k.op.id, k.pc.ext), 0);
      FromUnlinked(s', t);
    } else {
      FromOpen(s', t);
    }
  }

  // ---- Publishing ----

  lemma FromIndexingPut(s: Sys, t: Tid)
    requires Alone(s, t) && t in s.tasks && s.tasks[t].pc.Indexing? && s.tasks[t].op.kind.Put?
    ensures var op, v := s.tasks[t].op, See(s.sh); Ends(s, t, Success, v.(index := v.index[op.id := op.ext]))
  {
    var s' := Hop(s, t);
    FromLeaving(s', t);
  }

  /** The parts of a concat are gone, one after the other. */
  function Dropped(v: Visible, parts: seq<string>): Visible
    decreases |parts|
  {
    if parts == [] then v
    else if parts[0] in v.index
    then Dropped(Visible(v.files - {Data(parts[0], v.index[parts[0]])}, v.index - {parts[0]}, v.made), parts[1..])
    else Dropped(v, parts[1..])
  }

  /** Index and data files agree. */
  ghost predicate Settles(v: Visible) {
    forall id, e :: Data(id, e) in v.files <==> id in v.index && v.index[id] == e
  }

  lemma SettlesWithout(v: Visible, id: string)
    requires Settles(v) && id in v.index
    ensures Settles(Visible(v.files - {Data(id, v.index[id])}, v.index - {id}, v.made))
  {
  }

  lemma FromPartSeen(s: Sys, t: Tid) returns (s': Sys)
    requires Alone(s, t) && t in s.tasks && s.tasks[t].pc.PartSeen?
    requires Data(s.tasks[t].pc.part, s.tasks[t].pc.ext) in See(s.sh).files
    ensures Alone(s', t) && t in s'.tasks && s'.tasks[t] == s.tasks[t].(pc := Deleting(s.tasks[t].pc.round + 1))
    ensures var k, v := s.tasks[t], See(s.sh);
            See(s'.sh) == Visible(v.files - {Data(k.pc.part, k.pc.ext)}, v.index - {k.pc.part}, v.made)
    ensures forall reply, v :: Ends(s', t, reply, v) ==> Ends(s, t, reply, v)
  {
    DataNames(s.sh.disk.dir, Data(s.tasks[t].pc.part, s.tasks[t].pc.ext), 0);
    var s1 := Hop(s, t);
    s' := Hop(s1, t);
  }

  lemma FromDeleting(s: Sys, t: Tid)
    requires Alone(s, t) && t in s.tasks && s.tasks[t].pc.Deleting? && s.tasks[t].pc.round <= |s.tasks[t].op.parts|
    requires Settles(See(s.sh))
    ensures Ends(s, t, Success, Dropped(See(s.sh), s.tasks[t].op.parts[s.tasks[t].pc.round..]))
    decreases |s.tasks[t].op.parts| - s.tasks[t].pc.round
  {
    var j, parts := s.tasks[t].pc.round, s.tasks[t].op.parts;
    var s1 := Hop(s, t);
    if j == |parts| {
      FromLeaving(s1, t);
    } else {
      assert parts[j..][0] == parts[j] && parts[j..][1..] == parts[j + 1..];
      if parts[j] in s.sh.index {
        var s2 := FromPartSeen(s1, t);
        SettlesWithout(See(s.sh), parts[j]);
        FromDeleting(s2, t);
      } else {
        FromDeleting(s1, t);
      }
    }
  }

  lemma FromIndexingConcat(s: Sys, t: Tid)
    requires Alone(s, t) && t in s.tasks && s.tasks[t].pc.Indexing? && s.tasks[t].op.kind.Concat?
    requires var op, v := s.tasks[t].op, See(s.sh); Settles(v.(index := v.index[op.id := op.ext]))
    ensures var op, v := s.tasks[t].op, See(s.sh); Ends(s, t, Success, Dropped(v.(index := v.index[op.id := op.ext]), op.parts))
  {
    var s' := Hop(s, t);
    assert s.tasks[t].op.parts[0..] == s.tasks[t].op.parts;
    FromDeleting(s', t);
  }

  /** The new file is linked and indexed. */
  function Stored(v: Visible, id: string, ext: string, ino: nat, bytes: Bytes): Visible {
    Visible(v.files[Data(id, ext) := ino], v.index[id := ext], v.made[id := bytes])
  }

  lemma SettlesWith(v: Visible, id: string, ext: string, ino: nat, bytes: Bytes)
    requires Settles(v) && id !in v.index
    ensures Settles(Stored(v, id, ext, ino, bytes))
  {
  }

  /** From the flushed temporary file to the index entry. */
  lemma FromFlushed(s: Sys, t: Tid) returns (ino: nat)
    requires Alone(s, t) && t in s.tasks && s.tasks[t].pc.Flushed? && Settles(See(s.sh))
    requires s.tasks[t].op.id !in s.sh.index
    ensures var k := s.tasks[t];
            var v := Stored(See(s.sh), k.op.id, k.op.ext, ino, Intended(k));
            Ends(s, t, Success, if k.op.kind.Put? then v else Dropped(v, k.op.parts))
  {
    var k := s.tasks[t];
    SoloFacts(s, t);
    var temp := TempOf(s.sh.pid, k, k.pc.n);
    ino := s.sh.disk.dir[temp];
    DataNames(s.sh.disk.dir, Data(k.op.id, k.op.ext), ino);
    var s1 := Hop(s, t);
    HiddenNames(s1.sh.disk.dir, temp, 0);
    var s2 := Hop(s1, t);
    if k.op.kind.Put? {
      FromIndexingPut(s2, t);
    } else {
      SettlesWith(See(s.sh), k.op.id, k.op.ext, ino, Intended(k));
      FromIndexingConcat(s2, t);
    }
  }

  // ---- Filling the temporary file ----

  lemma PutWrites(s: Sys, t: Tid) returns (ino: nat)
    requires Alone(s, t) && t in s.tasks && s.tasks[t].pc.Writing? && s.tasks[t].op.kind.Put?
    requires s.tasks[t].pc.round <= |s.tasks[t].op.items| && Settles(See(s.sh)) && s.tasks[t].op.id !in s.sh.index
    ensures var op, v := s.tasks[t].op, See(s.sh);
            match Observe(op.items[s.tasks[t].pc.round..]).error
            case Some(e) => Ends(s, t, Failure(e), v)
            case None => Ends(s, t, Success, Stored(v, op.id, op.ext, ino, Body(op.items)))
    decreases |s.tasks[t].op.items| - s.tasks[t].pc.round
  {
    var op, j := s.tasks[t].op, s.tasks[t].pc.round;
    ino := 0;
    var s1 := Hop(s, t);
    if j == |op.items| {
      ino := FromFlushed(s1, t);
    } else {
      assert op.items[j..][0] == op.items[j] && op.items[j..][1..] == op.items[j + 1..];
      if op.items[j].Chunk? {
        ino := PutWrites(s1, t);
      } else {
        FromAbort(s1, t);
      }
    }
  }

  /** What was meant to be stored under some ids, one after the other. */
  function JoinMade(made: map<string, Bytes>, parts: seq<string>): Bytes {
    if parts == [] then [] else (if parts[0] in made then made[parts[0]] else []) + JoinMade(made, parts[1..])
  }

  lemma CopiesOne(s: Sys, t: Tid) returns (s': Sys)
    requires Alone(s, t) && t in s.tasks && s.tasks[t].pc.PartNamed?
    requires Data(s.tasks[t].pc.part, s.tasks[t].pc.ext) in See(s.sh).files
    ensures Alone(s', t) && t in s'.tasks && See(s'.sh) == See(s.sh)
    ensures var k := s.tasks[t];
            s'.tasks[t] == Task(k.op, Writing(k.pc.n, k.pc.round + 1), k.want + JoinMade(See(s.sh).made, [k.pc.part]))
    ensures forall reply, v :: Ends(s', t, reply, v) ==> Ends(s, t, reply, v)
  {
    var s1 := Hop(s, t);
    SoloFacts(s1, t);
    s' := Hop(s1, t);
    var made, part := See(s.sh).made, s.tasks[t].pc.part;
    assert JoinMade(made, [part]) == if part in made then made[part] else [];
  }

  ghost predicate AllIndexed(index: map<string, string>, parts: seq<string>) {
    forall i :: 0 <= i < |parts| ==> parts[i] in index
  }

  lemma ConcatWrites(s: Sys, t: Tid) returns (ino: nat)
    requires Alone(s, t) && t in s.tasks && s.tasks[t].pc.Writing? && s.tasks[t].op.kind.Concat?
    requires s.tasks[t].pc.round <= |s.tasks[t].op.parts| && Settles(See(s.sh)) && s.tasks[t].op.id !in s.sh.index
    ensures var k, v := s.tasks[t], See(s.sh);
            var parts := k.op.parts[k.pc.round..];
            if AllIndexed(v.index, parts)
            then Ends(s, t, Success, Dropped(Stored(v, k.op.id, k.op.ext, ino, k.want + JoinMade(v.made, parts)), k.op.parts))
            else Ends(s, t, Failure(NotFound), v)
    decreases |s.tasks[t].op.parts| - s.tasks[t].pc.round
  {
    var k, v := s.tasks[t], See(s.sh);
    var j, parts := k.pc.round, k.op.parts;
    ino := 0;
    var s1 := Hop(s, t);
    if j == |parts| {
      assert k.want + [] == k.want;
      ino := FromFlushed(s1, t);
    } else {
      NextPart(v, parts, j, k.want);
      if parts[j] in s.sh.index {
        var s2 := CopiesOne(s1, t);
        ino := ConcatWrites(s2, t);
      } else {
        FromAbort(s1, t);
      }
    }
  }

  lemma NextPart(v: Visible, parts: seq<string>, j: nat, want: Bytes)
    requires j < |parts|
    ensures AllIndexed(v.index, parts[j..]) <==> parts[j] in v.index && AllIndexed(v.index, parts[j + 1..])
    ensures want + JoinMade(v.made, parts[j..]) == (want + JoinMade(v.made, [parts[j]])) + JoinMade(v.made, parts[j + 1..])
  {
    var all, rest := parts[j..], parts[j + 1..];
    assert all[0] == parts[j] && all[1..] == rest;
    if AllIndexed(v.index, all) {
      forall i | 0 <= i < |rest| ensures rest[i] in v.index { assert rest[i] == all[i + 1]; }
    }
    if parts[j] in v.index && AllIndexed(v.index, rest) {
      forall i | 0 <= i < |all| ensures all[i] in v.index {
        if i > 0 { assert all[i] == rest[i - 1]; }
      }
    }
    assert JoinMade(v.made, [parts[j]]) == if parts[j] in v.made then v.made[parts[j]] else [];
  }

  // ---- From the arrival on ----

  lemma FromSpace(s: Sys, t: Tid) returns (s': Sys)
    requires Alone(s, t) && t in s.tasks && s.tasks[t].pc.Space?
    ensures Alone(s', t) && t in s'.tasks && See(s'.sh) == See(s.sh)
    ensures s'.tasks[t].pc.Writing? && s'.tasks[t].pc.round == 0
    ensures s'.tasks[t] == s.tasks[t].(pc := s'.tasks[t].pc)
    ensures forall reply, v :: Ends(s', t, reply, v) ==> Ends(s, t, reply, v)
  {
    var s1 := Hop(s, t);
    SoloFacts(s1, t);
    HiddenNames(s1.sh.disk.dir, TempOf(s1.sh.pid, s1.tasks[t], s1.sh.counter), s1.sh.disk.next);
    s' := Hop(s1, t);
  }

  /** Nothing has begun: every name is that of an indexed file. */
  lemma FreshStart(s: Sys, t: Tid)
    requires Alone(s, t) && t in s.tasks && s.tasks[t].pc.Start?
    ensures forall n :: n in s.sh.disk.dir ==> n.Data?
    ensures FilesIn(s.sh.disk.dir) == s.sh.disk.dir && Settles(See(s.sh))
  {
    assert AloneBut(s, t, t);
    forall u | u in s.tasks ensures s.tasks[u].pc.Start? || s.tasks[u].pc.Done? { assert AloneBut(s, t, u); }
    Quiescent(s);
  }

  lemma CleanEnd(s: Sys, t: Tid)
    requires Alone(s, t) && t in s.tasks && s.tasks[t].pc.Done?
    ensures FilesIn(s.sh.disk.dir) == s.sh.disk.dir
  {
    assert AloneBut(s, t, t);
    forall u | u in s.tasks ensures s.tasks[u].pc.Start? || s.tasks[u].pc.Done? { assert AloneBut(s, t, u); }
    Quiescent(s);
  }

  /** A creating request gets its reservation, and finds out whether its id is taken. */
  lemma FromCreate(s: Sys, t: Tid) returns (s': Sys)
    requires Alone(s, t) && t in s.tasks && s.tasks[t].pc.Start? && s.tasks[t].op.Creates()
    ensures Alone(s', t) && t in s'.tasks && See(s'.sh) == See(s.sh)
    ensures var op := s.tasks[t].op;
            s'.tasks[t] == s.tasks[t].(pc := if op.id in s.sh.index then Refused else if op.kind.Rename? then Lookup else Space)
    ensures forall reply, v :: Ends(s', t, reply, v) ==> Ends(s, t, reply, v)
  {
    FreshStart(s, t);
    HiddenNames(s.sh.disk.dir, Reserve(s.tasks[t].op.id), s.sh.disk.next);
    var s1 := Hop(s, t);
    s' := Hop(s1, t);
  }

  lemma StartsEmpty(s: Sys, t: Tid)
    requires Alone(s, t) && t in s.tasks && s.tasks[t].pc.Start?
    ensures s.tasks[t].want == []
  {
    SoloFacts(s, t);
  }

  // ---- What is left, in terms of directory, index and files ----

  /** What a task that ran alone has left. */
  ghost predicate Leaves(s: Sys, t: Tid, reply: Reply, dir: map<Name, nat>, index: map<string, string>) {
    t in s.tasks && t in Finish(s, t).tasks && Finish(s, t).tasks[t].pc == Done(reply)
    && Finish(s, t).sh.disk.dir == dir && Finish(s, t).sh.index == index
  }

  /** The bytes of the stored file of an id. */
  function BytesOf(sh: Shared, id: string): Bytes {
    if id in sh.index && Data(id, sh.index[id]) in sh.disk.dir && sh.disk.dir[Data(id, sh.index[id])] in sh.disk.data
    then sh.disk.data[sh.disk.dir[Data(id, sh.index[id])]].bytes else []
  }

  function JoinBytes(sh: Shared, parts: seq<string>): Bytes {
    if parts == [] then [] else BytesOf(sh, parts[0]) + JoinBytes(sh, parts[1..])
  }

  lemma EndsLeaves(s: Sys, t: Tid, reply: Reply, v: Visible)
    requires Alone(s, t) && t in s.tasks && Ends(s, t, reply, v)
    ensures Leaves(s, t, reply, v.files, v.index)
    ensures forall id :: id in v.index && Data(id, v.index[id]) in v.files ==>
              id in v.made && BytesOf(Finish(s, t).sh, id) == v.made[id]
  {
    FinishAlone(s, t);
    var s' := Finish(s, t);
    CleanEnd(s', t);
    SoloFacts(s', t);
  }

  lemma StoredIsMade(s: Sys, t: Tid)
    requires Alone(s, t) && t in s.tasks && s.tasks[t].pc.Start?
    ensures See(s.sh).files == s.sh.disk.dir && Settles(See(s.sh))
    ensures forall id :: id in s.sh.index ==>
              && Data(id, s.sh.index[id]) in s.sh.disk.dir && id in s.sh.disk.made && BytesOf(s.sh, id) == s.sh.disk.made[id]
  {
    FreshStart(s, t);
    SoloFacts(s, t);
    forall id | id in s.sh.index
      ensures Data(id, s.sh.index[id]) in s.sh.disk.dir && id in s.sh.disk.made && BytesOf(s.sh, id) == s.sh.disk.made[id]
    {
      assert Data(id, s.sh.index[id]) in See(s.sh).files;
    }
  }

  /** A delete removes file and entry, or finds that the id is not stored. */
  lemma SoloDelete(s: Sys, t: Tid)
    requires Alone(s, t) && t in s.tasks && s.tasks[t].pc.Start? && s.tasks[t].op.kind.Delete?
    ensures var id, dir, index := s.tasks[t].op.id, s.sh.disk.dir, s.sh.index;
            if id in index then Leaves(s, t, Deleted(true), dir - {Data(id, index[id])}, index - {id})
            else Leaves(s, t, Deleted(false), dir, index)
  {
    var id, v := s.tasks[t].op.id, See(s.sh);
    StoredIsMade(s, t);
    var s' := Hop(s, t);
    if id in s.sh.index {
      FromSeen(s', t);
      EndsLeaves(s, t, Deleted(true), Visible(v.files - {Data(id, v.index[id])}, v.index - {id}, v.made));
    } else {
      FromDone(s', t);
      EndsLeaves(s, t, Deleted(false), v);
    }
  }

  /** A get returns the stored bytes, or finds that the id is not stored; it changes nothing. */
  lemma SoloGet(s: Sys, t: Tid)
    requires Alone(s, t) && t in s.tasks && s.tasks[t].pc.Start? && s.tasks[t].op.kind.Get?
    ensures var id := s.tasks[t].op.id;
            Leaves(s, t, if id in s.sh.index then Contents(BytesOf(s.sh, id)) else Failure(NotFound), s.sh.disk.dir, s.sh.index)
  {
    var id, v := s.tasks[t].op.id, See(s.sh);
    StoredIsMade(s, t);
    var s' := Hop(s, t);
    if id in s.sh.index {
      FromSeen(s', t);
      EndsLeaves(s, t, Contents(BytesOf(s.sh, id)), v);
    } else {
      FromDone(s', t);
      EndsLeaves(s, t, Failure(NotFound), v);
    }
  }

  /** A rename moves file and entry to the new id, unless that is taken or the old one is not stored. */
  lemma SoloRename(s: Sys, t: Tid)
    requires Alone(s, t) && t in s.tasks && s.tasks[t].pc.Start? && s.tasks[t].op.kind.Rename?
    ensures var op, dir, index := s.tasks[t].op, s.sh.disk.dir, s.sh.index;
            if op.id in index then Leaves(s, t, Failure(Conflict), dir, index)
            else if op.source !in index then Leaves(s, t, Failure(NotFound), dir, index)
            else
              var ext := index[op.source];
              && Data(op.source, ext) in dir
              && Leaves(s, t, Success, dir[Data(op.id, ext) := dir[Data(op.source, ext)]] - {Data(op.source, ext)},
                        (index - {op.source})[op.id := ext])
              && BytesOf(Finish(s, t).sh, op.id) == BytesOf(s.sh, op.source)
  {
    var op, v := s.tasks[t].op, See(s.sh);
    StoredIsMade(s, t);
    var s' := FromCreate(s, t);
    if op.id in s.sh.index {
      FromRefused(s', t);
      EndsLeaves(s, t, Failure(Conflict), v);
    } else {
      FromLookup(s', t);
      if op.source in s.sh.index {
        EndsLeaves(s, t, Success, Renamed(v, op.source, op.id, v.index[op.source]));
      } else {
        EndsLeaves(s, t, Failure(NotFound), v);
      }
    }
  }

  /** A put stores its body under the id, unless that is taken or the body ends with an error. */
  lemma SoloPut(s: Sys, t: Tid) returns (ino: nat)
    requires Alone(s, t) && t in s.tasks && s.tasks[t].pc.Start? && s.tasks[t].op.kind.Put?
    ensures var op, dir, index := s.tasks[t].op, s.sh.disk.dir, s.sh.index;
            if op.id in index then Leaves(s, t, Failure(Conflict), dir, index)
            else match Observe(op.items).error
              case Some(e) => Leaves(s, t, Failure(e), dir, index)
              case None =>
                && Leaves(s, t, Success, dir[Data(op.id, op.ext) := ino], index[op.id := op.ext])
                && BytesOf(Finish(s, t).sh, op.id) == Body(op.items)
  {
    var op, v := s.tasks[t].op, See(s.sh);
    ino := 0;
    StoredIsMade(s, t);
    var s1 := FromCreate(s, t);
    if op.id in s.sh.index {
      FromRefused(s1, t);
      EndsLeaves(s, t, Failure(Conflict), v);
    } else {
      var s2 := FromSpace(s1, t);
      ino := PutWrites(s2, t);
      assert op.items[0..] == op.items;
      match Observe(op.items).error
      case Some(e) => EndsLeaves(s, t, Failure(e), v);
      case None => EndsLeaves(s, t, Success, Stored(v, op.id, op.ext, ino, Body(op.items)));
    }
  }

  // ---- Concat ----

  lemma {:induction false} DroppedIs(v: Visible, parts: seq<string>)
    requires Settles(v)
    ensures var d := Dropped(v, parts);
            && (forall id :: id in d.index <==> id in v.index && id !in parts)
            && (forall id :: id in d.index ==> d.index[id] == v.index[id])
            && (forall n: Name :: n in d.files <==> n in v.files && !(n.Data? && n.id in parts))
            && (forall n :: n in d.files ==> d.files[n] == v.files[n])
            && d.made == v.made
    decreases |parts|
  {
    if parts != [] {
      assert forall p :: p in parts <==> p == parts[0] || p in parts[1..];
      if parts[0] in v.index {
        SettlesWithout(v, parts[0]);
        DroppedIs(Visible(v.files - {Data(parts[0], v.index[parts[0]])}, v.index - {parts[0]}, v.made), parts[1..]);
      } else {
        DroppedIs(v, parts[1..]);
      }
    }
  }

  lemma {:induction false} JoinedIsMade(s: Sys, t: Tid, parts: seq<string>)
    requires Alone(s, t) && t in s.tasks && s.tasks[t].pc.Start? && AllIndexed(s.sh.index, parts)
    ensures JoinMade(s.sh.disk.made, parts) == JoinBytes(s.sh, parts)
  {
    StoredIsMade(s, t);
    if parts != [] {
      assert parts[0] in s.sh.index;
      forall i | 0 <= i < |parts[1..]| ensures parts[1..][i] in s.sh.index { assert parts[1..][i] == parts[i + 1]; }
      JoinedIsMade(s, t, parts[1..]);
    }
  }

  /** What a concat of stored parts ends with. */
  lemma ConcatEnds(s: Sys, t: Tid) returns (ino: nat)
    requires Alone(s, t) && t in s.tasks && s.tasks[t].pc.Start? && s.tasks[t].op.kind.Concat?
    ensures var op, v := s.tasks[t].op, See(s.sh);
            if op.id in v.index then Ends(s, t, Failure(Conflict), v)
            else if AllIndexed(v.index, op.parts)
            then Ends(s, t, Success, Dropped(Stored(v, op.id, op.ext, ino, JoinMade(v.made, op.parts)), op.parts))
            else Ends(s, t, Failure(NotFound), v)
  {
    var op, v := s.tasks[t].op, See(s.sh);
    ino := 0;
    FreshStart(s, t);
    StartsEmpty(s, t);
    var s1 := FromCreate(s, t);
    if op.id in s.sh.index {
      FromRefused(s1, t);
    } else {
      var s2 := FromSpace(s1, t);
      ino := ConcatWrites(s2, t);
      assert op.parts[0..] == op.parts && [] + JoinMade(v.made, op.parts) == JoinMade(v.made, op.parts);
    }
  }

  /** The target has come, and the parts are gone. */
  ghost predicate Joins(sh: Shared, op: Op, dir: map<Name, nat>, index: map<string, string>) {
    && (forall id :: id in index <==> id == op.id || (id in sh.index && id !in op.parts))
    && (forall id :: id in index ==> index[id] == if id == op.id then op.ext else sh.index[id])
    && (forall n :: n in dir <==> n == Data(op.id, op.ext) || (n in sh.disk.dir && n.id !in op.parts))
    && (forall n :: n in dir && n in sh.disk.dir ==> dir[n] == sh.disk.dir[n])
  }

  lemma DroppedJoins(sh: Shared, op: Op, ino: nat, bytes: Bytes)
    requires Settles(See(sh)) && FilesIn(sh.disk.dir) == sh.disk.dir && (forall n :: n in sh.disk.dir ==> n.Data?)
    requires op.id !in sh.index && AllIndexed(sh.index, op.parts)
    ensures var w := Dropped(Stored(See(sh), op.id, op.ext, ino, bytes), op.parts);
            && Joins(sh, op, w.files, w.index) && w.made == sh.disk.made[op.id := bytes]
            && op.id in w.index && w.index[op.id] == op.ext && Data(op.id, op.ext) in w.files
  {
    SettlesWith(See(sh), op.id, op.ext, ino, bytes);
    DroppedIs(Stored(See(sh), op.id, op.ext, ino, bytes), op.parts);
    assert op.id !in op.parts;
  }

  lemma SoloConcatJoins(s: Sys, t: Tid, ino: nat) returns (dir: map<Name, nat>, index: map<string, string>)
    requires Alone(s, t) && t in s.tasks && s.tasks[t].pc.Start? && s.tasks[t].op.id !in s.sh.index
    requires AllIndexed(s.sh.index, s.tasks[t].op.parts)
    requires var op, v := s.tasks[t].op, See(s.sh);
             Ends(s, t, Success, Dropped(Stored(v, op.id, op.ext, ino, JoinMade(v.made, op.parts)), op.parts))
    ensures Leaves(s, t, Success, dir, index) && Joins(s.sh, s.tasks[t].op, dir, index)
    ensures BytesOf(Finish(s, t).sh, s.tasks[t].op.id) == JoinBytes(s.sh, s.tasks[t].op.parts)
  {
    var op, v := s.tasks[t].op, See(s.sh);
    FreshStart(s, t);
    var w := Dropped(Stored(v, op.id, op.ext, ino, JoinMade(v.made, op.parts)), op.parts);
    DroppedJoins(s.sh, op, ino, JoinMade(v.made, op.parts));
    EndsLeaves(s, t, Success, w);
    JoinedIsMade(s, t, op.parts);
    dir, index := w.files, w.index;
  }

  /**
   A concat of stored parts leaves its target, with the bytes of the parts in order, in the place of the parts. It is
   refused, and changes nothing, if the target is taken or a part is not stored.
   */
  lemma SoloConcat(s: Sys, t: Tid) returns (dir: map<Name, nat>, index: map<string, string>)
    requires Alone(s, t) && t in s.tasks && s.tasks[t].pc.Start? && s.tasks[t].op.kind.Concat?
    ensures var op := s.tasks[t].op;
            if op.id in s.sh.index then Leaves(s, t, Failure(Conflict), s.sh.disk.dir, s.sh.index)
            else if exists i :: 0 <= i < |op.parts| && op.parts[i] !in s.sh.index
            then Leaves(s, t, Failure(NotFound), s.sh.disk.dir, s.sh.index)
            else
              && Leaves(s, t, Success, dir, index) && Joins(s.sh, op, dir, index)
              && BytesOf(Finish(s, t).sh, op.id) == JoinBytes(s.sh, op.parts)
  {
    var op, v := s.tasks[t].op, See(s.sh);
    FreshStart(s, t);
    dir, index := s.sh.disk.dir, s.sh.index;
    var ino := ConcatEnds(s, t);
    if op.id in s.sh.index {
      EndsLeaves(s, t, Failure(Conflict), v);
    } else if AllIndexed(v.index, op.parts) {
      dir, index := SoloConcatJoins(s, t, ino);
    } else {
      EndsLeaves(s, t, Failure(NotFound), v);
    }
  }

  // ---- One failing call ----

  /** The next call of the task can fail, and then the request does. */
  predicate CanFail(k: Task) {
    match k.pc
    case Start => k.op.Creates()
    case Writing(_, j) => j >= k.op.Rounds() || (k.op.kind.Put? && k.op.items[j].Chunk?)
    case Space | MakeTemp | PartNamed(_, _, _, _) | PartOpen(_, _, _, _) | Flushed(_) => true
    case Probe(_) | Linking(_) | Moving(_) | Seen(_) | Open(_, _) => true
    case _ => false
  }

  /** The error it then fails with. */
  function FaultError(k: Task): StorageError {
    if k.pc.Space? then InsufficientStorage else if k.pc.Probe? then NotFound else Io
  }

  lemma Stumble(s: Sys, t: Tid)
    requires Alone(s, t) && t in s.tasks
    ensures Alone(Step(s, t, false), t)
  {
    assert AloneBut(s, t, t);
    StepKeepsInv(s, t, false);
    forall u ensures AloneBut(Step(s, t, false), t, u) { assert AloneBut(s, t, u); }
  }

  lemma FromRollback(s: Sys, t: Tid)
    requires Alone(s, t) && t in s.tasks && s.tasks[t].pc.Rollback?
    ensures var k, v := s.tasks[t], See(s.sh); Ends(s, t, Failure(Io), v.(files := v.files - {Data(k.op.id, k.pc.ext)}))
  {
    DataNames(s.sh.disk.dir, Data(s.tasks[t].op.id, s.tasks[t].pc.ext), 0);
    var s' := Hop(s, t);
    FromLeaving(s', t);
  }

  /** What a task whose next call fails ends with: its error, and what was to be seen before, less the link of a rename. */
  lemma FaultEnds(s: Sys, t: Tid)
    requires Alone(s, t) && t in s.tasks && CanFail(s.tasks[t])
    ensures var k, v := s.tasks[t], See(s.sh);
            Ends(Step(s, t, false), t, Failure(FaultError(k)),
                 if k.pc.Moving? then v.(files := v.files - {Data(k.op.id, k.pc.ext)}) else v)
  {
    var k, s' := s.tasks[t], Step(s, t, false);
    Stumble(s, t);
    if k.pc.Moving? {
      FromRollback(s', t);
    } else if k.pc.Space? || k.pc.Probe? || k.pc.Linking? {
      FromLeaving(s', t);
    } else if k.pc.Start? || k.pc.Seen? || k.pc.Open? {
      FromDone(s', t);
    } else {
      FromAbort(s', t);
    }
  }

  /** The task has not linked or unlinked a file yet. */
  predicate Early(pc: Pc) {
    match pc
    case Start | Reserved | Refused | Space | MakeTemp | Writing(_, _) | PartNamed(_, _, _, _) | PartOpen(_, _, _, _) => true
    case Flushed(_) | Lookup | Probe(_) | Linking(_) | Seen(_) | Open(_, _) => true
    case _ => false
  }

  lemma EarlyStep(sh: Shared, k: Task)
    requires Early(Advance(sh, k, true).k.pc)
    ensures Early(k.pc) && See(Advance(sh, k, true).sh) == See(sh)
  {
    HiddenNames(sh.disk.dir, Reserve(k.op.id), sh.disk.next);
    HiddenNames(sh.disk.dir, TempOf(sh.pid, k, sh.counter), sh.disk.next);
  }

  lemma OnlyLinksMove(sh: Shared, k: Task)
    requires Advance(sh, k, true).k.pc.Moving?
    ensures k.pc.Linking? && Data(k.op.source, k.pc.ext) in sh.disk.dir && Data(k.op.id, k.pc.ext) !in sh.disk.dir
  {
  }

  lemma LinkStep(sh: Shared, k: Task)
    requires MyFiles(sh, k) && k.pc.Linking? && Advance(sh, k, true).k.pc.Moving?
    ensures var a := Advance(sh, k, true);
            && a.k == k.(pc := Moving(k.pc.ext)) && a.sh.index == sh.index
            && FilesIn(a.sh.disk.dir) - {Data(k.op.id, k.pc.ext)} == FilesIn(sh.disk.dir)
  {
    var n, i := Data(k.op.id, k.pc.ext), sh.disk.dir[Data(k.op.source, k.pc.ext)];
    DataNames(sh.disk.dir, n, i);
    assert FilesIn(sh.disk.dir)[n := i] - {n} == FilesIn(sh.disk.dir);
  }

  lemma {:induction false} StepManyMore(s: Sys, t: Tid, n: nat)
    requires t in s.tasks
    ensures t in StepMany(s, t, n).tasks && StepMany(s, t, n + 1) == Step(StepMany(s, t, n), t, true)
    decreases n
  {
    if n > 0 {
      StepManyMore(Step(s, t, true), t, n - 1);
      assert StepMany(s, t, n) == StepMany(Step(s, t, true), t, n - 1);
    } else {
      assert StepMany(s, t, 1) == StepMany(Step(s, t, true), t, 0);
    }
  }

  lemma {:induction false} StepManyAlone(s: Sys, t: Tid, n: nat)
    requires Alone(s, t) && t in s.tasks
    ensures t in StepMany(s, t, n).tasks && Alone(StepMany(s, t, n), t)
  {
    if n > 0 {
      StepManyAlone(s, t, n - 1);
      StepManyMore(s, t, n - 1);
      AloneStep(StepMany(s, t, n - 1), t);
    }
  }

  /** Up to its link or unlink, a task changes nothing that can be seen. */
  lemma {:induction false} EarlyIsUnseen(s: Sys, t: Tid, n: nat)
    requires t in s.tasks
    ensures t in StepMany(s, t, n).tasks
    ensures Early(StepMany(s, t, n).tasks[t].pc) ==> See(StepMany(s, t, n).sh) == See(s.sh)
  {
    if n > 0 {
      EarlyIsUnseen(s, t, n - 1);
      StepManyMore(s, t, n - 1);
      var s' := StepMany(s, t, n - 1);
      if Early(StepMany(s, t, n).tasks[t].pc) { EarlyStep(s'.sh, s'.tasks[t]); }
    }
  }

  /**
   Wherever a request is when one of its calls fails, up to the unlink that commits it: it is answered with that error,
   and directory and index are as they were when it came.
   */
  lemma FaultChangesNothing(s: Sys, t: Tid, n: nat)
    requires Alone(s, t) && t in s.tasks && s.tasks[t].pc.Start?
    requires t in StepMany(s, t, n).tasks && CanFail(StepMany(s, t, n).tasks[t])
    ensures var s' := StepMany(s, t, n);
            Leaves(Step(s', t, false), t, Failure(FaultError(s'.tasks[t])), s.sh.disk.dir, s.sh.index)
  {
    var s' := StepMany(s, t, n);
    FreshStart(s, t);
    StepManyAlone(s, t, n);
    Stumble(s', t);
    FaultEnds(s', t);
    if s'.tasks[t].pc.Moving? {
      LinkIsUndone(s, t, n);
    } else {
      EarlyIsUnseen(s, t, n);
    }
    var k, v := s'.tasks[t], See(s'.sh);
    EndsLeaves(Step(s', t, false), t, Failure(FaultError(k)),
               if k.pc.Moving? then v.(files := v.files - {Data(k.op.id, k.pc.ext)}) else v);
  }

  lemma LinkIsUndone(s: Sys, t: Tid, n: nat)
    requires Alone(s, t) && t in s.tasks && s.tasks[t].pc.Start?
    requires t in StepMany(s, t, n).tasks && StepMany(s, t, n).tasks[t].pc.Moving?
    ensures var s' := StepMany(s, t, n);
            var k := s'.tasks[t];
            FilesIn(s'.sh.disk.dir) - {Data(k.op.id, k.pc.ext)} == FilesIn(s.sh.disk.dir) && s'.sh.index == s.sh.index
  {
    StepManyMore(s, t, n - 1);
    StepManyAlone(s, t, n - 1);
    EarlyIsUnseen(s, t, n - 1);
    OneLink(StepMany(s, t, n - 1), t);
  }

  lemma OneLink(s: Sys, t: Tid)
    requires Alone(s, t) && t in s.tasks && Step(s, t, true).tasks[t].pc.Moving?
    ensures Early(s.tasks[t].pc)
    ensures var s' := Step(s, t, true);
            var k := s'.tasks[t];
            FilesIn(s'.sh.disk.dir) - {Data(k.op.id, k.pc.ext)} == FilesIn(s.sh.disk.dir) && s'.sh.index == s.sh.index
  {
    SoloFacts(s, t);
    OnlyLinksMove(s.sh, s.tasks[t]);
    LinkStep(s.sh, s.tasks[t]);
  }

  /** A part that cannot be unlinked stays, and the concat goes on. */
  lemma StuckPart(s: Sys, t: Tid)
    requires Alone(s, t) && t in s.tasks && s.tasks[t].pc.PartSeen? && s.tasks[t].pc.round < |s.tasks[t].op.parts|
    requires Settles(See(s.sh))
    ensures Ends(Step(s, t, false), t, Success, Dropped(See(s.sh), s.tasks[t].op.parts[s.tasks[t].pc.round + 1..]))
  {
    Stumble(s, t);
    FromDeleting(Step(s, t, false), t);
  }

  // ---- Coming too late ----

  /** The file that the task is after has been unlinked. */
  predicate Misses(sh: Shared, k: Task) {
    match k.pc
    case Seen(ext) => Data(k.op.id, ext) !in sh.disk.dir
    case PartNamed(_, _, part, ext) => Data(part, ext) !in sh.disk.dir
    case Probe(ext) => Data(k.op.source, ext) !in sh.disk.dir
    case Linking(ext) => Data(k.op.source, ext) !in sh.disk.dir
    case Moving(ext) => Data(k.op.source, ext) !in sh.disk.dir
    case _ => false
  }

  /** The answer then: a delete has found nothing, the others have failed. */
  function MissReply(k: Task): Reply {
    if k.pc.Seen? && k.op.kind.Delete? then Deleted(false)
    else if k.pc.Linking? || k.pc.Moving? then Failure(Io)
    else Failure(NotFound)
  }

  /** A task that comes too late is answered so, and changes nothing; a rename takes its link back. */
  lemma MissEnds(s: Sys, t: Tid)
    requires Alone(s, t) && t in s.tasks && Misses(s.sh, s.tasks[t])
    ensures var k, v := s.tasks[t], See(s.sh);
            Ends(s, t, MissReply(k), if k.pc.Moving? then v.(files := v.files - {Data(k.op.id, k.pc.ext)}) else v)
  {
    var k := s.tasks[t];
    var s' := Hop(s, t);
    if k.pc.Moving? {
      FromRollback(s', t);
    } else if k.pc.Seen? {
      FromDone(s', t);
    } else if k.pc.PartNamed? {
      FromAbort(s', t);
    } else {
      FromLeaving(s', t);
    }
  }

  // ---- Every valid request can come, and run alone ----

  /** A request that comes to a process that has just started runs alone. */
  lemma SpawnIsAlone(s: Sys, t: Tid, op: Op)
    requires Initial(s) && ValidOp(op)
    ensures Enabled(s, Spawn(t, op))
    ensures var s' := Apply(s, Spawn(t, op)); Alone(s', t) && t in s'.tasks && s'.tasks[t] == Task(op, Start, [])
  {
    InitialKeepsInv(s);
    SpawnKeepsInv(s, t, op);
    var s' := Apply(s, Spawn(t, op));
    forall u ensures AloneBut(s', t, u) { }
  }
}
