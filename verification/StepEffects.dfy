/** What one step of one task does: to the life of ids, and to files. */
module StepEffects {
  import opened Base
  import opened Names
  import opened Lifecycle
  import opened Protocol
  import opened ProtocolInvariant

  // ---- To the life of ids ----

  datatype Effect = Quiet | Acquires | Passes | GivesUp | Links | Enters | Leaves | Sights | Unlinks | Unindexes | Retracts

  /** `e` is all that a step does to role, names and index. */
  ghost predicate Does(r: Role, r': Role, names: set<Name>, names': set<Name>, index: map<string, string>,
                       index': map<string, string>, e: Effect) {
    match e
    case Quiet =>
      && (r' == r || r' == r.(seen := None)) && index' == index
      && forall n: Name :: n.Data? || n.Reserve? ==> (n in names <==> n in names')
    case Acquires =>
      && r == BYSTANDER && r'.held.Unchecked? && r' == r.(held := r'.held) && index' == index
      && Reserve(r'.held.id) !in names && names' == names + {Reserve(r'.held.id)}
    case Passes =>
      && r.held.Unchecked? && r == Role(r.held, None, None) && r' == r.(held := Clear(r.held.id))
      && r.held.id !in index && index' == index && names' == names
    case GivesUp =>
      && (r.held.Clear? || r.held.Unchecked?) && r' == r.(held := Settled(r.held.id), seen := None)
      && index' == index && names' == names
    case Links =>
      && r.held.Clear? && r.removing.None? && r'.held.Linked? && r' == r.(held := r'.held)
      && r'.held.id == r.held.id && index' == index && names' == names + {Data(r'.held.id, r'.held.ext)}
    case Enters =>
      && r.held.Linked? && r.seen.None? && r.removing.None? && r' == r.(held := Settled(r.held.id))
      && index' == index[r.held.id := r.held.ext] && names' == names
    case Leaves =>
      && r.held.Settled? && r' == r.(held := Free) && index' == index
      && names' == names - {Reserve(r.held.id)}
    case Sights =>
      && r.removing.None? && r'.seen.Some? && r' == r.(seen := r'.seen)
      && r'.seen.value.0 in index && r'.seen.value.1 == index[r'.seen.value.0]
      && index' == index && names' == names
    case Unlinks =>
      && r.seen.Some? && r' == r.(seen := None, removing := Some(r.seen.value.0)) && index' == index
      && Data(r.seen.value.0, r.seen.value.1) in names
      && names' == names - {Data(r.seen.value.0, r.seen.value.1)}
    case Unindexes =>
      && r.removing.Some? && r' == r.(removing := None) && index' == index - {r.removing.value}
      && names' == names
    case Retracts =>
      && r.held.Linked? && r.removing.None? && r' == r.(held := Settled(r.held.id), seen := None)
      && index' == index && names' == names - {Data(r.held.id, r.held.ext)}
  }

  ghost predicate Has(sh: Shared, k: Task, a: After, e: Effect) {
    Does(RoleOf(k), RoleOf(a.k), sh.disk.dir.Keys, a.sh.disk.dir.Keys, sh.index, a.sh.index, e)
  }

  /** Every effect keeps ids alive, provided a link is made only when no task still acts on an earlier life. */
  lemma EffectKeepsLife(names: set<Name>, names': set<Name>, index: map<string, string>, index': map<string, string>,
                        roles: map<Tid, Role>, t: Tid, r': Role, e: Effect)
    requires Life(names, index, roles) && t in roles
    requires Does(roles[t], r', names, names', index, index', e)
    requires e.Links? ==> NoStaleSight(roles, r'.held.id, r'.held.ext)
    ensures Life(names', index', roles[t := r'])
  {
    match e
    case Quiet =>
      if r' == roles[t] { assert roles[t := r'] == roles; } else { Idle(names, index, roles, t); }
      TempsDoNotMatter(names, names', index, roles[t := r']);
    case Acquires => Acquire(names, index, roles, t, r'.held.id);
    case Passes => Pass(names, index, roles, t, roles[t].held.id);
    case GivesUp => GiveUp(names, index, roles, t);
    case Links => Link(names, index, roles, t, r'.held.ext);
    case Enters => Index(names, index, roles, t);
    case Leaves => Release(names, index, roles, t);
    case Sights => Sight(names, index, roles, t, r'.seen.value.0);
    case Unlinks => Unlink(names, index, roles, t);
    case Unindexes => Unindex(names, index, roles, t);
    case Retracts => Retract(names, index, roles, t);
  }

  lemma ReserveEffect(sh: Shared, k: Task, ok: bool) returns (e: Effect)
    requires k.pc.Start? && k.op.Creates()
    ensures Has(sh, k, AtReserve(sh, k, ok), e) && !e.Links?
  {
    if ok && Reserve(k.op.id) !in sh.disk.dir {
      assert AtReserve(sh, k, ok).sh.disk.dir.Keys == sh.disk.dir.Keys + {Reserve(k.op.id)};
      e := Acquires;
    } else {
      e := Quiet;
    }
  }

  lemma HoldEffect(sh: Shared, k: Task, ok: bool) returns (e: Effect)
    requires k.pc.Reserved? || k.pc.Refused? || k.pc.Leaving? || k.pc.Space? || k.pc.Indexing?
    ensures Has(sh, k, Advance(sh, k, ok), e) && !e.Links?
  {
    match k.pc
    case Reserved => e := if k.op.id in sh.index then GivesUp else Passes;
    case Space => e := if ok then Quiet else GivesUp;
    case Indexing => e := Enters;
    case Refused => e := Leaves;
    case Leaving(_) => e := Leaves;
  }

  lemma FillEffect(sh: Shared, k: Task, ok: bool) returns (e: Effect)
    requires k.pc.MakeTemp? || k.pc.Writing? || k.pc.PartNamed? || k.pc.PartOpen?
    ensures Has(sh, k, Advance(sh, k, ok), e) && !e.Links?
  {
    e := if Advance(sh, k, ok).k.pc.Abort? then GivesUp else Quiet;
  }

  lemma CleanEffect(sh: Shared, k: Task, ok: bool) returns (e: Effect)
    requires k.pc.Published? || k.pc.Abort? || k.pc.Done? || k.pc.Open? || (k.pc.Start? && !k.op.Creates())
    ensures Has(sh, k, Advance(sh, k, ok), e) && !e.Links?
  {
    e := if k.pc.Start? && k.op.id in sh.index && k.op.kind.Delete? then Sights else Quiet;
  }

  lemma FlushedEffect(sh: Shared, k: Task, ok: bool) returns (e: Effect)
    requires Inodes(sh.disk) && k.pc.Flushed?
    ensures var a := Advance(sh, k, ok);
            Has(sh, k, a, e) && (e.Links? ==> LinkMade(sh, k, ok) == Some((HeldBy(a.k).id, HeldBy(a.k).ext)))
  {
    e := GivesUp;
    if LinkMade(sh, k, ok).Some? {
      assert Advance(sh, k, ok).sh.disk.dir.Keys == sh.disk.dir.Keys + {Data(k.op.id, k.op.ext)};
      e := Links;
    }
  }

  lemma LinkingEffect(sh: Shared, k: Task, ok: bool) returns (e: Effect)
    requires Inodes(sh.disk) && k.pc.Linking?
    ensures var a := Advance(sh, k, ok);
            Has(sh, k, a, e) && (e.Links? ==> LinkMade(sh, k, ok) == Some((HeldBy(a.k).id, HeldBy(a.k).ext)))
  {
    e := GivesUp;
    if LinkMade(sh, k, ok).Some? {
      assert Advance(sh, k, ok).sh.disk.dir.Keys == sh.disk.dir.Keys + {Data(k.op.id, k.pc.ext)};
      e := Links;
    }
  }

  lemma DeletePartEffect(sh: Shared, k: Task, ok: bool) returns (e: Effect)
    requires k.pc.Deleting? || k.pc.PartSeen? || k.pc.PartUnlinked?
    ensures Has(sh, k, Advance(sh, k, ok), e) && !e.Links?
  {
    match k.pc
    case Deleting(j) => e := if j < |k.op.parts| && k.op.parts[j] in sh.index then Sights else Quiet;
    case PartSeen(_, part, ext) => e := if ok && Data(part, ext) in sh.disk.dir then Unlinks else Quiet;
    case PartUnlinked(_, _) => e := Unindexes;
  }

  lemma SourceEffect(sh: Shared, k: Task, ok: bool) returns (e: Effect)
    requires k.pc.Lookup? || k.pc.Probe? || k.pc.Moving?
    ensures Has(sh, k, Advance(sh, k, ok), e) && !e.Links?
  {
    match k.pc
    case Lookup => e := if k.op.source in sh.index then Sights else GivesUp;
    case Probe(ext) => e := if ok && Data(k.op.source, ext) in sh.disk.dir then Quiet else GivesUp;
    case Moving(ext) => e := if ok && Data(k.op.source, ext) in sh.disk.dir then Unlinks else Quiet;
  }

  lemma TargetEffect(sh: Shared, k: Task, ok: bool) returns (e: Effect)
    requires k.pc.Rollback? || k.pc.Moved? || k.pc.Reindex?
    ensures Has(sh, k, Advance(sh, k, ok), e) && !e.Links?
  {
    match k.pc
    case Rollback(_) => e := Retracts;
    case Moved(_) => e := Unindexes;
    case Reindex(_) => e := Enters;
  }

  lemma SeenEffect(sh: Shared, k: Task, ok: bool) returns (e: Effect)
    requires k.pc.Seen? || k.pc.Unlinked?
    ensures Has(sh, k, Advance(sh, k, ok), e) && !e.Links?
  {
    match k.pc
    case Seen(ext) => e := if k.op.kind.Delete? && ok && Data(k.op.id, ext) in sh.disk.dir then Unlinks else Quiet;
    case Unlinked => e := Unindexes;
  }

  lemma StepEffect(sh: Shared, k: Task, ok: bool) returns (e: Effect)
    requires Inodes(sh.disk)
    ensures var a := Advance(sh, k, ok);
            Has(sh, k, a, e) && (e.Links? ==> LinkMade(sh, k, ok) == Some((HeldBy(a.k).id, HeldBy(a.k).ext)))
  {
    match k.pc
    case Reserved | Refused | Leaving(_) | Space | Indexing => e := HoldEffect(sh, k, ok);
    case MakeTemp | Writing(_, _) | PartNamed(_, _, _, _) | PartOpen(_, _, _, _) => e := FillEffect(sh, k, ok);
    case Published(_) | Abort(_, _) | Done(_) | Open(_, _) => e := CleanEffect(sh, k, ok);
    case Flushed(_) => e := FlushedEffect(sh, k, ok);
    case Linking(_) => e := LinkingEffect(sh, k, ok);
    case Deleting(_) | PartSeen(_, _, _) | PartUnlinked(_, _) => e := DeletePartEffect(sh, k, ok);
    case Lookup | Probe(_) | Moving(_) => e := SourceEffect(sh, k, ok);
    case Rollback(_) | Moved(_) | Reindex(_) => e := TargetEffect(sh, k, ok);
    case Seen(_) | Unlinked => e := SeenEffect(sh, k, ok);
    case Start => if k.op.Creates() { e := ReserveEffect(sh, k, ok); } else { e := CleanEffect(sh, k, ok); }
  }

  // ---- To files ----

  /** The moving task accounts for the temporary names it touches, and for what it writes and reads. */
  ghost predicate Accounts(sh: Shared, k: Task, a: After, touched: set<Name>) {
    && a.k.op == k.op && a.sh.pid == sh.pid && sh.counter <= a.sh.counter
    && (forall n :: n in touched && n.Temp? ==>
          && ((TempBy(k).Some? && n == TempOf(sh.pid, k, TempBy(k).value)) || n.n == sh.counter)
          && (n in a.sh.disk.dir ==> TempBy(a.k).Some? && n == TempOf(sh.pid, k, TempBy(a.k).value)))
    && (TempBy(a.k).Some? && TempBy(a.k) != TempBy(k) ==> TempBy(a.k).value == sh.counter < a.sh.counter)
    && (TempBy(k).Some? && TempBy(a.k) != TempBy(k) ==> TempOf(sh.pid, k, TempBy(k).value) !in a.sh.disk.dir)
    && Filling(a.sh.disk, sh.pid, a.k) && ReadsWhole(a.sh.disk, a.k)
  }

  ghost predicate Touches(sh: Shared, k: Task, a: After, touched: set<Name>) {
    Keeps(sh.disk, a.sh.disk, touched) && Accounts(sh, k, a, touched)
  }

  /** The step leaves the files alone; a task that gives up its temporary file has it still in hand. */
  ghost predicate Idles(sh: Shared, k: Task, a: After) {
    && a.k.op == k.op && a.sh.disk == sh.disk && a.sh.pid == sh.pid && a.sh.counter == sh.counter
    && TempBy(a.k) == TempBy(k) && (Progress(a.k) == Progress(k) || Progress(a.k).None?)
    && (a.k.pc.Abort? ==> Progress(k).Some?) && ReadsWhole(sh.disk, a.k)
  }

  lemma IdleTouches(sh: Shared, k: Task, a: After)
    requires MyFiles(sh, k) && Idles(sh, k, a)
    ensures Touches(sh, k, a, {})
  {
    SameKeeps(sh.disk);
  }

  predicate Bookkeeping(k: Task) {
    (k.pc.Start? && !k.op.Creates()) || k.pc.Done? || k.pc.Reserved? || k.pc.Space? || k.pc.Indexing? || k.pc.Unlinked? || k.pc.Open?
  }

  lemma BookkeepingIdles(sh: Shared, k: Task, ok: bool)
    requires Bookkeeping(k)
    ensures Idles(sh, k, Advance(sh, k, ok))
  {
  }

  lemma SourceIdles(sh: Shared, k: Task, ok: bool)
    requires k.pc.Lookup? || k.pc.Probe? || k.pc.Moved? || k.pc.Reindex? || k.pc.Deleting? || k.pc.PartUnlinked?
    ensures Idles(sh, k, Advance(sh, k, ok))
  {
  }

  lemma OpeningIdles(sh: Shared, k: Task, ok: bool)
    requires k.pc.PartNamed? && Complete(sh.disk)
    ensures Idles(sh, k, Advance(sh, k, ok))
  {
  }

  lemma ReserveTouches(sh: Shared, k: Task, ok: bool) returns (touched: set<Name>)
    requires MyFiles(sh, k) && k.pc.Start? && k.op.Creates()
    ensures Touches(sh, k, AtReserve(sh, k, ok), touched)
  {
    if ok && Reserve(k.op.id) !in sh.disk.dir {
      CreateKeeps(sh.disk, Reserve(k.op.id));
      touched := {Reserve(k.op.id)};
    } else {
      SameKeeps(sh.disk);
      touched := {};
    }
  }

  /** The step removes a name that is no temporary file. */
  lemma RemovalTouches(sh: Shared, k: Task, n: Name, pc: Pc)
    requires MyFiles(sh, k) && !n.Temp? && TempBy(k).None?
    requires TempBy(k.(pc := pc)).None? && Reading(k.(pc := pc)).None?
    ensures Touches(sh, k, OnDisk(sh, Remove(sh.disk, n), k, pc), {n})
  {
    RemoveKeeps(sh.disk, n);
  }

  /** The step removes the task's temporary file. */
  lemma TempRemovalTouches(sh: Shared, k: Task, pc: Pc)
    requires MyFiles(sh, k) && TempBy(k).Some?
    requires TempBy(k.(pc := pc)).None? && Reading(k.(pc := pc)).None?
    ensures var n := TempOf(sh.pid, k, TempBy(k).value); Touches(sh, k, OnDisk(sh, Remove(sh.disk, n), k, pc), {n})
  {
    RemoveKeeps(sh.disk, TempOf(sh.pid, k, TempBy(k).value));
  }

  lemma CleanTouches(sh: Shared, k: Task, ok: bool) returns (touched: set<Name>)
    requires MyFiles(sh, k)
    requires k.pc.Refused? || k.pc.Leaving? || k.pc.Published? || k.pc.Abort? || k.pc.Rollback?
    ensures Touches(sh, k, Advance(sh, k, ok), touched)
  {
    var pc := Advance(sh, k, ok).k.pc;
    if k.pc.Published? || k.pc.Abort? {
      TempRemovalTouches(sh, k, pc);
      touched := {TempOf(sh.pid, k, k.pc.n)};
    } else {
      var n := if k.pc.Rollback? then Data(k.op.id, k.pc.ext) else Reserve(k.op.id);
      RemovalTouches(sh, k, n, pc);
      touched := {n};
    }
  }

  lemma MakeTempTouches(sh: Shared, k: Task, ok: bool) returns (touched: set<Name>)
    requires MyFiles(sh, k) && k.pc.MakeTemp? && TempOf(sh.pid, k, sh.counter) !in sh.disk.dir
    ensures Touches(sh, k, AtMakeTemp(sh, k, ok), touched)
  {
    if ok {
      CreateKeeps(sh.disk, TempOf(sh.pid, k, sh.counter));
      assert Prefix(k.op.items, 0) == [] by { if k.op.items != [] { assert k.op.items[..0] == []; } }
      touched := {TempOf(sh.pid, k, sh.counter)};
    } else {
      SameKeeps(sh.disk);
      touched := {};
    }
  }

  lemma PrefixSnoc(items: seq<Item>, j: nat)
    requires j < |items| && items[j].Chunk?
    ensures Prefix(items, j + 1) == Prefix(items, j) + items[j].bytes
  {
    BodySnoc(items, j);
    if j + 1 == |items| { assert items[..j + 1] == items; }
  }

  lemma ChunkTouches(sh: Shared, k: Task) returns (touched: set<Name>)
    requires MyFiles(sh, k) && k.pc.Writing? && k.op.kind.Put?
    requires k.pc.round < |k.op.items| && k.op.items[k.pc.round].Chunk?
    ensures Touches(sh, k, AtWrite(sh, k, k.pc.n, k.pc.round, true), touched)
  {
    var n := TempOf(sh.pid, k, k.pc.n);
    AppendKeeps(sh.disk, n, k.op.items[k.pc.round].bytes);
    PrefixSnoc(k.op.items, k.pc.round);
    touched := {n};
  }

  lemma EndTouches(sh: Shared, k: Task, ok: bool)
    requires MyFiles(sh, k) && k.pc.Writing? && k.pc.round >= k.op.Rounds()
    ensures Touches(sh, k, AtWrite(sh, k, k.pc.n, k.pc.round, ok), {})
  {
    SameKeeps(sh.disk);
  }

  lemma WriteTouches(sh: Shared, k: Task, ok: bool) returns (touched: set<Name>)
    requires MyFiles(sh, k) && k.pc.Writing?
    ensures Touches(sh, k, AtWrite(sh, k, k.pc.n, k.pc.round, ok), touched)
  {
    touched := {};
    if k.pc.round >= k.op.Rounds() {
      EndTouches(sh, k, ok);
    } else if k.op.kind.Put? && k.op.items[k.pc.round].Chunk? && ok {
      touched := ChunkTouches(sh, k);
    } else {
      SameKeeps(sh.disk);
    }
  }

  lemma CopyPartTouches(sh: Shared, k: Task, ok: bool) returns (touched: set<Name>)
    requires MyFiles(sh, k) && k.pc.PartOpen?
    ensures Touches(sh, k, Advance(sh, k, ok), touched)
  {
    var n := TempOf(sh.pid, k, k.pc.n);
    if ok {
      AppendKeeps(sh.disk, n, sh.disk.data[k.pc.ino].bytes);
      touched := {n};
    } else {
      SameKeeps(sh.disk);
      touched := {};
    }
  }

  lemma LinkAccounts(sh: Shared, k: Task, d: Disk, from: Name, ext: string, pc: Pc)
    requires from.Temp? ==> TempBy(k).Some? && from == TempOf(sh.pid, k, TempBy(k).value)
    requires TempBy(k) == TempBy(k.(pc := pc)) && Progress(k.(pc := pc)).None? && !pc.Abort? && Reading(k.(pc := pc)).None?
    ensures Accounts(sh, k, OnDisk(sh, d, k, pc), {from, Data(k.op.id, ext)})
  {
  }

  /** The step links a file to the name of the task's id. */
  lemma LinkTouches(sh: Shared, k: Task, from: Name, ext: string, intended: Bytes, pc: Pc) returns (touched: set<Name>)
    requires MyFiles(sh, k) && from in sh.disk.dir && sh.disk.data[sh.disk.dir[from]].bytes == intended
    requires WellFormed(Data(k.op.id, ext)) && k.op.id != "cap" && forall e :: Data(k.op.id, e) !in sh.disk.dir
    requires from.Temp? ==> TempBy(k).Some? && from == TempOf(sh.pid, k, TempBy(k).value)
    requires TempBy(k) == TempBy(k.(pc := pc)) && Progress(k.(pc := pc)).None? && !pc.Abort? && Reading(k.(pc := pc)).None?
    ensures Touches(sh, k, OnDisk(sh, LinkData(sh.disk, from, k.op.id, ext, intended), k, pc), touched)
  {
    LinkKeeps(sh.disk, from, k.op.id, ext, intended);
    LinkAccounts(sh, k, LinkData(sh.disk, from, k.op.id, ext, intended), from, ext, pc);
    touched := {from, Data(k.op.id, ext)};
  }

  lemma PublishTouches(sh: Shared, k: Task, ok: bool) returns (touched: set<Name>)
    requires MyFiles(sh, k) && k.pc.Flushed?
    requires forall e :: Data(k.op.id, e) !in sh.disk.dir
    ensures Touches(sh, k, AtFlushed(sh, k, k.pc.n, ok), touched)
  {
    if ok {
      touched := LinkTouches(sh, k, TempOf(sh.pid, k, k.pc.n), k.op.ext, Intended(k), Published(k.pc.n));
    } else {
      IdleTouches(sh, k, AtFlushed(sh, k, k.pc.n, ok));
      touched := {};
    }
  }

  lemma LinkingTouches(sh: Shared, k: Task, ok: bool) returns (touched: set<Name>)
    requires MyFiles(sh, k) && k.pc.Linking?
    requires forall e :: Data(k.op.id, e) !in sh.disk.dir
    ensures Touches(sh, k, AtLinking(sh, k, k.pc.ext, ok), touched)
  {
    var from := Data(k.op.source, k.pc.ext);
    if ok && from in sh.disk.dir {
      touched := LinkTouches(sh, k, from, k.pc.ext, MadeFor(sh.disk, k.op.source), Moving(k.pc.ext));
    } else {
      IdleTouches(sh, k, AtLinking(sh, k, k.pc.ext, ok));
      touched := {};
    }
  }

  lemma StillTouches(sh: Shared, k: Task, pc: Pc)
    requires MyFiles(sh, k) && TempBy(k).None? && TempBy(k.(pc := pc)).None? && Reading(k.(pc := pc)).None?
    ensures Touches(sh, k, Goto(sh, k, pc), {})
  {
    SameKeeps(sh.disk);
  }

  lemma UnlinkTouches(sh: Shared, k: Task, ok: bool) returns (touched: set<Name>)
    requires MyFiles(sh, k) && (k.pc.Moving? || k.pc.PartSeen?)
    ensures Touches(sh, k, Advance(sh, k, ok), touched)
  {
    var a := Advance(sh, k, ok);
    var n := if k.pc.Moving? then Data(k.op.source, k.pc.ext) else Data(k.pc.part, k.pc.ext);
    if ok && n in sh.disk.dir {
      RemovalTouches(sh, k, n, a.k.pc);
      touched := {n};
    } else {
      StillTouches(sh, k, a.k.pc);
      touched := {};
    }
  }

  lemma SeenTouches(sh: Shared, k: Task, ok: bool) returns (touched: set<Name>)
    requires MyFiles(sh, k) && k.pc.Seen?
    ensures Touches(sh, k, AtSeen(sh, k, k.pc.ext, ok), touched)
  {
    var n := Data(k.op.id, k.pc.ext);
    if ok && n in sh.disk.dir && k.op.kind.Delete? {
      RemovalTouches(sh, k, n, Unlinked);
      touched := {n};
    } else {
      SameKeeps(sh.disk);
      touched := {};
    }
  }

  lemma RestTouches(sh: Shared, k: Task, ok: bool) returns (touched: set<Name>)
    requires MyFiles(sh, k)
    requires || Bookkeeping(k) || k.pc.Lookup? || k.pc.Probe? || k.pc.Moved? || k.pc.Reindex? || k.pc.Deleting? || k.pc.PartUnlinked?
             || k.pc.PartNamed?
    ensures Touches(sh, k, Advance(sh, k, ok), touched)
  {
    if Bookkeeping(k) {
      BookkeepingIdles(sh, k, ok);
    } else if k.pc.PartNamed? {
      OpeningIdles(sh, k, ok);
    } else {
      SourceIdles(sh, k, ok);
    }
    IdleTouches(sh, k, Advance(sh, k, ok));
    touched := {};
  }

  lemma StepTouches(sh: Shared, k: Task, ok: bool) returns (touched: set<Name>)
    requires MyFiles(sh, k)
    requires k.pc.MakeTemp? ==> TempOf(sh.pid, k, sh.counter) !in sh.disk.dir
    requires HeldBy(k).Clear? ==> forall e :: Data(k.op.id, e) !in sh.disk.dir
    ensures Touches(sh, k, Advance(sh, k, ok), touched)
  {
    match k.pc
    case Refused | Leaving(_) | Published(_) | Abort(_, _) | Rollback(_) => touched := CleanTouches(sh, k, ok);
    case MakeTemp => touched := MakeTempTouches(sh, k, ok);
    case Writing(_, _) => touched := WriteTouches(sh, k, ok);
    case PartOpen(_, _, _, _) => touched := CopyPartTouches(sh, k, ok);
    case Flushed(_) => touched := PublishTouches(sh, k, ok);
    case Linking(_) => touched := LinkingTouches(sh, k, ok);
    case Moving(_) | PartSeen(_, _, _) => touched := UnlinkTouches(sh, k, ok);
    case Seen(_) => touched := SeenTouches(sh, k, ok);
    case Start => if k.op.Creates() { touched := ReserveTouches(sh, k, ok); } else { touched := RestTouches(sh, k, ok); }
    case _ => touched := RestTouches(sh, k, ok);
  }
}
