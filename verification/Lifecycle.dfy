/**
 The life of a file id, seen through the names in the directory, the index, and the part each task plays.

 A task may hold the reservation of one id, may remember an extension it read from the index with the intent
 to unlink that file, and may have unlinked a file whose index entry it still has to remove.
 */
module Lifecycle {
  import opened Base
  import opened Names

  type Tid = nat

  datatype Held =
    | Free                                   // holds no reservation
    | Unchecked(id: string)                  // reserved, index not consulted yet
    | Clear(id: string)                      // reserved, and the index did not have the id
    | Linked(id: string, ext: string)        // the data file is linked, the index entry is not made yet
    | Settled(id: string)                    // reserved, nothing left to publish

  datatype Role = Role(held: Held, seen: Option<(string, string)>, removing: Option<string>)

  const BYSTANDER := Role(Free, None, None)

  ghost predicate Holds(roles: map<Tid, Role>, t: Tid, id: string) {
    t in roles && !roles[t].held.Free? && roles[t].held.id == id
  }

  ghost predicate Publishes(roles: map<Tid, Role>, t: Tid, id: string, ext: string) {
    t in roles && roles[t].held == Linked(id, ext)
  }

  ghost predicate Removes(roles: map<Tid, Role>, t: Tid, id: string) {
    t in roles && roles[t].removing == Some(id)
  }

  ghost predicate Reservations(names: set<Name>, roles: map<Tid, Role>) {
    && (forall t, id :: Holds(roles, t, id) ==> Reserve(id) in names)
    && (forall t, u, id :: Holds(roles, t, id) && Holds(roles, u, id) ==> t == u)
    && (forall id :: Reserve(id) in names ==> exists t :: Holds(roles, t, id))
  }

  ghost predicate Creation(names: set<Name>, index: map<string, string>, roles: map<Tid, Role>) {
    && (forall t :: t in roles && roles[t].held.Clear? ==>
          roles[t].held.id !in index && forall e :: Data(roles[t].held.id, e) !in names)
    && (forall t, id, e :: Publishes(roles, t, id, e) ==>
          id !in index && Data(id, e) in names && forall e' :: Data(id, e') in names ==> e' == e)
    && (forall id, e :: Data(id, e) in names ==>
          (id in index && index[id] == e) || exists t :: Publishes(roles, t, id, e))
  }

  ghost predicate Removal(names: set<Name>, index: map<string, string>, roles: map<Tid, Role>) {
    && (forall t, id :: Removes(roles, t, id) ==> id in index && forall e :: Data(id, e) !in names)
    && (forall t, u, id :: Removes(roles, t, id) && Removes(roles, u, id) ==> t == u)
    && (forall id :: id in index ==> Data(id, index[id]) in names || exists t :: Removes(roles, t, id))
  }

  ghost predicate Sightings(names: set<Name>, index: map<string, string>, roles: map<Tid, Role>) {
    && (forall t, id, e :: t in roles && roles[t].seen == Some((id, e)) && Data(id, e) in names ==>
          id in index && index[id] == e)
    && (forall t, id, e :: t in roles && roles[t].seen == Some((id, e)) ==>
          roles[t].removing.None? &&
          ((roles[t].held.Clear? || roles[t].held.Linked?) ==> roles[t].held.id != id))
  }

  ghost predicate Life(names: set<Name>, index: map<string, string>, roles: map<Tid, Role>) {
    && Reservations(names, roles)
    && Creation(names, index, roles)
    && Removal(names, index, roles)
    && Sightings(names, index, roles)
  }

  // ---- One lemma per kind of step ----

  /** A role may give up what it has seen, or say nothing new. */
  lemma Idle(names: set<Name>, index: map<string, string>, roles: map<Tid, Role>, t: Tid)
    requires Life(names, index, roles) && t in roles
    ensures Life(names, index, roles[t := roles[t].(seen := None)])
  {
    var roles' := roles[t := roles[t].(seen := None)];
    assert forall u, id :: Holds(roles, u, id) <==> Holds(roles', u, id);
    assert forall u, id, e :: Publishes(roles, u, id, e) <==> Publishes(roles', u, id, e);
    assert forall u, id :: Removes(roles, u, id) <==> Removes(roles', u, id);
  }

  /** Temporary files play no part in the life of an id. */
  lemma TempsDoNotMatter(names: set<Name>, names': set<Name>, index: map<string, string>, roles: map<Tid, Role>)
    requires Life(names, index, roles)
    requires forall n: Name :: n.Data? || n.Reserve? ==> (n in names <==> n in names')
    ensures Life(names', index, roles)
  {
  }

  lemma NewTask(names: set<Name>, index: map<string, string>, roles: map<Tid, Role>, t: Tid)
    requires Life(names, index, roles) && t !in roles
    ensures Life(names, index, roles[t := BYSTANDER])
  {
    var roles' := roles[t := BYSTANDER];
    assert forall u, id :: Holds(roles, u, id) <==> Holds(roles', u, id);
    assert forall u, id, e :: Publishes(roles, u, id, e) <==> Publishes(roles', u, id, e);
    assert forall u, id :: Removes(roles, u, id) <==> Removes(roles', u, id);
  }

  lemma Acquire(names: set<Name>, index: map<string, string>, roles: map<Tid, Role>, t: Tid, id: string)
    requires Life(names, index, roles) && t in roles && roles[t] == BYSTANDER
    requires Reserve(id) !in names
    ensures Life(names + {Reserve(id)}, index, roles[t := Role(Unchecked(id), None, None)])
  {
    var roles' := roles[t := Role(Unchecked(id), None, None)];
    assert forall u, i :: Holds(roles', u, i) <==> (u == t && i == id) || Holds(roles, u, i);
    assert Holds(roles', t, id);
    assert forall i :: Reserve(i) in names + {Reserve(id)} ==> i == id || Reserve(i) in names;
    assert forall u, i, e :: Publishes(roles, u, i, e) <==> Publishes(roles', u, i, e);
    assert forall u, i :: Removes(roles, u, i) <==> Removes(roles', u, i);
  }

  /** The index does not have the reserved id: then no data file of any extension exists for it. */
  lemma Pass(names: set<Name>, index: map<string, string>, roles: map<Tid, Role>, t: Tid, id: string)
    requires Life(names, index, roles) && t in roles
    requires roles[t] == Role(Unchecked(id), None, None)
    requires id !in index
    ensures Life(names, index, roles[t := Role(Clear(id), None, None)])
  {
    var roles' := roles[t := Role(Clear(id), None, None)];
    assert Holds(roles, t, id);
    forall e ensures Data(id, e) !in names {
      if Data(id, e) in names {
        var u :| Publishes(roles, u, id, e);
        assert Holds(roles, u, id);
      }
    }
    assert forall u, i :: Holds(roles, u, i) <==> Holds(roles', u, i);
    assert forall u, i, e :: Publishes(roles, u, i, e) <==> Publishes(roles', u, i, e);
    assert forall u, i :: Removes(roles, u, i) <==> Removes(roles', u, i);
  }

  /** No task remembers this very file from an earlier life of the id. */
  ghost predicate NoStaleSight(roles: map<Tid, Role>, id: string, ext: string) {
    forall u :: u in roles ==> roles[u].seen != Some((id, ext))
  }

  lemma Link(names: set<Name>, index: map<string, string>, roles: map<Tid, Role>, t: Tid, ext: string)
    requires Life(names, index, roles) && t in roles
    requires roles[t].held.Clear? && roles[t].removing.None?
    requires NoStaleSight(roles, roles[t].held.id, ext)
    ensures var id := roles[t].held.id;
            Life(names + {Data(id, ext)}, index, roles[t := roles[t].(held := Linked(id, ext))])
  {
    var id := roles[t].held.id;
    var roles' := roles[t := roles[t].(held := Linked(id, ext))];
    assert Holds(roles, t, id);
    assert forall u, i :: Holds(roles, u, i) <==> Holds(roles', u, i);
    assert forall u, i, e :: Publishes(roles', u, i, e) <==> (u == t && i == id && e == ext) || Publishes(roles, u, i, e);
    assert forall u, i :: Removes(roles, u, i) <==> Removes(roles', u, i);
    assert Publishes(roles', t, id, ext);
    forall u, i, e | Publishes(roles', u, i, e)
      ensures i !in index && Data(i, e) in names + {Data(id, ext)}
      ensures forall e' :: Data(i, e') in names + {Data(id, ext)} ==> e' == e
    {
      if u != t { assert Publishes(roles, u, i, e) && Holds(roles, u, i); }
    }
    forall u | u in roles' && roles'[u].held.Clear? ensures roles'[u].held.id != id {
      assert Holds(roles, u, roles'[u].held.id);
    }
    forall i, e | Data(i, e) in names + {Data(id, ext)}
      ensures (i in index && index[i] == e) || exists u :: Publishes(roles', u, i, e)
    {
      if i != id || e != ext { assert Data(i, e) in names; }
    }
  }

  lemma Index(names: set<Name>, index: map<string, string>, roles: map<Tid, Role>, t: Tid)
    requires Life(names, index, roles) && t in roles && roles[t].held.Linked? && roles[t].removing.None?
    requires roles[t].seen.None?
    ensures var Linked(id, ext) := roles[t].held;
            Life(names, index[id := ext], roles[t := roles[t].(held := Settled(id))])
  {
    var Linked(id, ext) := roles[t].held;
    var roles', index' := roles[t := roles[t].(held := Settled(id))], index[id := ext];
    assert Publishes(roles, t, id, ext) && Holds(roles, t, id);
    assert forall u, i :: Holds(roles, u, i) <==> Holds(roles', u, i);
    assert forall u, i :: Removes(roles, u, i) <==> Removes(roles', u, i);
    forall u, i, e
      ensures Publishes(roles', u, i, e) <==> u != t && Publishes(roles, u, i, e)
      ensures Publishes(roles', u, i, e) ==> i != id
    {
      if Publishes(roles', u, i, e) { assert Holds(roles, u, i); }
    }
    forall u | u in roles' && roles'[u].held.Clear? ensures roles'[u].held.id !in index' {
      assert Holds(roles, u, roles'[u].held.id);
    }
  }

  lemma Release(names: set<Name>, index: map<string, string>, roles: map<Tid, Role>, t: Tid)
    requires Life(names, index, roles) && t in roles && roles[t].held.Settled?
    ensures Life(names - {Reserve(roles[t].held.id)}, index, roles[t := roles[t].(held := Free)])
  {
    var id := roles[t].held.id;
    var roles' := roles[t := roles[t].(held := Free)];
    assert Holds(roles, t, id);
    assert forall u, i :: Holds(roles', u, i) <==> u != t && Holds(roles, u, i);
    assert forall u, i, e :: Publishes(roles, u, i, e) <==> Publishes(roles', u, i, e);
    assert forall u, i :: Removes(roles, u, i) <==> Removes(roles', u, i);
  }

  /** Give up an id whose file was not linked. */
  lemma GiveUp(names: set<Name>, index: map<string, string>, roles: map<Tid, Role>, t: Tid)
    requires Life(names, index, roles) && t in roles
    requires roles[t].held.Clear? || roles[t].held.Unchecked?
    ensures Life(names, index, roles[t := roles[t].(held := Settled(roles[t].held.id), seen := None)])
  {
    var roles' := roles[t := roles[t].(held := Settled(roles[t].held.id), seen := None)];
    assert forall u, i :: Holds(roles, u, i) <==> Holds(roles', u, i);
    assert forall u, i, e :: Publishes(roles, u, i, e) <==> Publishes(roles', u, i, e);
    assert forall u, i :: Removes(roles, u, i) <==> Removes(roles', u, i);
  }

  lemma Sight(names: set<Name>, index: map<string, string>, roles: map<Tid, Role>, t: Tid, id: string)
    requires Life(names, index, roles) && t in roles && roles[t].removing.None?
    requires id in index
    ensures Life(names, index, roles[t := roles[t].(seen := Some((id, index[id])))])
  {
    var roles' := roles[t := roles[t].(seen := Some((id, index[id])))];
    assert forall u, i :: Holds(roles, u, i) <==> Holds(roles', u, i);
    assert forall u, i, e :: Publishes(roles, u, i, e) <==> Publishes(roles', u, i, e);
    assert forall u, i :: Removes(roles, u, i) <==> Removes(roles', u, i);
    if roles[t].held.Linked? { assert Publishes(roles, t, roles[t].held.id, roles[t].held.ext); }
  }

  /** The first task to unlink a file becomes its only remover. */
  lemma Unlink(names: set<Name>, index: map<string, string>, roles: map<Tid, Role>, t: Tid)
    requires Life(names, index, roles) && t in roles && roles[t].seen.Some?
    requires Data(roles[t].seen.value.0, roles[t].seen.value.1) in names
    ensures var (id, ext) := roles[t].seen.value;
            Life(names - {Data(id, ext)}, index, roles[t := roles[t].(seen := None, removing := Some(id))])
  {
    var (id, ext) := roles[t].seen.value;
    var names' := names - {Data(id, ext)};
    var roles' := roles[t := roles[t].(seen := None, removing := Some(id))];
    assert id in index && index[id] == ext;
    assert forall u, i :: Holds(roles, u, i) <==> Holds(roles', u, i);
    assert forall u, i, e :: Publishes(roles, u, i, e) <==> Publishes(roles', u, i, e);
    assert forall u, i :: Removes(roles', u, i) <==> (u == t && i == id) || Removes(roles, u, i);
    assert Removes(roles', t, id);
    forall u, i, e | Publishes(roles', u, i, e) ensures Data(i, e) in names' {
      assert Publishes(roles, u, i, e);
    }
    forall e ensures Data(id, e) !in names' {
      if e != ext && Data(id, e) in names {
        assert false;
      }
    }
  }

  lemma Unindex(names: set<Name>, index: map<string, string>, roles: map<Tid, Role>, t: Tid)
    requires Life(names, index, roles) && t in roles && roles[t].removing.Some?
    ensures Life(names, index - {roles[t].removing.value}, roles[t := roles[t].(removing := None)])
  {
    var id := roles[t].removing.value;
    var roles' := roles[t := roles[t].(removing := None)];
    assert Removes(roles, t, id);
    assert forall u, i :: Holds(roles, u, i) <==> Holds(roles', u, i);
    assert forall u, i, e :: Publishes(roles, u, i, e) <==> Publishes(roles', u, i, e);
    assert forall u, i :: Removes(roles', u, i) <==> u != t && Removes(roles, u, i);
  }

  /** Undo a link that was never indexed. */
  lemma Retract(names: set<Name>, index: map<string, string>, roles: map<Tid, Role>, t: Tid)
    requires Life(names, index, roles) && t in roles && roles[t].held.Linked? && roles[t].removing.None?
    ensures var Linked(id, ext) := roles[t].held;
            Life(names - {Data(id, ext)}, index, roles[t := roles[t].(held := Settled(id), seen := None)])
  {
    var Linked(id, ext) := roles[t].held;
    var roles' := roles[t := roles[t].(held := Settled(id), seen := None)];
    var names' := names - {Data(id, ext)};
    assert Publishes(roles, t, id, ext) && Holds(roles, t, id);
    assert forall u, i :: Holds(roles, u, i) <==> Holds(roles', u, i);
    assert forall u, i :: Removes(roles, u, i) <==> Removes(roles', u, i);
    forall u, i, e
      ensures Publishes(roles', u, i, e) <==> u != t && Publishes(roles, u, i, e)
      ensures Publishes(roles', u, i, e) ==> i != id
    {
      if Publishes(roles', u, i, e) { assert Holds(roles, u, i); }
    }
  }
}
