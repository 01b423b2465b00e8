/** Stored bytes: renames and concats neither lose nor duplicate any. */
module Conservation {
  import opened StoreSpec

  /** The bytes of all stored files together. */
  ghost function Total(files: map<string, Blob>): nat
    decreases |files|
  {
    if files == map[] then 0
    else
      assert |files.Keys| > 0;
      var id :| id in files;
      |files[id].bytes| + Total(files - {id})
  }

  lemma {:induction false} TotalPick(files: map<string, Blob>, id: string)
    requires id in files
    ensures Total(files) == |files[id].bytes| + Total(files - {id})
    decreases |files|
  {
    var first :| first in files && Total(files) == |files[first].bytes| + Total(files - {first});
    if first != id {
      TotalPick(files - {first}, id);
      TotalPick(files - {id}, first);
      assert files - {first} - {id} == files - {id} - {first};
    }
  }

  lemma TotalAdd(files: map<string, Blob>, id: string, blob: Blob)
    requires id !in files
    ensures Total(files[id := blob]) == Total(files) + |blob.bytes|
  {
    TotalPick(files[id := blob], id);
    assert files[id := blob] - {id} == files;
  }

  predicate Distinct(parts: seq<string>) {
    forall i, j :: 0 <= i < j < |parts| ==> parts[i] != parts[j]
  }

  lemma {:induction false} JoinedElsewhere(files: map<string, Blob>, parts: seq<string>, id: string)
    requires id !in parts
    ensures Joined(files - {id}, parts) == Joined(files, parts)
  {
    if parts != [] { JoinedElsewhere(files, parts[1..], id); }
  }

  /** The parts of a concat account for exactly the bytes of the joined file. */
  lemma {:induction false} TotalParts(files: map<string, Blob>, parts: seq<string>)
    requires Distinct(parts) && forall p :: p in parts ==> p in files
    ensures Total(files) == |Joined(files, parts)| + Total(files - set p | p in parts)
    decreases |parts|
  {
    if parts == [] {
      assert files - (set p | p in parts) == files;
    } else {
      TotalPick(files, parts[0]);
      assert parts[0] !in parts[1..];
      assert forall p :: p in parts[1..] ==> p in files - {parts[0]};
      TotalParts(files - {parts[0]}, parts[1..]);
      JoinedElsewhere(files, parts[1..], parts[0]);
      assert files - {parts[0]} - (set p | p in parts[1..]) == files - (set p | p in parts);
    }
  }

  /** A concat of distinct parts, all of which it can delete, keeps the number of stored bytes. */
  lemma ConcatConserves(st: Store, minFree: nat, id: string, filename: string, parts: seq<string>, env: Env)
    requires Concat(st, minFree, id, filename, parts, env).result.Ok?
    requires Distinct(parts) && forall p :: p in parts ==> p in st.files && p !in env.stuck
    ensures Total(Concat(st, minFree, id, filename, parts, env).store.files) == Total(st.files)
  {
    var gone := set p | p in parts;
    var after := Concat(st, minFree, id, filename, parts, env).store;
    assert id !in st.files && Removed(parts, env) == gone;
    assert after.files == (st.files - gone)[id := after.files[id]];
    TotalParts(st.files, parts);
    TotalAdd(st.files - gone, id, after.files[id]);
  }

  /** A rename keeps the number of stored bytes, whether or not its capability file can be moved. */
  lemma RenameConserves(st: Store, from: string, to: string, env: Env)
    ensures Total(Rename(st, from, to, env).store.files) == Total(st.files)
  {
    if RenameError(st, from, to, env).None? {
      TotalPick(st.files, from);
      TotalAdd(st.files - {from}, to, st.files[from]);
    }
  }
}
