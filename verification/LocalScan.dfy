/** The startup scan of the files directory, entry by entry. */
module LocalScan {
  import opened Names
  import opened StoreSpec
  import opened LocalState

  /** Any generated names; the reservation of `cap` goes by its other name. */
  ghost predicate Scannable(dir: map<Name, nat>) {
    forall n :: n in dir ==> WellFormed(n) && Canon(n) == n
  }

  /** What a scan makes of them: a temporary file of `cap` is taken for a capability file. */
  function Verdict(n: Name): Entry {
    if n.Temp? && n.id == "cap" then Capability else Expected(n)
  }

  lemma ScanVerdict(n: Name)
    requires WellFormed(n) && Canon(n) == n
    ensures Classify(Render(n)) == Verdict(n)
  {
    if n.Data? { ClassifyData(n.id, n.ext); } else { ClassifyHidden(n); }
  }

  /** Every name of the directory once, in any order. */
  ghost predicate Lists(entries: seq<Name>, dir: map<Name, nat>) {
    && (forall n :: n in dir <==> n in entries)
    && (forall i, j :: 0 <= i < j < |entries| ==> entries[i] != entries[j])
  }

  /** The reservations and temporary files that a scan removes. */
  ghost function Leftovers(names: set<Name>): set<Name> {
    set n | n in names && (n.Reserve? || n.Temp?) && n.id != "cap"
  }

  /** The temporary files that it keeps. */
  ghost function Mistaken(names: set<Name>): set<Name> {
    set n | n in names && n.Temp? && n.id == "cap"
  }

  lemma LeftoversAreDebris(dir: map<Name, nat>)
    requires Scannable(dir)
    ensures Leftovers(dir.Keys) == DebrisIn(dir.Keys)
  {
    forall n | n in dir ensures n in DebrisIn(dir.Keys) <==> (n.Reserve? || n.Temp?) && n.id != "cap" {
      ScanVerdict(n);
    }
  }

  /** The first `i` entries of a scan. */
  ghost function Seen(entries: seq<Name>, i: nat): set<Name>
    requires i <= |entries|
  {
    set n | n in entries[..i]
  }

  lemma SeenNext(entries: seq<Name>, i: nat, dir: map<Name, nat>)
    requires i < |entries| && Lists(entries, dir)
    ensures Seen(entries, i + 1) == Seen(entries, i) + {entries[i]} && Seen(entries, i) <= dir.Keys
    ensures entries[i] in dir && entries[i] !in Seen(entries, i)
  {
    assert entries[i] in entries;
    assert entries[..i + 1] == entries[..i] + [entries[i]];
    forall n | n in Seen(entries, i) ensures n in dir && n != entries[i] {
      var j :| 0 <= j < i && entries[j] == n;
      assert n in entries;
    }
  }

  lemma AllSeen(entries: seq<Name>, dir: map<Name, nat>)
    requires Lists(entries, dir)
    ensures Seen(entries, |entries|) == dir.Keys
  {
    assert entries[..|entries|] == entries;
  }

  /** The scan stops at a data file only when another one has the same id. */
  lemma DuplicateId(whole: State, seen: set<Name>, n: Name)
    requires seen <= whole.dir.Keys && n in whole.dir && n !in seen && n.Data?
    requires exists ext :: Data(n.id, ext) in seen
    ensures !UniqueIds(whole.dir.Keys)
  {
  }

  /** A scan of `whole` that has met the entries `seen`. */
  ghost predicate Scanned(whole: State, seen: set<Name>, dir: map<Name, nat>, extensions: map<string, string>, st: Store) {
    && dir == whole.dir - Leftovers(seen)
    && extensions.Keys == st.files.Keys
    && (forall id, ext :: Data(id, ext) in seen <==> id in extensions && extensions[id] == ext)
    && (forall id :: id in st.files ==>
          extensions[id] == st.files[id].ext && Holds(whole, Data(id, st.files[id].ext), st.files[id].bytes))
    && (forall id :: Cap(id) in seen <==> id in st.caps)
    && (forall id :: id in st.caps ==> Holds(whole, Cap(id), st.caps[id]))
  }

  lemma ScanCap(whole: State, seen: set<Name>, dir: map<Name, nat>, extensions: map<string, string>, st: Store, n: Name)
    requires Scanned(whole, seen, dir, extensions, st) && Backed(whole)
    requires n in whole.dir && n.Cap?
    ensures Scanned(whole, seen + {n}, dir, extensions, st.(caps := st.caps[n.id := whole.inodes[whole.dir[n]].bytes]))
  {
    assert Leftovers(seen + {n}) == Leftovers(seen);
  }

  lemma ScanMistaken(whole: State, seen: set<Name>, dir: map<Name, nat>, extensions: map<string, string>, st: Store, n: Name)
    requires Scanned(whole, seen, dir, extensions, st)
    requires n.Temp? && n.id == "cap"
    ensures Scanned(whole, seen + {n}, dir, extensions, st)
  {
    assert Leftovers(seen + {n}) == Leftovers(seen);
  }

  lemma ScanDebris(whole: State, seen: set<Name>, dir: map<Name, nat>, extensions: map<string, string>, st: Store, n: Name)
    requires Scanned(whole, seen, dir, extensions, st)
    requires (n.Reserve? || n.Temp?) && n.id != "cap"
    ensures Scanned(whole, seen + {n}, dir - {n}, extensions, st)
  {
    assert Leftovers(seen + {n}) == Leftovers(seen) + {n};
    assert dir - {n} == whole.dir - Leftovers(seen + {n});
  }

  lemma ScanFile(whole: State, seen: set<Name>, dir: map<Name, nat>, extensions: map<string, string>, st: Store, n: Name)
    requires Scanned(whole, seen, dir, extensions, st) && Backed(whole)
    requires n in whole.dir && n.Data? && n.id !in extensions
    ensures Scanned(whole, seen + {n}, dir, extensions[n.id := n.ext],
                    st.(files := st.files[n.id := Blob(n.ext, whole.inodes[whole.dir[n]].bytes)]))
  {
    assert Leftovers(seen + {n}) == Leftovers(seen);
  }

  lemma ScanIndexes(whole: State, dir: map<Name, nat>, extensions: map<string, string>, st: Store)
    requires Scanned(whole, whole.dir.Keys, dir, extensions, st)
    ensures UniqueIds(whole.dir.Keys) && extensions == IndexOf(whole.dir.Keys)
  {
    assert forall id, ext :: Data(id, ext) in whole.dir.Keys <==> id in extensions && extensions[id] == ext;
  }

  /** What a scan indexes or leaves in place: data and capability files, all of them well named. */
  ghost predicate Kept(whole: State, dir: map<Name, nat>) {
    && (forall n :: n in dir <==> n in whole.dir && (n.Data? || n.Cap?))
    && (forall n :: n in dir ==> dir[n] == whole.dir[n] && WellFormed(n))
  }

  lemma ScanKeeps(whole: State, dir: map<Name, nat>)
    requires dir == whole.dir - Leftovers(whole.dir.Keys) && Scannable(whole.dir)
    ensures Kept(whole, dir - Mistaken(whole.dir.Keys))
  {
  }

  lemma ScannedFiles(whole: State, s: State, dir: map<Name, nat>, st: Store)
    requires Scanned(whole, whole.dir.Keys, dir, s.extensions, st) && Kept(whole, s.dir) && s.inodes == whole.inodes
    ensures FilesMatch(s, st.files)
  {
    forall id | id in st.files
      ensures Holds(s, Data(id, st.files[id].ext), st.files[id].bytes) && WellFormed(Data(id, st.files[id].ext))
    {
      assert Holds(whole, Data(id, st.files[id].ext), st.files[id].bytes);
    }
    forall id, ext | Data(id, ext) in s.dir ensures id in st.files && st.files[id].ext == ext {
      assert Data(id, ext) in whole.dir.Keys;
    }
  }

  lemma ScannedCaps(whole: State, s: State, dir: map<Name, nat>, st: Store)
    requires Scanned(whole, whole.dir.Keys, dir, s.extensions, st) && Kept(whole, s.dir) && s.inodes == whole.inodes
    ensures CapsMatch(s, st.caps)
  {
    forall id | id in st.caps ensures Holds(s, Cap(id), st.caps[id]) {
      assert Holds(whole, Cap(id), st.caps[id]);
    }
    forall id | Cap(id) in s.dir ensures ValidComponent(id) && id in st.caps {
      assert WellFormed(Cap(id)) && Cap(id) in whole.dir.Keys;
    }
  }

  lemma ScanDone(whole: State, dir: map<Name, nat>, extensions: map<string, string>, st: Store)
    requires Scanned(whole, whole.dir.Keys, dir, extensions, st) && Backed(whole)
    requires Scannable(whole.dir)
    ensures Represents(State(dir - Mistaken(whole.dir.Keys), whole.inodes, extensions, map[]), st)
  {
    var s := State(dir - Mistaken(whole.dir.Keys), whole.inodes, extensions, map[]);
    ScanKeeps(whole, dir);
    assert FilesMatch(s, st.files) by { ScannedFiles(whole, s, dir, st); }
    assert CapsMatch(s, st.caps) by { ScannedCaps(whole, s, dir, st); }
  }

  // ---- The beginning, one entry, and the end of a scan ----

  lemma ScanStart(whole: State, entries: seq<Name>)
    ensures Scanned(whole, Seen(entries, 0), whole.dir, map[], Store(map[], map[]))
  {
    assert Seen(entries, 0) == {};
    assert whole.dir == whole.dir - Leftovers({});
  }

  lemma ScanNext(whole: State, entries: seq<Name>, i: nat, dir: map<Name, nat>, extensions: map<string, string>, st: Store)
    requires i < |entries| && Lists(entries, whole.dir) && Scannable(whole.dir)
    requires Scanned(whole, Seen(entries, i), dir, extensions, st)
    ensures Seen(entries, i + 1) == Seen(entries, i) + {entries[i]} && Seen(entries, i) <= whole.dir.Keys
    ensures var n := entries[i];
            n in dir && n in whole.dir && n !in Seen(entries, i) && whole.dir[n] == dir[n] && Classify(Render(n)) == Verdict(n)
  {
    SeenNext(entries, i, whole.dir);
    ScanVerdict(entries[i]);
  }

  lemma ScanComplete(whole: State, entries: seq<Name>, s: State, st: Store)
    requires Lists(entries, whole.dir) && Scannable(whole.dir) && Backed(whole)
    requires Scanned(whole, Seen(entries, |entries|), s.dir, s.extensions, st) && s.inodes == whole.inodes && s.cache == map[]
    ensures UniqueIds(whole.dir.Keys) && s.extensions == IndexOf(whole.dir.Keys)
    ensures s.dir == whole.dir - DebrisIn(whole.dir.Keys)
    ensures Represents(s.(dir := s.dir - Mistaken(whole.dir.Keys)), st)
    ensures Represents(s, st) <==> Mistaken(whole.dir.Keys) == {}
  {
    AllSeen(entries, whole.dir);
    ScanIndexes(whole, s.dir, s.extensions, st);
    LeftoversAreDebris(whole.dir);
    ScanDone(whole, s.dir, s.extensions, st);
    MistakenStay(whole, s.dir);
  }

  lemma MistakenStay(whole: State, dir: map<Name, nat>)
    requires dir == whole.dir - Leftovers(whole.dir.Keys)
    ensures Mistaken(whole.dir.Keys) == {} ==> dir - Mistaken(whole.dir.Keys) == dir
    ensures Mistaken(whole.dir.Keys) != {} ==> !NoDebris(dir)
  {
    if n :| n in Mistaken(whole.dir.Keys) { assert n in dir; }
  }
}
