/** The fields of a local backend as one value, and what it takes for them to stand for a store. */
module LocalState {
  import opened Base
  import opened Names
  import opened StoreSpec

  datatype Inode = Inode(bytes: Bytes, mtime: nat)

  /** An entity tag: inode number, modification time and length. */
  datatype ETag = ETag(ino: nat, mtime: nat, size: nat)

  datatype Meta = Meta(size: nat, etag: ETag, extension: string)

  /** Directory, files, the index of extensions, and the metadata cache. */
  datatype State = State(dir: map<Name, nat>, inodes: map<nat, Inode>, extensions: map<string, string>, cache: map<string, Meta>)

  /** What an uncached stat computes. */
  function MetaOf(ino: nat, node: Inode, ext: string): Meta {
    Meta(|node.bytes|, ETag(ino, node.mtime, |node.bytes|), ext)
  }

  /** Two entity tags are the same exactly when inode, modification time and length are. */
  lemma TagTells(ino: nat, node: Inode, ext: string, ino': nat, node': Inode, ext': string)
    ensures MetaOf(ino, node, ext).etag == MetaOf(ino', node', ext').etag <==>
            ino == ino' && node.mtime == node'.mtime && |node.bytes| == |node'.bytes|
  {
  }

  ghost predicate Backed(s: State) {
    forall n :: n in s.dir ==> s.dir[n] in s.inodes
  }

  /** The name holds these bytes. */
  ghost predicate Holds(s: State, n: Name, bytes: Bytes) {
    n in s.dir && s.dir[n] in s.inodes && s.inodes[s.dir[n]].bytes == bytes
  }

  /** Index and data files are the stored files. */
  ghost predicate FilesMatch(s: State, files: map<string, Blob>) {
    && s.extensions.Keys == files.Keys
    && (forall id :: id in files ==>
          && ValidComponent(id) && ValidComponent(files[id].ext) && s.extensions[id] == files[id].ext
          && Holds(s, Data(id, files[id].ext), files[id].bytes))
    && (forall id, ext :: Data(id, ext) in s.dir ==> id in files && files[id].ext == ext)
  }

  /** The capability files are the stored hashes. */
  ghost predicate CapsMatch(s: State, caps: map<string, Bytes>) {
    && (forall id :: id in caps ==> Holds(s, Cap(id), caps[id]))
    && (forall id :: Cap(id) in s.dir ==> ValidComponent(id) && id in caps)
  }

  ghost predicate NoDebris(dir: map<Name, nat>) {
    forall n :: n in dir ==> n.Data? || n.Cap?
  }

  /** A cached entry is what an uncached stat would compute. */
  ghost predicate Fresh(s: State, id: string) {
    && id in s.cache && id in s.extensions
    && Data(id, s.extensions[id]) in s.dir && s.dir[Data(id, s.extensions[id])] in s.inodes
    && s.cache[id] == MetaOf(s.dir[Data(id, s.extensions[id])], s.inodes[s.dir[Data(id, s.extensions[id])]], s.extensions[id])
  }

  ghost predicate Coherent(s: State) {
    forall id :: id in s.cache ==> Fresh(s, id)
  }

  /** The state is consistent and stands for `st`. */
  ghost predicate Represents(s: State, st: Store) {
    Backed(s) && FilesMatch(s, st.files) && CapsMatch(s, st.caps) && NoDebris(s.dir) && Coherent(s)
  }

  /** All files are still there, with the same contents. */
  ghost predicate Keeps(s: State, inodes: map<nat, Inode>) {
    forall i :: i in s.inodes ==> i in inodes && inodes[i] == s.inodes[i]
  }

  // ---- How the operations change a consistent state ----

  lemma Untouched(s: State, s': State, st: Store)
    requires Represents(s, st) && s' == s.(inodes := s'.inodes) && Keeps(s, s'.inodes)
    ensures Represents(s', st)
  {
    forall id | id in s'.cache ensures Fresh(s', id) { assert Fresh(s, id); }
  }

  /** Writing to a file that no name of `s` is linked to. */
  lemma OtherInode(s: State, inodes: map<nat, Inode>, ino: nat, st: Store)
    requires Represents(s, st) && forall n :: n in s.dir ==> s.dir[n] != ino
    requires inodes.Keys == s.inodes.Keys && ino in inodes && inodes == s.inodes[ino := inodes[ino]]
    ensures Represents(s.(inodes := inodes), st)
  {
    var s' := s.(inodes := inodes);
    forall id | id in s'.cache ensures Fresh(s', id) { assert Fresh(s, id); }
  }

  /** `n` is linked to the same file in both states. */
  ghost predicate SameLink(s: State, s': State, n: Name) {
    (n in s.dir <==> n in s'.dir) && (n in s.dir ==> s'.dir[n] == s.dir[n])
  }

  /** Data files are linked as before. */
  ghost predicate SameData(s: State, s': State) {
    forall id, ext :: SameLink(s, s', Data(id, ext))
  }

  /** What an uncached stat of an id computes. */
  ghost function MetaOfId(s: State, id: string): Option<Meta> {
    if id in s.extensions && Data(id, s.extensions[id]) in s.dir && s.dir[Data(id, s.extensions[id])] in s.inodes
    then Some(MetaOf(s.dir[Data(id, s.extensions[id])], s.inodes[s.dir[Data(id, s.extensions[id])]], s.extensions[id]))
    else None
  }

  // ---- What an operation leaves alone ----

  /** The id has the same extension, and its name is linked to the same file. */
  ghost predicate SameEntry(s: State, s': State, id: string) {
    && (id in s.extensions <==> id in s'.extensions)
    && (id in s.extensions ==> s'.extensions[id] == s.extensions[id] && SameLink(s, s', Data(id, s.extensions[id])))
  }

  /** All files stay as they are, and so do the entries of all ids but these. */
  ghost predicate Frames(s: State, s': State, ids: set<string>) {
    Keeps(s, s'.inodes) && forall id :: id !in ids ==> SameEntry(s, s', id)
  }

  /** What an uncached stat computes of any other id, its entity tag included, is the same as before. */
  lemma OthersKeepMeta(s: State, s': State, ids: set<string>)
    requires Backed(s) && Frames(s, s', ids)
    ensures forall id :: id !in ids ==> MetaOfId(s', id) == MetaOfId(s, id)
  {
    forall id | id !in ids ensures MetaOfId(s', id) == MetaOfId(s, id) { assert SameEntry(s, s', id); }
  }

  lemma FramesThen(a: State, b: State, c: State, first: set<string>, second: set<string>)
    requires Frames(a, b, first) && Frames(b, c, second)
    ensures Frames(a, c, first + second)
  {
    forall id | id !in first + second ensures SameEntry(a, c, id) { assert SameEntry(a, b, id) && SameEntry(b, c, id); }
  }

  lemma NewNameFrames(s: State, s': State, name: Name, ino: nat)
    requires !name.Data? && Keeps(s, s'.inodes) && s'.dir == s.dir[name := ino] && s'.extensions == s.extensions
    ensures Frames(s, s', {})
  {
    forall i ensures SameEntry(s, s', i) {
      if i in s.extensions { assert SameLink(s, s', Data(i, s.extensions[i])); }
    }
  }

  /** A file that was not there at first is written to. */
  lemma WriteFrames(s: State, s': State, s'': State, ids: set<string>, ino: nat)
    requires Frames(s, s', ids) && ino !in s.inodes
    requires s''.dir == s'.dir && s''.extensions == s'.extensions
    requires ino in s''.inodes && s''.inodes == s'.inodes[ino := s''.inodes[ino]]
    ensures Frames(s, s'', ids)
  {
    forall id | id !in ids ensures SameEntry(s, s'', id) { assert SameEntry(s, s', id); }
  }

  /** The temporary file becomes the file of an id. */
  lemma PublishFrames(s: State, s': State, temp: Name, id: string, ext: string, ino: nat)
    requires !temp.Data? && s'.inodes == s.inodes && s'.dir == s.dir[Data(id, ext) := ino] - {temp}
    requires s'.extensions == s.extensions[id := ext]
    ensures Frames(s, s', {id})
  {
    forall i | i != id ensures SameEntry(s, s', i) {
      if i in s.extensions { assert SameLink(s, s', Data(i, s.extensions[i])); }
    }
  }

  lemma RemovalFrames(s: State, s': State, name: Name, ids: set<string>)
    requires !name.Data? && s'.inodes == s.inodes && s'.dir == s.dir - {name} && s'.extensions == s.extensions
    ensures Frames(s, s', ids)
  {
    forall i ensures SameEntry(s, s', i) {
      if i in s.extensions { assert SameLink(s, s', Data(i, s.extensions[i])); }
    }
  }

  lemma DeleteFrames(s: State, s': State, id: string)
    requires id in s.extensions && s'.inodes == s.inodes && s'.dir == s.dir - {Data(id, s.extensions[id])} - {Cap(id)}
    requires s'.extensions == s.extensions - {id}
    ensures Frames(s, s', {id})
  {
    forall i | i != id ensures SameEntry(s, s', i) {
      if i in s.extensions { assert SameLink(s, s', Data(i, s.extensions[i])); }
    }
  }

  lemma MoveFrames(s: State, s': State, from: string, to: string, ext: string)
    requires from in s.extensions && Data(from, ext) in s.dir && s'.inodes == s.inodes
    requires s'.dir == s.dir[Data(to, ext) := s.dir[Data(from, ext)]] - {Data(from, ext)}
    requires s'.extensions == (s.extensions - {from})[to := ext]
    ensures Frames(s, s', {from, to})
  {
    forall i | i != from && i != to ensures SameEntry(s, s', i) {
      if i in s.extensions { assert SameLink(s, s', Data(i, s.extensions[i])); }
    }
  }

  lemma CapMoveFrames(s: State, s': State, from: string, to: string, ino: nat)
    requires s'.dir == (s.dir - {Cap(from)})[Cap(to) := ino] && s'.inodes == s.inodes && s'.extensions == s.extensions
    ensures Frames(s, s', {}) && SameData(s, s')
  {
    forall id, ext ensures SameLink(s, s', Data(id, ext)) { }
    forall i ensures SameEntry(s, s', i) {
      if i in s.extensions { assert SameLink(s, s', Data(i, s.extensions[i])); }
    }
  }

  lemma SameFrames(s: State, s': State, ids: set<string>)
    requires s'.dir == s.dir && s'.inodes == s.inodes && s'.extensions == s.extensions
    ensures Frames(s, s', ids)
  {
    forall i ensures SameEntry(s, s', i) {
      if i in s.extensions { assert SameLink(s, s', Data(i, s.extensions[i])); }
    }
  }

  /** The id has got a file that was not there before, last modified at `now`. */
  ghost predicate NewFile(s: State, s': State, id: string, ext: string, now: nat) {
    && Data(id, ext) in s'.dir && s'.dir[Data(id, ext)] !in s.inodes && s'.dir[Data(id, ext)] in s'.inodes
    && s'.inodes[s'.dir[Data(id, ext)]].mtime == now
  }

  lemma NewFileStays(s: State, s': State, s'': State, id: string, ext: string, now: nat, ids: set<string>)
    requires NewFile(s, s', id, ext, now) && Frames(s', s'', ids) && id !in ids && id in s'.extensions && s'.extensions[id] == ext
    ensures NewFile(s, s'', id, ext, now) && id in s''.extensions && s''.extensions[id] == ext
  {
    assert SameEntry(s', s'', id);
  }

  /** A file that got a new name keeps its size, extension and entity tag. */
  lemma MovedMeta(s: State, s': State, from: string, to: string, ext: string)
    requires from in s.extensions && s.extensions[from] == ext && to in s'.extensions && s'.extensions[to] == ext
    requires Data(from, ext) in s.dir && s.dir[Data(from, ext)] in s.inodes && Keeps(s, s'.inodes)
    requires Data(to, ext) in s'.dir && s'.dir[Data(to, ext)] == s.dir[Data(from, ext)]
    ensures MetaOfId(s', to) == MetaOfId(s, from)
  {
  }

  lemma CapsKept(s: State, s': State, caps: map<string, Bytes>)
    requires CapsMatch(s, caps) && Keeps(s, s'.inodes) && forall id :: SameLink(s, s', Cap(id))
    ensures CapsMatch(s', caps)
  {
    forall id | id in caps ensures Holds(s', Cap(id), caps[id]) {
      assert Holds(s, Cap(id), caps[id]) && SameLink(s, s', Cap(id));
    }
    forall id | Cap(id) in s'.dir ensures ValidComponent(id) && id in caps {
      assert SameLink(s, s', Cap(id));
    }
  }

  /** Cached entries stay right for ids whose file and index entry stay. */
  lemma CacheKept(s: State, s': State)
    requires Coherent(s) && Keeps(s, s'.inodes)
    requires forall id :: id in s'.cache ==>
               id in s.cache && s'.cache[id] == s.cache[id] && id in s.extensions && id in s'.extensions
               && s'.extensions[id] == s.extensions[id] && SameLink(s, s', Data(id, s.extensions[id]))
    ensures Coherent(s')
  {
    forall id | id in s'.cache ensures Fresh(s', id) {
      assert Fresh(s, id) && SameLink(s, s', Data(id, s.extensions[id]));
    }
  }

  lemma FilesWithout(s: State, s': State, files: map<string, Blob>, id: string)
    requires FilesMatch(s, files) && id in s.extensions && Keeps(s, s'.inodes)
    requires s'.dir == s.dir - {Data(id, s.extensions[id])} && s'.extensions == s.extensions - {id}
    ensures FilesMatch(s', files - {id})
  {
  }

  lemma CacheOfOthers(s: State, s': State, id: string, ext: string)
    requires Coherent(s) && Keeps(s, s'.inodes) && s'.cache == s.cache - {id}
    requires forall i :: i != id && i in s.extensions ==> i in s'.extensions && s'.extensions[i] == s.extensions[i]
    requires forall n: Name :: n != Data(id, ext) ==> SameLink(s, s', n)
    ensures Coherent(s')
  {
    forall i | i in s'.cache ensures i in s.extensions && SameLink(s, s', Data(i, s.extensions[i])) {
      assert Fresh(s, i);
    }
    CacheKept(s, s');
  }

  lemma FilesWith(s: State, s': State, files: map<string, Blob>, id: string, ext: string, ino: nat)
    requires FilesMatch(s, files) && id !in s.extensions && ValidComponent(id) && ValidComponent(ext)
    requires Keeps(s, s'.inodes) && ino in s'.inodes
    requires s'.dir == s.dir[Data(id, ext) := ino] && s'.extensions == s.extensions[id := ext]
    ensures FilesMatch(s', files[id := Blob(ext, s'.inodes[ino].bytes)])
  {
  }

  lemma FileAdded(s: State, s': State, st: Store, id: string, ext: string, ino: nat)
    requires Represents(s, st) && id !in s.extensions && ValidComponent(id) && ValidComponent(ext)
    requires Keeps(s, s'.inodes) && ino in s'.inodes
    requires s'.dir == s.dir[Data(id, ext) := ino] && s'.extensions == s.extensions[id := ext] && s'.cache == s.cache - {id}
    ensures Represents(s', st.(files := st.files[id := Blob(ext, s'.inodes[ino].bytes)]))
  {
    assert forall n: Name :: n != Data(id, ext) ==> SameLink(s, s', n);
    assert FilesMatch(s', st.files[id := Blob(ext, s'.inodes[ino].bytes)]) by { FilesWith(s, s', st.files, id, ext, ino); }
    assert CapsMatch(s', st.caps) by { CapsKept(s, s', st.caps); }
    assert Coherent(s') by { CacheOfOthers(s, s', id, ext); }
    assert s'.dir[Data(id, ext)] == ino;
    assert Backed(s') && NoDebris(s'.dir) by { OneMoreName(s, s', Data(id, ext)); }
  }

  lemma OneMoreName(s: State, s': State, name: Name)
    requires Backed(s) && NoDebris(s.dir) && Keeps(s, s'.inodes) && (name.Data? || name.Cap?)
    requires name in s'.dir && s'.dir[name] in s'.inodes && s'.dir == s.dir[name := s'.dir[name]]
    ensures Backed(s') && NoDebris(s'.dir)
  {
  }

  lemma FewerNames(s: State, s': State)
    requires Backed(s) && NoDebris(s.dir) && Keeps(s, s'.inodes)
    requires forall n :: n in s'.dir ==> n in s.dir && s'.dir[n] == s.dir[n]
    ensures Backed(s') && NoDebris(s'.dir)
  {
  }

  lemma FileDropped(s: State, s': State, st: Store, id: string)
    requires Represents(s, st) && id in s.extensions && Keeps(s, s'.inodes)
    requires s'.dir == s.dir - {Data(id, s.extensions[id])}
    requires s'.extensions == s.extensions - {id} && s'.cache == s.cache - {id}
    ensures Represents(s', st.(files := st.files - {id}))
  {
    assert forall n: Name :: n != Data(id, s.extensions[id]) ==> SameLink(s, s', n);
    assert FilesMatch(s', st.files - {id}) by { FilesWithout(s, s', st.files, id); }
    assert CapsMatch(s', st.caps) by { CapsKept(s, s', st.caps); }
    assert Coherent(s') by { CacheOfOthers(s, s', id, s.extensions[id]); }
    assert Backed(s') && NoDebris(s'.dir) by { FewerNames(s, s'); }
  }

  lemma FileRemoved(s: State, s': State, st: Store, id: string)
    requires Represents(s, st) && id in s.extensions && s'.inodes == s.inodes
    requires s'.dir == s.dir - {Data(id, s.extensions[id])} - {Cap(id)}
    requires s'.extensions == s.extensions - {id} && s'.cache == s.cache - {id}
    ensures Represents(s', Store(st.files - {id}, st.caps - {id}))
  {
    var mid := s'.(dir := s.dir - {Data(id, s.extensions[id])});
    FileDropped(s, mid, st, id);
    CapDropped(mid, s', st.(files := st.files - {id}), id);
  }

  lemma FileMoved(s: State, s': State, st: Store, from: string, to: string)
    requires Represents(s, st) && from in s.extensions && to !in s.extensions && ValidComponent(to)
    requires Keeps(s, s'.inodes)
    requires var ext := s.extensions[from];
             && Data(from, ext) in s.dir
             && s'.dir == (s.dir - {Data(from, ext)})[Data(to, ext) := s.dir[Data(from, ext)]]
             && s'.extensions == (s.extensions - {from})[to := ext]
    requires s'.cache == s.cache - {from} - {to}
    ensures from in st.files
    ensures Represents(s', st.(files := (st.files - {from})[to := st.files[from]]))
  {
    var ext := s.extensions[from];
    var mid := State(s.dir - {Data(from, ext)}, s.inodes, s.extensions - {from}, s.cache - {from});
    FileDropped(s, mid, st, from);
    FileAdded(mid, s', st.(files := st.files - {from}), to, ext, s.dir[Data(from, ext)]);
  }

  lemma FilesKept(s: State, s': State, files: map<string, Blob>)
    requires FilesMatch(s, files) && Keeps(s, s'.inodes) && s'.extensions == s.extensions && SameData(s, s')
    ensures FilesMatch(s', files)
  {
    forall id | id in files ensures Holds(s', Data(id, files[id].ext), files[id].bytes) {
      assert Holds(s, Data(id, files[id].ext), files[id].bytes) && SameLink(s, s', Data(id, files[id].ext));
    }
    forall id, ext | Data(id, ext) in s'.dir ensures id in files && files[id].ext == ext {
      assert SameLink(s, s', Data(id, ext));
    }
  }

  /** Nothing changes but capability files. */
  lemma OnlyCaps(s: State, s': State, st: Store, caps: map<string, Bytes>)
    requires Represents(s, st) && Keeps(s, s'.inodes) && s'.extensions == s.extensions && s'.cache == s.cache && SameData(s, s')
    requires CapsMatch(s', caps) && Backed(s') && NoDebris(s'.dir)
    ensures Represents(s', st.(caps := caps))
  {
    assert FilesMatch(s', st.files) by { FilesKept(s, s', st.files); }
    assert Coherent(s') by {
      forall i | i in s'.cache ensures i in s.extensions && SameLink(s, s', Data(i, s.extensions[i])) { assert Fresh(s, i); }
      CacheKept(s, s');
    }
  }

  lemma CapsWith(s: State, s': State, caps: map<string, Bytes>, id: string, ino: nat)
    requires CapsMatch(s, caps) && ValidComponent(id) && Keeps(s, s'.inodes) && ino in s'.inodes && s'.dir == s.dir[Cap(id) := ino]
    ensures CapsMatch(s', caps[id := s'.inodes[ino].bytes]) && SameData(s, s')
  {
  }

  lemma CapSet(s: State, s': State, st: Store, id: string, ino: nat)
    requires Represents(s, st) && ValidComponent(id) && Keeps(s, s'.inodes) && ino in s'.inodes
    requires s'.dir == s.dir[Cap(id) := ino] && s'.extensions == s.extensions && s'.cache == s.cache
    ensures Represents(s', st.(caps := st.caps[id := s'.inodes[ino].bytes]))
  {
    CapsWith(s, s', st.caps, id, ino);
    OneMoreName(s, s', Cap(id));
    OnlyCaps(s, s', st, st.caps[id := s'.inodes[ino].bytes]);
  }

  lemma CapsWithout(s: State, s': State, caps: map<string, Bytes>, id: string)
    requires CapsMatch(s, caps) && Keeps(s, s'.inodes) && s'.dir == s.dir - {Cap(id)}
    ensures CapsMatch(s', caps - {id}) && SameData(s, s')
  {
  }

  lemma CapDropped(s: State, s': State, st: Store, id: string)
    requires Represents(s, st) && Keeps(s, s'.inodes)
    requires s'.dir == s.dir - {Cap(id)} && s'.extensions == s.extensions && s'.cache == s.cache
    ensures Represents(s', st.(caps := st.caps - {id}))
  {
    CapsWithout(s, s', st.caps, id);
    FewerNames(s, s');
    OnlyCaps(s, s', st, st.caps - {id});
  }

  lemma CapMoved(s: State, s': State, st: Store, from: string, to: string, ino: nat)
    requires Represents(s, st) && ValidComponent(to) && ino in s.inodes
    requires s' == s.(dir := (s.dir - {Cap(from)})[Cap(to) := ino])
    ensures Represents(s', st.(caps := (st.caps - {from})[to := s.inodes[ino].bytes]))
  {
    var mid := s.(dir := s.dir - {Cap(from)});
    CapDropped(s, mid, st, from);
    CapSet(mid, s', st.(caps := st.caps - {from}), to, ino);
  }

  lemma CacheFilled(s: State, s': State, st: Store, id: string)
    requires Represents(s, st) && id in s.extensions
    requires Data(id, s.extensions[id]) in s.dir && s.dir[Data(id, s.extensions[id])] in s.inodes
    requires s' == s.(cache := s.cache[id :=
               MetaOf(s.dir[Data(id, s.extensions[id])], s.inodes[s.dir[Data(id, s.extensions[id])]], s.extensions[id])])
    ensures Represents(s', st)
  {
    forall i | i in s'.cache ensures Fresh(s', i) { if i != id { assert Fresh(s, i); } }
  }

  /** A reservation can be made unless a capability file of `reserve` is in its way. */
  lemma ReservationFree(s: State, st: Store, id: string)
    requires Represents(s, st)
    ensures Canon(Reserve(id)) in s.dir <==> Blocked(st, id)
  {
    assert Reserve(id) !in s.dir;
  }

  // ---- While an operation holds a name ----

  /** The state without one name that is in use while an operation runs. */
  function WithoutName(s: State, held: Name): State {
    s.(dir := s.dir - {held})
  }

  /** An operation that holds a name has made its temporary file. */
  lemma TempMade(s: State, s': State, st: Store, held: Name, temp: Name, ino: nat)
    requires Represents(WithoutName(s, held), st) && !held.Data? && held != temp && temp.Temp? && temp !in s.dir
    requires held in s.dir ==> s.dir[held] in s.inodes
    requires ino !in s.inodes && s'.dir == s.dir[temp := ino] && s'.inodes.Keys == s.inodes.Keys + {ino} && Keeps(s, s'.inodes)
    requires s'.extensions == s.extensions && s'.cache == s.cache
    ensures Represents(WithoutName(WithoutName(s', held), temp), st)
    ensures forall n :: n in s'.dir && n != temp ==> s'.dir[n] != ino
    ensures Frames(s, s', {})
  {
    assert WithoutName(WithoutName(s', held), temp).dir == WithoutName(s, held).dir;
    Untouched(WithoutName(s, held), WithoutName(WithoutName(s', held), temp), st);
    forall n | n in s'.dir && n != temp ensures s'.dir[n] != ino {
      if n != held { assert n in WithoutName(s, held).dir; }
    }
    NewNameFrames(s, s', temp, ino);
  }

  /** What a rename finds in a consistent state. */
  lemma MoveBegins(s: State, st: Store, from: string, to: string)
    requires Represents(s, st) && to !in s.extensions
    ensures from in s.extensions <==> from in st.files
    ensures from in s.extensions ==>
              st.files[from].ext == s.extensions[from] && Data(from, s.extensions[from]) in s.dir
    ensures forall ext :: Data(to, ext) !in s.dir
  {
    if from in st.files { assert Holds(s, Data(from, st.files[from].ext), st.files[from].bytes); }
  }

  /** An operation that holds a name has linked a file to a second name, and takes away the first. */
  lemma MoveEnds(s: State, s': State, dir: map<Name, nat>, st: Store, held: Name, from: string, to: string)
    requires Represents(s, st) && !held.Data? && to !in s.extensions && ValidComponent(to) && from in s.extensions
    requires var ext := s.extensions[from];
             && Data(from, ext) in s.dir && dir - {held} == s.dir[Data(to, ext) := s.dir[Data(from, ext)]]
             && s'.dir == dir - {Data(from, ext)} && s'.extensions == (s.extensions - {from})[to := ext]
    requires s'.inodes == s.inodes && s'.cache == s.cache - {from} - {to}
    ensures from in st.files && Represents(WithoutName(s', held), WithMovedFile(st, from, to))
  {
    var ext := s.extensions[from];
    assert WithoutName(s', held).dir == dir - {held} - {Data(from, ext)};
    assert WithoutName(s', held).dir == (s.dir - {Data(from, ext)})[Data(to, ext) := s.dir[Data(from, ext)]];
    FileMoved(s, WithoutName(s', held), st, from, to);
  }
}
