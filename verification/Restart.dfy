/** The restart step of the protocol is `init_cache` of the backend. */
module Restart {
  import opened Names
  import opened StoreSpec
  import opened LocalState
  import opened LocalScan
  import opened LocalBackend
  import opened Protocol
  import opened ProtocolInvariant
  import opened Recovery

  /** Whatever the protocol leaves in the directory, a scan recognises. */
  lemma SoundIsScannable(d: Disk)
    requires Inodes(d)
    ensures Scannable(d.dir) && Mistaken(d.dir.Keys) == {}
  {
    forall n | n in d.dir ensures n !in Mistaken(d.dir.Keys) { assert n.id != "cap"; }
  }

  /** A process that has just started over the directory and files of `d`. */
  ghost predicate Fresh(backend: Backend, d: Disk)
    reads backend
  {
    && backend.dir == d.dir && backend.extensions == map[] && backend.metaCache == map[]
    && forall i :: i in d.data ==> i in backend.inodes && backend.inodes[i].bytes == d.data[i].bytes
  }

  lemma RestoredBytes(d: Disk, s: State, files: map<string, Blob>)
    requires Sound(d) && FilesMatch(s, files) && s.dir.Keys <= d.dir.Keys
    requires forall n :: n in s.dir ==> s.dir[n] == d.dir[n]
    requires forall i :: i in d.data ==> i in s.inodes && s.inodes[i].bytes == d.data[i].bytes
    ensures forall id :: id in files ==> id in d.made && files[id].bytes == d.made[id]
  {
    forall id | id in files ensures id in d.made && files[id].bytes == d.made[id] {
      assert LocalState.Holds(s, Data(id, files[id].ext), files[id].bytes);
      assert Data(id, files[id].ext) in d.dir.Keys;
    }
  }

  /**
   After a crash in any state of the protocol, and for every order of the directory entries, `init_cache` succeeds and
   ends with the directory and index of the protocol's restart step; every stored file holds what its creator meant.
   */
  method RestartBackend(backend: Backend, ghost s: Sys, ghost pid: nat, entries: seq<Name>) returns (ok: bool)
    requires Inv(s) && Fresh(backend, s.sh.disk) && Lists(entries, s.sh.disk.dir)
    modifies backend
    ensures ok && backend.Valid() && Enabled(s, Restart(pid))
    ensures var sh := Apply(s, Restart(pid)).sh; backend.dir == sh.disk.dir && backend.extensions == sh.index
    ensures forall id :: id in backend.store.files ==>
              id in s.sh.disk.made && backend.store.files[id].bytes == s.sh.disk.made[id]
  {
    InvRecoverable(s);
    SoundIsScannable(s.sh.disk);
    ok := backend.InitCache(entries);
    RestoredBytes(s.sh.disk, backend.Fields(), backend.store.files);
  }
}
