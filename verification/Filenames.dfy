/** Extensions: what storage takes from a client's file name, and from the type detected in the content. */
module Filenames {
  import opened Base
  import opened Names

  // ---- The parts of a path, on a Unix system ----

  function RFindSlash(s: string): (i: Option<nat>)
    ensures i.Some? ==> i.value < |s| && s[i.value] == '/' && forall j :: i.value < j < |s| ==> s[j] != '/'
    ensures i.None? ==> '/' !in s
  {
    if s == "" then None
    else if s[|s| - 1] == '/' then Some(|s| - 1)
    else RFindSlash(s[..|s| - 1])
  }

  /** Trailing separators, and trailing components that are a single dot, do not count. */
  function DropTrailing(s: string): string {
    if EndsWith(s, "/") then DropTrailing(s[..|s| - 1])
    else if EndsWith(s, "/.") then DropTrailing(s[..|s| - 1])
    else s
  }

  /** `Path::file_name`. */
  function FileName(path: string): (name: Option<string>)
    ensures name.Some? ==> name.value != "" && name.value != "." && name.value != ".." && '/' !in name.value
  {
    var p := DropTrailing(path);
    var last := match RFindSlash(p) case None => p case Some(i) => p[i + 1..];
    if last == "" || last == "." || last == ".." then None else Some(last)
  }

  /** The position of the dot before the extension of a file name; a leading dot does not count. */
  function ExtensionDot(name: string): Option<nat> {
    match RFind(name)
    case None => None
    case Some(i) => if i == 0 then None else Some(i)
  }

  /** `extract_extension`: the text after the last dot of the file name, or `bin`. */
  function ExtractExtension(filename: string): string {
    match FileName(filename)
    case None => "bin"
    case Some(name) =>
      match ExtensionDot(name)
      case None => "bin"
      case Some(i) => if i < |name| then name[i + 1..] else "bin"
  }

  /** `Path::file_stem`. */
  function FileStem(filename: string): Option<string> {
    match FileName(filename)
    case None => None
    case Some(name) =>
      match ExtensionDot(name)
      case None => Some(name)
      case Some(i) => if i <= |name| then Some(name[..i]) else None
  }

  function LowerChar(c: char): char {
    if 'A' <= c <= 'Z' then (c as int + 32) as char else c
  }

  function Lower(s: string): (l: string)
    ensures |l| == |s| && forall i :: 0 <= i < |s| ==> l[i] == LowerChar(s[i])
  {
    if s == "" then "" else [LowerChar(s[0])] + Lower(s[1..])
  }

  function SafeExtension(filename: string): string {
    var ext := ExtractExtension(filename);
    if ValidComponent(ext) then Lower(ext) else "bin"
  }

  /** The file name that storage gets: the client's stem with the detected extension, or the client's name. */
  function ContentFilename(filename: string, detected: Option<string>): string {
    match detected
    case None => filename
    case Some(ext) =>
      var stem := match FileStem(filename) case None => "file" case Some(s) => if s == "" then "file" else s;
      stem + "." + ext
  }

  // ---- What storage can rely on ----

  ghost predicate LowerCase(s: string) {
    forall i :: 0 <= i < |s| ==> !('A' <= s[i] <= 'Z')
  }

  /** Every client file name, however odd, gives an extension that is a valid, lower-case name component. */
  lemma SafeExtensionIsSafe(filename: string)
    ensures ValidComponent(SafeExtension(filename)) && LowerCase(SafeExtension(filename))
  {
    assert ValidComponent("bin") && LowerCase("bin");
  }

  lemma {:induction false} NoSlash(s: string)
    requires '/' !in s
    ensures RFindSlash(s) == None
  {
    if s != "" {
      assert s[|s| - 1] in s;
      forall c | c in s[..|s| - 1] ensures c in s { }
      NoSlash(s[..|s| - 1]);
    }
  }

  lemma OtherEnd(s: string, p: string)
    requires s != "" && p != "" && s[|s| - 1] != p[|p| - 1]
    ensures !EndsWith(s, p)
  {
    if |p| <= |s| { assert s[|s| - |p|..][|p| - 1] == s[|s| - 1]; }
  }

  /** A name `stem.ext` without separators has the extension `ext`. */
  lemma ExtensionOf(stem: string, ext: string)
    requires stem != "" && '/' !in stem && ValidComponent(ext)
    ensures ExtractExtension(stem + "." + ext) == ext
  {
    var s := stem + "." + ext;
    ValidIsDotFree(ext);
    forall i | 0 <= i < |s| ensures s[i] != '/' {
      if i < |stem| { assert stem[i] in stem; } else if i > |stem| { assert s[i] == ext[i - |stem| - 1] && ValidChar(s[i]); }
    }
    assert s[|s| - 1] == ext[|ext| - 1] && ValidChar(ext[|ext| - 1]);
    OtherEnd(s, "/");
    OtherEnd(s, "/.");
    NoSlash(s);
    RFindLast(s, |stem|);
    assert s[|stem| + 1..] == ext;
    assert |s| >= 3;
  }

  lemma StemIsPlain(filename: string)
    ensures FileStem(filename).Some? ==> '/' !in FileStem(filename).value
  {
    var name := FileName(filename);
    if name.Some? && ExtensionDot(name.value).Some? {
      var i := ExtensionDot(name.value).value;
      if i <= |name.value| {
        forall c | c in name.value[..i] ensures c in name.value { }
      }
    }
  }

  /** The stored extension is the detected one, lower-cased, whatever the client calls the file. */
  lemma DetectedExtensionWins(filename: string, ext: string)
    requires ValidComponent(ext)
    ensures SafeExtension(ContentFilename(filename, Some(ext))) == Lower(ext)
  {
    StemIsPlain(filename);
    var stem := match FileStem(filename) case None => "file" case Some(s) => if s == "" then "file" else s;
    ExtensionOf(stem, ext);
  }

  /** A stored name splits back, at its last dot, into the id and the extension that storage made it from. */
  lemma StoredNameSplits(id: string, filename: string)
    requires ValidComponent(id)
    ensures Classify(Render(Data(id, SafeExtension(filename)))) == File(id, SafeExtension(filename))
  {
    SafeExtensionIsSafe(filename);
    ClassifyData(id, SafeExtension(filename));
  }

  // ---- The stored extension, said without the functions above ----

  /** `l` is `s` with every letter from A to Z replaced by the one in the same place from a to z. */
  ghost predicate Lowers(l: string, s: string) {
    && |l| == |s|
    && forall i :: 0 <= i < |s| ==>
         if 'A' <= s[i] <= 'Z' then 'a' <= l[i] <= 'z' && l[i] as int - 'a' as int == s[i] as int - 'A' as int else l[i] == s[i]
  }

  /** The last component of a path, if it can be a file name. */
  ghost predicate BaseOf(path: string, name: string) {
    && name != "" && name != "." && name != ".." && '/' !in name && |name| <= |path|
    && path[|path| - |name|..] == name && (|name| < |path| ==> path[|path| - |name| - 1] == '/')
  }

  ghost predicate Named(name: string, stem: string, ext: string) {
    name == stem + "." + ext && stem != "" && ValidComponent(ext)
  }

  /** No dot after the first character is followed by a valid component. */
  ghost predicate NoUsableExtension(name: string) {
    forall i :: 0 < i < |name| && name[i] == '.' ==> !ValidComponent(name[i + 1..])
  }

  /** What the extension of a stored file has to do with the client's file name and the detected type. */
  ghost predicate ExtensionFits(filename: string, detected: Option<string>, stored: string) {
    && (detected.Some? && ValidComponent(detected.value) ==> Lowers(stored, detected.value))
    && (detected.None? ==>
          && (forall name, stem, ext :: BaseOf(filename, name) && Named(name, stem, ext) ==> Lowers(stored, ext))
          && (forall name :: BaseOf(filename, name) && NoUsableExtension(name) ==> stored == "bin"))
    && (detected.None? && filename in {"", ".", ".."} ==> stored == "bin")
  }

  lemma LowerLowers(s: string)
    ensures Lowers(Lower(s), s)
  {
  }

  lemma {:induction false} RFindSlashLast(s: string, i: nat)
    requires i < |s| && s[i] == '/' && forall j :: i < j < |s| ==> s[j] != '/'
    ensures RFindSlash(s) == Some(i)
  {
    if i < |s| - 1 { RFindSlashLast(s[..|s| - 1], i); }
  }

  lemma NothingTrails(path: string, name: string)
    requires BaseOf(path, name)
    ensures DropTrailing(path) == path
  {
    var last := path[|path| - 1];
    assert last == name[|name| - 1] && last in name;
    OtherEnd(path, "/");
    if |name| == 1 {
      OtherEnd(path, "/.");
    } else {
      assert path[|path| - 2] == name[|name| - 2] && name[|name| - 2] in name;
      assert path[|path| - 2..][0] == path[|path| - 2];
    }
  }

  lemma BaseIsFileName(path: string, name: string)
    requires BaseOf(path, name)
    ensures FileName(path) == Some(name)
  {
    NothingTrails(path, name);
    var start := |path| - |name|;
    forall j | start <= j < |path| ensures path[j] != '/' { assert path[j] == name[j - start] && path[j] in name; }
    if start == 0 {
      assert path == name;
      NoSlash(path);
    } else {
      RFindSlashLast(path, start - 1);
    }
  }

  lemma NamedExtension(name: string, stem: string, ext: string)
    requires Named(name, stem, ext)
    ensures ExtensionDot(name) == Some(|stem|) && name[|stem| + 1..] == ext
  {
    ValidIsDotFree(ext);
    assert forall j :: |stem| < j < |name| ==> name[j] == ext[j - |stem| - 1];
    RFindLast(name, |stem|);
  }

  lemma {:induction false} RFindIsDot(s: string)
    ensures RFind(s).Some? ==> RFind(s).value < |s| && s[RFind(s).value] == '.'
  {
    if s != "" { RFindIsDot(s[..|s| - 1]); }
  }

  lemma DropsSlash(path: string)
    ensures DropTrailing(path + "/") == DropTrailing(path)
  {
    assert (path + "/")[..|path|] == path && EndsWith(path + "/", "/");
  }

  lemma DropsDot(path: string)
    ensures DropTrailing(path + "/.") == DropTrailing(path + "/")
  {
    var dotted := path + "/.";
    OtherEnd(dotted, "/");
    assert dotted[..|dotted| - 1] == path + "/" && EndsWith(dotted, "/.");
  }

  lemma SameFileName(a: string, b: string)
    requires DropTrailing(a) == DropTrailing(b)
    ensures FileName(a) == FileName(b)
  {
  }

  lemma SameExtension(a: string, b: string)
    requires FileName(a) == FileName(b)
    ensures SafeExtension(a) == SafeExtension(b)
  {
  }

  /** Separators after the name, and single dots behind them, do not matter. */
  lemma TrailingSeparators(path: string)
    ensures SafeExtension(path + "/") == SafeExtension(path) && SafeExtension(path + "/.") == SafeExtension(path)
  {
    DropsSlash(path);
    DropsDot(path);
    SameFileName(path + "/", path);
    SameFileName(path + "/.", path);
    SameExtension(path + "/", path);
    SameExtension(path + "/.", path);
  }

  lemma UnusableExtension(path: string, name: string)
    requires BaseOf(path, name) && NoUsableExtension(name)
    ensures SafeExtension(path) == "bin"
  {
    BaseIsFileName(path, name);
    RFindIsDot(name);
    var dot := ExtensionDot(name);
    if dot.Some? { assert !ValidComponent(name[dot.value + 1..]); }
  }

  lemma UsableExtension(path: string, name: string, stem: string, ext: string)
    requires BaseOf(path, name) && Named(name, stem, ext)
    ensures Lowers(SafeExtension(path), ext)
  {
    BaseIsFileName(path, name);
    NamedExtension(name, stem, ext);
    LowerLowers(ext);
  }

  lemma DotsAreNoFileName(path: string)
    requires path in {"", ".", ".."}
    ensures FileName(path) == None
  {
    if path != "" { OtherEnd(path, "/"); }
    if path == ".." { assert path[|path| - 2..] == ".."; }
    assert DropTrailing(path) == path;
    assert '/' !in path;
    NoSlash(path);
  }

  lemma DotsHaveNoExtension(path: string)
    requires path in {"", ".", ".."}
    ensures SafeExtension(path) == "bin"
  {
    DotsAreNoFileName(path);
    assert ExtractExtension(path) == "bin";
  }

  lemma ClientExtensionFits(filename: string)
    ensures ExtensionFits(filename, None, SafeExtension(filename))
  {
    forall name, stem, ext | BaseOf(filename, name) && Named(name, stem, ext) ensures Lowers(SafeExtension(filename), ext) {
      UsableExtension(filename, name, stem, ext);
    }
    forall name | BaseOf(filename, name) && NoUsableExtension(name) ensures SafeExtension(filename) == "bin" {
      UnusableExtension(filename, name);
    }
    if filename in {"", ".", ".."} { DotsHaveNoExtension(filename); }
  }

  /**
   The stored extension is the detected type if there is one, else what follows the last dot of the client's file
   name, lower-cased, else `bin`.
   */
  lemma StoredExtensionFits(filename: string, detected: Option<string>)
    ensures ExtensionFits(filename, detected, SafeExtension(ContentFilename(filename, detected)))
  {
    match detected
    case None => ClientExtensionFits(filename);
    case Some(ext) =>
      if ValidComponent(ext) {
        DetectedExtensionWins(filename, ext);
        LowerLowers(ext);
      }
  }
}
