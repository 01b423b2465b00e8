/**
 File names in the storage directory: how they are built, how a directory scan tells them apart, and which
 directory entries make up the index.
 */
module Names {
  import opened Base
  import opened Decimal

  datatype Name =
    | Data(id: string, ext: string)              // id.ext
    | Reserve(id: string)                        // .id.reserve
    | Cap(id: string)                            // .cap.id
    | Temp(id: string, pid: nat, n: nat)         // .id.pid.n.tmp

  predicate ValidChar(c: char) {
    'a' <= c <= 'z' || 'A' <= c <= 'Z' || '0' <= c <= '9' || c == '-' || c == '_'
  }

  predicate ValidComponent(s: string) {
    s != "" && forall i :: 0 <= i < |s| ==> ValidChar(s[i])
  }

  /** The ASCII letters and digits, dash and underscore, by their codes. */
  lemma ValidChars(c: char)
    ensures ValidChar(c) <==>
            65 <= c as int <= 90 || 97 <= c as int <= 122 || 48 <= c as int <= 57 || c as int == 45 || c as int == 95
  {
  }

  predicate WellFormed(n: Name) {
    ValidComponent(n.id) && (n.Data? ==> ValidComponent(n.ext))
  }

  function Render(n: Name): string {
    match n
    case Data(id, ext) => id + "." + ext
    case Reserve(id) => "." + (id + "." + "reserve")
    case Cap(id) => "." + ("cap" + "." + id)
    case Temp(id, pid, k) => "." + (id + "." + (Dec(pid) + "." + (Dec(k) + ".tmp")))
  }

  /** The one coincidence: the reservation of `cap` is the capability file of `reserve`. */
  function Canon(n: Name): Name {
    if n == Reserve("cap") then Cap("reserve") else n
  }

  // ---- Different names are different files ----

  ghost predicate DotFree(s: string) {
    forall i :: 0 <= i < |s| ==> s[i] != '.'
  }

  lemma ValidIsDotFree(s: string)
    requires ValidComponent(s)
    ensures DotFree(s) && s[0] != '.'
  {
  }

  lemma DecIsDotFree(n: nat)
    ensures DotFree(Dec(n))
  {
    DecShape(n);
  }

  /** Text splits at its first dot in one way only. */
  lemma DotSplit(a: string, x: string, b: string, y: string)
    requires DotFree(a) && DotFree(b) && a + "." + x == b + "." + y
    ensures a == b && x == y
  {
    var s := a + "." + x;
    assert s[|a|] == '.' && s[|b|] == '.';
    assert forall i :: 0 <= i < |a| ==> s[i] == a[i];
    assert forall i :: 0 <= i < |b| ==> s[i] == b[i];
    assert |a| == |b|;
    assert a == s[..|a|] && b == s[..|b|];
    assert x == s[|a| + 1..] && y == s[|b| + 1..];
  }

  /** A name with a leading dot, as the parts before and after its second dot. */
  function Head(n: Name): string
    requires !n.Data?
  {
    if n.Cap? then "cap" else n.id
  }

  function Tail(n: Name): string
    requires !n.Data?
  {
    match n
    case Reserve(_) => "reserve"
    case Cap(id) => id
    case Temp(_, pid, k) => Dec(pid) + "." + (Dec(k) + ".tmp")
  }

  lemma RenderHidden(n: Name)
    requires WellFormed(n) && !n.Data?
    ensures Render(n) == "." + (Head(n) + "." + Tail(n)) && DotFree(Head(n))
    ensures Render(n)[0] == '.' && Render(n)[1..] == Head(n) + "." + Tail(n)
    ensures n.Temp? <==> !DotFree(Tail(n))
  {
    if n.Temp? {
      DecIsDotFree(n.pid);
      assert Tail(n)[|Dec(n.pid)|] == '.';
    }
  }

  lemma TempTails(a: Name, b: Name)
    requires a.Temp? && b.Temp? && Tail(a) == Tail(b)
    ensures a.pid == b.pid && a.n == b.n
  {
    DecIsDotFree(a.pid);
    DecIsDotFree(b.pid);
    DecIsDotFree(a.n);
    DecIsDotFree(b.n);
    DotSplit(Dec(a.pid), Dec(a.n) + ".tmp", Dec(b.pid), Dec(b.n) + ".tmp");
    assert Dec(a.n) + ".tmp" == Dec(a.n) + "." + "tmp";
    assert Dec(b.n) + ".tmp" == Dec(b.n) + "." + "tmp";
    DotSplit(Dec(a.n), "tmp", Dec(b.n), "tmp");
    DecInjective(a.pid, b.pid);
    DecInjective(a.n, b.n);
  }

  lemma HiddenNamesDiffer(a: Name, b: Name)
    requires WellFormed(a) && WellFormed(b) && !a.Data? && !b.Data?
    requires Render(a) == Render(b)
    ensures Canon(a) == Canon(b)
  {
    RenderHidden(a);
    RenderHidden(b);
    DotSplit(Head(a), Tail(a), Head(b), Tail(b));
    if a.Temp? && b.Temp? { TempTails(a, b); }
  }

  lemma DataIsNotHidden(a: Name, b: Name)
    requires WellFormed(a) && WellFormed(b) && a.Data? && !b.Data?
    ensures Render(a) != Render(b)
  {
    ValidIsDotFree(a.id);
    RenderHidden(b);
    assert Render(a)[0] == a.id[0];
  }

  /** Two well-formed names are the same file exactly when they are the same name, up to the one coincidence. */
  lemma RenderInjective(a: Name, b: Name)
    requires WellFormed(a) && WellFormed(b)
    ensures Render(a) == Render(b) <==> Canon(a) == Canon(b)
  {
    assert Render(Reserve("cap")) == ".cap.reserve" == Render(Cap("reserve"));
    if a.Data? && b.Data? {
      ValidIsDotFree(a.id);
      ValidIsDotFree(b.id);
      if Render(a) == Render(b) { DotSplit(a.id, a.ext, b.id, b.ext); }
    } else if a.Data? {
      DataIsNotHidden(a, b);
    } else if b.Data? {
      DataIsNotHidden(b, a);
    } else if Render(a) == Render(b) {
      HiddenNamesDiffer(a, b);
    }
  }

  // ---- The directory scan ----

  datatype Entry =
    | Capability
    | Debris
    | File(id: string, ext: string)
    | Undotted
    | Invalid

  function RFind(s: string): Option<nat> {
    if s == "" then None
    else if s[|s| - 1] == '.' then Some(|s| - 1)
    else RFind(s[..|s| - 1])
  }

  predicate StartsWith(s: string, p: string) { |p| <= |s| && s[..|p|] == p }

  predicate EndsWith(s: string, p: string) { |p| <= |s| && s[|s| - |p|..] == p }

  /** What `init_cache` makes of a regular file with this name. */
  function Classify(s: string): (e: Entry)
    ensures e.File? ==> ValidComponent(e.id) && ValidComponent(e.ext)
  {
    if StartsWith(s, ".cap.") then Capability
    else if StartsWith(s, ".") && (EndsWith(s, ".reserve") || EndsWith(s, ".tmp")) then Debris
    else match RFind(s)
      case None => Undotted
      case Some(dot) =>
        if dot < |s| && ValidComponent(s[..dot]) && ValidComponent(s[dot + 1..]) then File(s[..dot], s[dot + 1..])
        else Invalid
  }

  /** What a directory scan should make of a name. */
  function Expected(n: Name): Entry {
    match n
    case Data(id, ext) => File(id, ext)
    case Cap(_) => Capability
    case Reserve(_) => Debris
    case Temp(_, _, _) => Debris
  }

  lemma {:induction false} RFindLast(s: string, i: nat)
    requires i < |s| && s[i] == '.' && forall j :: i < j < |s| ==> s[j] != '.'
    ensures RFind(s) == Some(i)
  {
    if i < |s| - 1 { RFindLast(s[..|s| - 1], i); }
  }

  lemma OtherStart(s: string, p: string)
    requires s != "" && p != "" && s[0] != p[0]
    ensures !StartsWith(s, p)
  {
    if |p| <= |s| { assert s[..|p|][0] == s[0]; }
  }

  lemma ClassifyData(id: string, ext: string)
    requires ValidComponent(id) && ValidComponent(ext)
    ensures Classify(id + "." + ext) == File(id, ext)
  {
    var s := id + "." + ext;
    ValidIsDotFree(id);
    ValidIsDotFree(ext);
    assert s[0] == id[0];
    OtherStart(s, ".");
    OtherStart(s, ".cap.");
    assert forall j :: |id| < j < |s| ==> s[j] == ext[j - |id| - 1];
    RFindLast(s, |id|);
    assert s[..|id|] == id && s[|id| + 1..] == ext;
  }

  lemma PrefixSplits(s: string, p: string)
    requires StartsWith(s, p)
    ensures s == p + s[|p|..]
  {
  }

  lemma HeadIsCap(n: Name)
    requires WellFormed(n) && !n.Data? && StartsWith(Render(n), ".cap.")
    ensures Head(n) == "cap"
  {
    RenderHidden(n);
    var s := Render(n);
    PrefixSplits(s, ".cap.");
    assert s[1..] == "cap" + "." + s[5..];
    DotSplit(Head(n), Tail(n), "cap", s[5..]);
  }

  lemma CapHead(n: Name)
    requires WellFormed(n) && !n.Data? && Head(n) == "cap"
    ensures StartsWith(Render(n), ".cap.")
  {
    RenderHidden(n);
    var rest := "cap" + "." + Tail(n);
    assert rest[..4] == "cap.";
    assert ("." + rest)[..5] == "." + rest[..4];
  }

  lemma CapPrefix(n: Name)
    requires WellFormed(n) && !n.Data?
    ensures StartsWith(Render(n), ".cap.") <==> Head(n) == "cap"
  {
    if StartsWith(Render(n), ".cap.") { HeadIsCap(n); }
    if Head(n) == "cap" { CapHead(n); }
  }

  lemma DebrisSuffix(n: Name)
    requires WellFormed(n) && (n.Reserve? || n.Temp?)
    ensures var s := Render(n); StartsWith(s, ".") && (EndsWith(s, ".reserve") || EndsWith(s, ".tmp"))
  {
    var s := Render(n);
    RenderHidden(n);
    assert s[..1] == [s[0]];
    if n.Reserve? {
      assert s == ("." + n.id) + ".reserve";
    } else {
      assert s == ("." + n.id + "." + Dec(n.pid) + "." + Dec(n.n)) + ".tmp";
    }
  }

  lemma ClassifyHidden(n: Name)
    requires WellFormed(n) && !n.Data?
    ensures Classify(Render(n)) == if Head(n) == "cap" then Capability else Debris
  {
    CapPrefix(n);
    if Head(n) != "cap" { DebrisSuffix(n); }
  }

  /** A scan classifies every generated name correctly, except reservations and temporary files of the id `cap`. */
  lemma ClassifyCorrect(n: Name)
    requires WellFormed(n)
    ensures Classify(Render(n)) == Expected(n) <==> !((n.Reserve? || n.Temp?) && n.id == "cap")
  {
    if n.Data? { ClassifyData(n.id, n.ext); } else { ClassifyHidden(n); }
  }

  // ---- The index a set of names stands for ----

  predicate UniqueIds(names: set<Name>) {
    forall a, b :: a in names && b in names && a.Data? && b.Data? && a.id == b.id ==> a == b
  }

  function IndexOf(names: set<Name>): (index: map<string, string>)
    requires UniqueIds(names)
  {
    map n | n in names && n.Data? :: n.id := n.ext
  }

  /** The entries that a scan removes. */
  function DebrisIn(names: set<Name>): set<Name> {
    set n | n in names && Classify(Render(n)).Debris?
  }
}
