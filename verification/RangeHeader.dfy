/** Parsing of the `Range` request header: byte ranges, section 14.1.2 of RFC 9110. */
module RangeHeader {
  import opened Base
  import opened Decimal

  datatype RangeResult = Satisfiable(start: nat, end: nat) | Unsatisfiable | Ignore

  // ---- Text ----

  /** White space, as far as header values can contain it. */
  predicate IsSpace(c: char) {
    c == ' ' || c == '\t' || c == '\n' || c == '\r' || c as int == 11 || c as int == 12
  }

  function TrimStart(s: string): string {
    if s != "" && IsSpace(s[0]) then TrimStart(s[1..]) else s
  }

  function TrimEnd(s: string): string {
    if s != "" && IsSpace(s[|s| - 1]) then TrimEnd(s[..|s| - 1]) else s
  }

  function Trim(s: string): string {
    TrimEnd(TrimStart(s))
  }

  function StripPrefix(s: string, p: string): Option<string> {
    if |p| <= |s| && s[..|p|] == p then Some(s[|p|..]) else None
  }

  /** The text before and after the first dash. */
  function SplitDash(s: string): Option<(string, string)> {
    if s == "" then None
    else if s[0] == '-' then Some(("", s[1..]))
    else match SplitDash(s[1..])
      case None => None
      case Some((a, b)) => Some(([s[0]] + a, b))
  }

  // ---- The parser ----

  function ParseSuffix(endText: string, size: nat, maxLen: nat): RangeResult
    requires 0 < size
  {
    match ParseU64(endText)
    case None => Ignore
    case Some(n) =>
      if n == 0 then Unsatisfiable
      else
        var len := Min(Min(n, size), maxLen);
        Satisfiable(size - len, size - 1)
  }

  function ParseFrom(startText: string, endText: string, size: nat, maxLen: nat): RangeResult
    requires 0 < size && 0 < maxLen
  {
    match ParseU64(startText)
    case None => Ignore
    case Some(start) =>
      if start >= size then Unsatisfiable
      else
        var requested :=
          if endText == "" then Some(size - 1)
          else match ParseU64(endText)
            case None => None
            case Some(end) => if end < start then None else Some(Min(end, size - 1));
        match requested
        case None => Ignore
        case Some(end) => Satisfiable(start, Min(end, Min(start + (maxLen - 1), U64_MAX)))
  }

  function ParseRange(header: string, size: nat, maxLen: nat): RangeResult
    requires 0 < maxLen
  {
    match StripPrefix(Trim(header), "bytes=")
    case None => Ignore
    case Some(rest) =>
      var spec := Trim(rest);
      if ',' in spec then Ignore
      else if size == 0 then Unsatisfiable
      else match SplitDash(spec)
        case None => Ignore
        case Some((a, b)) =>
          if Trim(a) == "" then ParseSuffix(Trim(b), size, maxLen)
          else ParseFrom(Trim(a), Trim(b), size, maxLen)
  }

  // ---- Every header ----

  /** Whatever the header says, a satisfiable range lies in the file, is not empty, and is not over-long. */
  lemma RangeInBounds(header: string, size: nat, maxLen: nat)
    requires 0 < maxLen && size <= U64_MAX
    ensures var r := ParseRange(header, size, maxLen);
            r.Satisfiable? ==> r.start <= r.end < size && r.end - r.start + 1 <= maxLen
  {
    var spec := StripPrefix(Trim(header), "bytes=");
    if spec.Some? && SplitDash(Trim(spec.value)).Some? {
      var (a, b) := SplitDash(Trim(spec.value)).value;
      ParseFits(Trim(a));
      ParseFits(Trim(b));
    }
  }

  // ---- Canonical headers ----

  ghost predicate Solid(s: string) {
    s == "" || (!IsSpace(s[0]) && !IsSpace(s[|s| - 1]))
  }

  lemma TrimSolid(s: string)
    requires Solid(s)
    ensures Trim(s) == s
  {
  }

  lemma {:induction false} SplitAtDash(a: string, b: string)
    requires '-' !in a
    ensures SplitDash(a + "-" + b) == Some((a, b))
  {
    var s := a + "-" + b;
    if a == "" {
      assert s[1..] == b;
    } else {
      assert s[1..] == a[1..] + "-" + b;
      SplitAtDash(a[1..], b);
      assert s[0] == a[0] && [a[0]] + a[1..] == a;
    }
  }

  ghost predicate DigitsOnly(s: string) {
    forall i :: 0 <= i < |s| ==> IsDigit(s[i])
  }

  /** A header made of `bytes=`, digits, a dash, and digits reaches the number parsers unchanged. */
  lemma CanonicalHeader(a: string, b: string, size: nat, maxLen: nat)
    requires DigitsOnly(a) && DigitsOnly(b) && 0 < maxLen && 0 < size
    ensures ParseRange("bytes=" + (a + "-" + b), size, maxLen) ==
            if a == "" then ParseSuffix(b, size, maxLen) else ParseFrom(a, b, size, maxLen)
  {
    var spec := a + "-" + b;
    var header := "bytes=" + spec;
    assert forall i :: 0 <= i < |spec| ==> IsDigit(spec[i]) || spec[i] == '-';
    assert header[|header| - 1] == spec[|spec| - 1];
    TrimSolid(header);
    assert header[..6] == "bytes=" && header[6..] == spec;
    TrimSolid(spec);
    TrimSolid(a);
    TrimSolid(b);
    SplitAtDash(a, b);
  }

  function ClosedHeader(start: nat, end: nat): string {
    "bytes=" + (Dec(start) + "-" + Dec(end))
  }

  function OpenHeader(start: nat): string {
    "bytes=" + (Dec(start) + "-" + "")
  }

  function SuffixHeader(n: nat): string {
    "bytes=" + ("" + "-" + Dec(n))
  }

  /** `bytes=start-end`, for all numbers: the interval clamped to the file and to the length limit. */
  lemma ClosedRange(start: nat, end: nat, size: nat, maxLen: nat)
    requires 0 < size <= U64_MAX && 0 < maxLen
    ensures ParseRange(ClosedHeader(start, end), size, maxLen) ==
            if start > U64_MAX then Ignore
            else if start >= size then Unsatisfiable
            else if end > U64_MAX || end < start then Ignore
            else Satisfiable(start, Min(Min(end, size - 1), start + maxLen - 1))
  {
    DecShape(start);
    DecShape(end);
    ParseOfDec(start);
    ParseOfDec(end);
    CanonicalHeader(Dec(start), Dec(end), size, maxLen);
  }

  /** `bytes=start-`: from there to the end of the file, up to the length limit. */
  lemma OpenRange(start: nat, size: nat, maxLen: nat)
    requires size <= U64_MAX && start <= U64_MAX && 0 < maxLen
    ensures ParseRange(OpenHeader(start), size, maxLen) ==
            if start >= size then Unsatisfiable else Satisfiable(start, Min(size - 1, start + maxLen - 1))
  {
    DecShape(start);
    ParseOfDec(start);
    if size > 0 {
      CanonicalHeader(Dec(start), "", size, maxLen);
    } else {
      EmptyFile(Dec(start), "", maxLen);
    }
  }

  lemma EmptyFile(a: string, b: string, maxLen: nat)
    requires DigitsOnly(a) && DigitsOnly(b) && 0 < maxLen
    ensures ParseRange("bytes=" + (a + "-" + b), 0, maxLen) == Unsatisfiable
  {
    var spec := a + "-" + b;
    var header := "bytes=" + spec;
    assert forall i :: 0 <= i < |spec| ==> IsDigit(spec[i]) || spec[i] == '-';
    assert header[|header| - 1] == spec[|spec| - 1];
    TrimSolid(header);
    assert header[..6] == "bytes=" && header[6..] == spec;
    TrimSolid(spec);
  }

  /** `bytes=-n`: the last bytes of the file, as many as asked for, stored, and allowed. */
  lemma SuffixRange(n: nat, size: nat, maxLen: nat)
    requires 0 < size <= U64_MAX && 0 < maxLen
    ensures ParseRange(SuffixHeader(n), size, maxLen) ==
            if n > U64_MAX then Ignore
            else if n == 0 then Unsatisfiable
            else Satisfiable(size - Min(Min(n, size), maxLen), size - 1)
  {
    DecShape(n);
    ParseOfDec(n);
    CanonicalHeader("", Dec(n), size, maxLen);
  }

  // ---- White space ----

  ghost predicate Blank(s: string) {
    forall i :: 0 <= i < |s| ==> IsSpace(s[i])
  }

  lemma {:induction false} TrimStartDrops(w: string, s: string)
    requires Blank(w)
    ensures TrimStart(w + s) == TrimStart(s)
  {
    if w == "" {
      assert w + s == s;
    } else {
      assert (w + s)[1..] == w[1..] + s;
      TrimStartDrops(w[1..], s);
    }
  }

  lemma {:induction false} TrimEndDrops(s: string, w: string)
    requires Blank(w)
    ensures TrimEnd(s + w) == TrimEnd(s)
  {
    if w == "" {
      assert s + w == s;
    } else {
      assert (s + w)[..|s + w| - 1] == s + w[..|w| - 1];
      TrimEndDrops(s, w[..|w| - 1]);
    }
  }

  /** Blanks around a text go; the text between its first and last solid characters stays. */
  lemma TrimPads(w: string, s: string, v: string)
    requires Blank(w) && Blank(v) && Solid(s)
    ensures Trim(w + s + v) == s
  {
    assert w + s + v == w + (s + v);
    TrimStartDrops(w, s + v);
    if s == "" {
      assert s + v == v + "";
      TrimStartDrops(v, "");
    } else {
      assert (s + v)[0] == s[0];
      TrimEndDrops(s, v);
    }
  }

  /** `bytes=`, digits, a dash, and digits, with blanks wherever the parser allows them. */
  ghost predicate Padded(header: string, a: string, b: string) {
    exists w: seq<string> :: |w| == 5 && PaddedBy(header, a, b, w)
  }

  ghost predicate PaddedBy(header: string, a: string, b: string, w: seq<string>)
    requires |w| == 5
  {
    && (forall i :: 0 <= i < 5 ==> Blank(w[i]))
    && header == w[0] + ("bytes=" + (w[1] + (a + w[2] + "-" + (w[3] + b)))) + w[4]
  }

  /** The blanks make no difference. */
  lemma PaddedHeader(header: string, a: string, b: string, size: nat, maxLen: nat)
    requires Padded(header, a, b) && DigitsOnly(a) && DigitsOnly(b) && 0 < maxLen && 0 < size
    ensures ParseRange(header, size, maxLen) ==
            if a == "" then ParseSuffix(b, size, maxLen) else ParseFrom(a, b, size, maxLen)
  {
    var w :| |w| == 5 && PaddedBy(header, a, b, w);
    PaddedCore(header, a, b, w);
    PaddedSpec(a, b, w);
    PaddedSplits(a, b, w);
    PaddedNumbers(a, b, w);
  }

  lemma PaddedSplits(a: string, b: string, w: seq<string>)
    requires |w| == 5 && (forall i :: 0 <= i < 5 ==> Blank(w[i])) && DigitsOnly(a) && DigitsOnly(b)
    ensures var spec := PaddedLeft(a, w[2]) + "-" + PaddedRight(w[3], b);
            ',' !in spec && SplitDash(spec) == Some((PaddedLeft(a, w[2]), PaddedRight(w[3], b)))
  {
    var left, right := PaddedLeft(a, w[2]), PaddedRight(w[3], b);
    assert forall i :: 0 <= i < |left| ==> IsDigit(left[i]) || IsSpace(left[i]);
    assert forall i :: 0 <= i < |right| ==> IsDigit(right[i]) || IsSpace(right[i]);
    SplitAtDash(left, right);
  }

  /** What stands before the dash once the outer blanks are gone. */
  function PaddedLeft(a: string, w: string): string { if a == "" then "" else a + w }

  function PaddedRight(w: string, b: string): string { if b == "" then "" else w + b }

  lemma PaddedCore(header: string, a: string, b: string, w: seq<string>)
    requires |w| == 5 && PaddedBy(header, a, b, w) && DigitsOnly(a) && DigitsOnly(b)
    ensures StripPrefix(Trim(header), "bytes=") == Some(w[1] + (a + w[2] + "-" + PaddedRight(w[3], b)))
  {
    var rest := w[1] + (a + w[2] + "-" + PaddedRight(w[3], b));
    var core := "bytes=" + rest;
    var tail := if b == "" then w[3] + w[4] else w[4];
    assert header == w[0] + core + tail;
    assert core[|core| - 1] == if b == "" then '-' else b[|b| - 1];
    TrimPads(w[0], core, tail);
    assert core[..6] == "bytes=" && core[6..] == rest;
  }

  lemma PaddedSpec(a: string, b: string, w: seq<string>)
    requires |w| == 5 && (forall i :: 0 <= i < 5 ==> Blank(w[i])) && DigitsOnly(a) && DigitsOnly(b)
    ensures var spec := PaddedLeft(a, w[2]) + "-" + PaddedRight(w[3], b);
            Trim(w[1] + (a + w[2] + "-" + PaddedRight(w[3], b))) == spec
  {
    var spec := PaddedLeft(a, w[2]) + "-" + PaddedRight(w[3], b);
    var head := if a == "" then w[1] + w[2] else w[1];
    assert w[1] + (a + w[2] + "-" + PaddedRight(w[3], b)) == head + spec + "";
    assert spec[0] == if a == "" then '-' else a[0];
    assert spec[|spec| - 1] == if b == "" then '-' else b[|b| - 1];
    TrimPads(head, spec, "");
  }

  lemma PaddedNumbers(a: string, b: string, w: seq<string>)
    requires |w| == 5 && (forall i :: 0 <= i < 5 ==> Blank(w[i])) && DigitsOnly(a) && DigitsOnly(b)
    ensures Trim(PaddedLeft(a, w[2])) == a && Trim(PaddedRight(w[3], b)) == b
  {
    TrimPads("", a, w[2]);
    TrimPads(w[3], b, "");
    assert "" + a + w[2] == a + w[2] && w[3] + b + "" == w[3] + b;
  }

  // ---- Headers that ask for no range ----

  /** After blanks, the header names the unit `bytes`. */
  ghost predicate NamesBytes(header: string) {
    exists i :: 0 <= i && i + 6 <= |header| && header[i..i + 6] == "bytes=" && Blank(header[..i])
  }

  lemma {:induction false} TrimStartIs(s: string) returns (i: nat)
    ensures i <= |s| && Blank(s[..i]) && TrimStart(s) == s[i..]
    ensures i < |s| ==> !IsSpace(s[i])
  {
    i := 0;
    if s != "" && IsSpace(s[0]) {
      var rest := TrimStartIs(s[1..]);
      i := rest + 1;
      assert s[..i] == [s[0]] + s[1..][..rest] && s[1..][rest..] == s[i..];
    }
  }

  lemma {:induction false} TrimEndIs(s: string) returns (n: nat)
    ensures n <= |s| && Blank(s[n..]) && TrimEnd(s) == s[..n]
  {
    n := |s|;
    if s != "" && IsSpace(s[|s| - 1]) {
      n := TrimEndIs(s[..|s| - 1]);
      assert s[n..] == s[..|s| - 1][n..] + [s[|s| - 1]];
    } else {
      assert s[..|s|] == s;
    }
  }

  /** Trimming keeps every character that is no blank. */
  lemma TrimKeeps(s: string, c: char)
    requires !IsSpace(c)
    ensures c in Trim(s) <==> c in s
  {
    var i := TrimStartIs(s);
    var t := TrimStart(s);
    var n := TrimEndIs(t);
    forall x | 0 <= x < i ensures IsSpace(s[x]) { assert s[..i][x] == s[x]; }
    forall x | n <= x < |t| ensures IsSpace(t[x]) { assert t[n..][x - n] == t[x]; }
    if c in s {
      var j :| 0 <= j < |s| && s[j] == c;
      assert t[j - i] == c && t[..n][j - i] == c;
    }
    if c in Trim(s) {
      var j :| 0 <= j < |t[..n]| && t[..n][j] == c;
      assert s[i + j] == c;
    }
  }

  lemma StripsUnit(header: string)
    ensures StripPrefix(Trim(header), "bytes=").Some? ==> NamesBytes(header)
    ensures StripPrefix(Trim(header), "bytes=").Some? ==>
              forall c :: c in StripPrefix(Trim(header), "bytes=").value ==> c in Trim(header)
    ensures forall c :: c in Trim(header) && c !in "bytes=" && StripPrefix(Trim(header), "bytes=").Some? ==>
              c in StripPrefix(Trim(header), "bytes=").value
  {
    var i := TrimStartIs(header);
    var start := TrimStart(header);
    var n := TrimEndIs(start);
    var t := Trim(header);
    if |t| >= 6 && t[..6] == "bytes=" {
      assert header[i..i + 6] == t[..6];
      assert t == "bytes=" + t[6..];
    }
  }

  /** A header in another unit, or with several ranges, is ignored. */
  lemma ForeignHeader(header: string, size: nat, maxLen: nat)
    requires 0 < maxLen && (!NamesBytes(header) || ',' in header)
    ensures ParseRange(header, size, maxLen) == Ignore
  {
    StripsUnit(header);
    var rest := StripPrefix(Trim(header), "bytes=");
    if rest.Some? {
      TrimKeeps(header, ',');
      TrimKeeps(rest.value, ',');
    }
  }

  lemma {:induction false} NoDash(s: string)
    requires '-' !in s
    ensures SplitDash(s) == None
  {
    if s != "" { NoDash(s[1..]); }
  }

  /** So is one without a dash. */
  lemma DashlessHeader(header: string, size: nat, maxLen: nat)
    requires 0 < maxLen && 0 < size && '-' !in header
    ensures ParseRange(header, size, maxLen) == Ignore
  {
    StripsUnit(header);
    var rest := StripPrefix(Trim(header), "bytes=");
    if rest.Some? {
      TrimKeeps(header, '-');
      TrimKeeps(rest.value, '-');
      NoDash(Trim(rest.value));
    }
  }

  lemma KeepsUnit(header: string, i: nat)
    requires i + 6 <= |header| && header[i..i + 6] == "bytes=" && Blank(header[..i])
    ensures StripPrefix(Trim(header), "bytes=").Some?
  {
    var tail := header[i..];
    assert header == header[..i] + tail && tail[..6] == "bytes=";
    TrimStartDrops(header[..i], tail);
    assert tail[0] == 'b' && TrimStart(tail) == tail;
    var n := TrimEndIs(tail);
    assert tail[5] == '=';
    forall x | n <= x < |tail| ensures IsSpace(tail[x]) { assert tail[n..][x - n] == tail[x]; }
    assert tail[..n][..6] == tail[..6];
  }

  /** Of an empty file, no single range can be satisfied, whatever follows the unit. */
  lemma EmptyFileHeader(header: string, maxLen: nat)
    requires 0 < maxLen && NamesBytes(header) && ',' !in header
    ensures ParseRange(header, 0, maxLen) == Unsatisfiable
  {
    var i :| 0 <= i && i + 6 <= |header| && header[i..i + 6] == "bytes=" && Blank(header[..i]);
    KeepsUnit(header, i);
    StripsUnit(header);
    TrimKeeps(header, ',');
    TrimKeeps(StripPrefix(Trim(header), "bytes=").value, ',');
  }

  // ---- Numbers between blanks ----

  /** What `first-last` asks of a file of `size` bytes, under a length limit. */
  function Interval(first: nat, last: nat, size: nat, maxLen: nat): RangeResult
    requires 0 < size && 0 < maxLen
  {
    if first > U64_MAX then Ignore
    else if first >= size then Unsatisfiable
    else if last > U64_MAX || last < first then Ignore
    else Satisfiable(first, Min(Min(last, size - 1), first + maxLen - 1))
  }

  lemma PaddedClosed(header: string, first: nat, last: nat, size: nat, maxLen: nat)
    requires Padded(header, Dec(first), Dec(last)) && 0 < size <= U64_MAX && 0 < maxLen
    ensures ParseRange(header, size, maxLen) == Interval(first, last, size, maxLen)
  {
    DecShape(first);
    DecShape(last);
    ParseOfDec(first);
    ParseOfDec(last);
    PaddedHeader(header, Dec(first), Dec(last), size, maxLen);
  }

  lemma PaddedOpen(header: string, first: nat, size: nat, maxLen: nat)
    requires Padded(header, Dec(first), "") && 0 < size <= U64_MAX && 0 < maxLen
    ensures ParseRange(header, size, maxLen) == Interval(first, U64_MAX, size, maxLen)
  {
    DecShape(first);
    ParseOfDec(first);
    PaddedHeader(header, Dec(first), "", size, maxLen);
  }

  lemma PaddedSuffix(header: string, n: nat, size: nat, maxLen: nat)
    requires Padded(header, "", Dec(n)) && 0 < size <= U64_MAX && 0 < maxLen
    ensures ParseRange(header, size, maxLen) ==
            if n > U64_MAX then Ignore
            else if n == 0 then Unsatisfiable
            else Satisfiable(size - Min(Min(n, size), maxLen), size - 1)
  {
    DecShape(n);
    ParseOfDec(n);
    PaddedHeader(header, "", Dec(n), size, maxLen);
  }

  /** The canonical headers are the ones without blanks. */
  lemma CanonicalIsPadded(a: string, b: string)
    ensures Padded("bytes=" + (a + "-" + b), a, b)
  {
    var w := ["", "", "", "", ""];
    assert "" + ("bytes=" + ("" + (a + "" + "-" + ("" + b)))) + "" == "bytes=" + (a + "-" + b);
    assert PaddedBy("bytes=" + (a + "-" + b), a, b, w);
  }
}
