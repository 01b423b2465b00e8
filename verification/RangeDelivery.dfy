/** Reading files in chunks: the body of range responses and of whole-file responses. */
module RangeDelivery {
  import opened Base
  import opened RangeHeader

  const BUFFER: nat := 65536

  /** What the system makes of one read call: it fails, or it is willing to return up to `n` bytes. */
  datatype Read = Got(n: nat) | Broken

  /** The bytes returned by a read at `pos` into a buffer of `room` bytes: at least one unless at the end of the file. */
  function ReadLength(file: Bytes, pos: nat, room: nat, n: nat): (len: nat)
    requires 0 < room
    ensures len <= room && (pos < |file| ==> 1 <= len && pos + len <= |file|) && (len == 0 <==> pos >= |file|)
  {
    if pos >= |file| then 0
    else
      var most := Min(room, |file| - pos);
      if n == 0 then 1 else Min(n, most)
  }

  /** The stream of a range response: `remaining` bytes from `pos`, under the read schedule `calls`. */
  function RangeStream(file: Bytes, pos: nat, remaining: nat, calls: nat -> Read, step: nat): seq<Item>
    decreases remaining, 1
  {
    if remaining == 0 then [] else AfterRead(file, pos, remaining, calls, step)
  }

  function AfterRead(file: Bytes, pos: nat, remaining: nat, calls: nat -> Read, step: nat): seq<Item>
    requires 0 < remaining
    decreases remaining, 0
  {
    match calls(step)
    case Broken => [Fail(Io)]
    case Got(n) =>
      var len := ReadLength(file, pos, Min(remaining, BUFFER), n);
      if len == 0 then [Fail(Io)]
      else [Chunk(file[pos..pos + len])] + RangeStream(file, pos + len, remaining - len, calls, step + 1)
  }

  /** The stream of a whole file from `pos`, up to the first failing read. */
  function FileStream(file: Bytes, pos: nat, calls: nat -> Read, step: nat): seq<Item>
    decreases if pos < |file| then |file| - pos else 0
  {
    match calls(step)
    case Broken => [Fail(Io)]
    case Got(n) =>
      var len := ReadLength(file, pos, BUFFER, n);
      if len == 0 then [] else [Chunk(file[pos..pos + len])] + FileStream(file, pos + len, calls, step + 1)
  }

  ghost predicate NoFailingRead(calls: nat -> Read) {
    forall i :: calls(i).Got?
  }

  lemma ObserveCons(b: Bytes, rest: seq<Item>)
    ensures Observe([Chunk(b)] + rest) == Observation(b + Observe(rest).bytes, Observe(rest).error)
  {
    assert ([Chunk(b)] + rest)[1..] == rest;
  }

  /** One read of a range stream, and what is left to read. */
  lemma RangeReads(file: Bytes, pos: nat, remaining: nat, calls: nat -> Read, step: nat) returns (len: nat)
    requires pos < |file| && 0 < remaining && calls(step).Got?
    ensures 1 <= len <= Min(remaining, BUFFER) && pos + len <= |file|
    ensures RangeStream(file, pos, remaining, calls, step)
            == [Chunk(file[pos..pos + len])] + RangeStream(file, pos + len, remaining - len, calls, step + 1)
  {
    len := ReadLength(file, pos, Min(remaining, BUFFER), calls(step).n);
    assert RangeStream(file, pos, remaining, calls, step) == AfterRead(file, pos, remaining, calls, step);
  }

  /** What is seen of a stream is what is seen of its first read and of the rest. */
  lemma RangeObserves(file: Bytes, pos: nat, remaining: nat, calls: nat -> Read, step: nat) returns (len: nat)
    requires pos < |file| && 0 < remaining && calls(step).Got?
    ensures 1 <= len <= remaining && pos + len <= |file|
    ensures var rest := Observe(RangeStream(file, pos + len, remaining - len, calls, step + 1));
            Observe(RangeStream(file, pos, remaining, calls, step)) == Observation(file[pos..pos + len] + rest.bytes, rest.error)
  {
    len := RangeReads(file, pos, remaining, calls, step);
    ObserveCons(file[pos..pos + len], RangeStream(file, pos + len, remaining - len, calls, step + 1));
  }

  lemma FileObserves(file: Bytes, pos: nat, calls: nat -> Read, step: nat) returns (len: nat)
    requires pos < |file| && calls(step).Got?
    ensures 1 <= len && pos + len <= |file|
    ensures var rest := Observe(FileStream(file, pos + len, calls, step + 1));
            Observe(FileStream(file, pos, calls, step)) == Observation(file[pos..pos + len] + rest.bytes, rest.error)
  {
    len := ReadLength(file, pos, BUFFER, calls(step).n);
    ObserveCons(file[pos..pos + len], FileStream(file, pos + len, calls, step + 1));
  }

  /** However short the reads, a range inside the file is delivered exactly. */
  lemma {:induction false} RangeExact(file: Bytes, pos: nat, remaining: nat, calls: nat -> Read, step: nat)
    requires pos + remaining <= |file| && NoFailingRead(calls)
    ensures Observe(RangeStream(file, pos, remaining, calls, step)) == Observation(file[pos..pos + remaining], None)
    decreases remaining
  {
    if remaining != 0 {
      var len := RangeObserves(file, pos, remaining, calls, step);
      RangeExact(file, pos + len, remaining - len, calls, step + 1);
      assert file[pos..pos + len] + file[pos + len..pos + remaining] == file[pos..pos + remaining];
    }
  }

  /** It takes at most as many chunks as bytes, none of which is empty or longer than 64 KiB. */
  lemma {:induction false} RangeChunks(file: Bytes, pos: nat, remaining: nat, calls: nat -> Read, step: nat)
    requires pos + remaining <= |file| && NoFailingRead(calls)
    ensures var items := RangeStream(file, pos, remaining, calls, step);
            |items| <= remaining && forall i :: 0 <= i < |items| ==> items[i].Chunk? && 1 <= |items[i].bytes| <= 65536
    decreases remaining
  {
    if remaining != 0 {
      var len := RangeReads(file, pos, remaining, calls, step);
      RangeChunks(file, pos + len, remaining - len, calls, step + 1);
    }
  }

  /** With failing reads the consumer gets a prefix of the range, and an error exactly when something is missing. */
  lemma {:induction false} RangePrefix(file: Bytes, pos: nat, remaining: nat, calls: nat -> Read, step: nat)
    requires pos + remaining <= |file|
    ensures var seen := Observe(RangeStream(file, pos, remaining, calls, step));
            && seen.bytes <= file[pos..pos + remaining]
            && (seen.error.None? <==> seen.bytes == file[pos..pos + remaining])
    decreases remaining
  {
    if remaining != 0 && calls(step).Got? {
      var len := RangeObserves(file, pos, remaining, calls, step);
      RangePrefix(file, pos + len, remaining - len, calls, step + 1);
      var head, tail := file[pos..pos + len], file[pos + len..pos + remaining];
      assert head + tail == file[pos..pos + remaining];
      PrefixAfter(head, Observe(RangeStream(file, pos + len, remaining - len, calls, step + 1)).bytes, tail);
    }
  }

  const U64_RANGE: nat := U64_MAX + 1

  /** The length that a range response starts with: `end - start + 1`, which wraps around when the range is backward. */
  function RangeLength(start: nat, end: nat): nat {
    if start <= end then end - start + 1 else (end + 1 - start) % U64_RANGE
  }

  /** A stream of more bytes than there are delivers the rest of the file, and then says that it ended too early. */
  lemma {:induction false} RangeTooLong(file: Bytes, pos: nat, remaining: nat, calls: nat -> Read, step: nat)
    requires pos <= |file| < pos + remaining && NoFailingRead(calls)
    ensures Observe(RangeStream(file, pos, remaining, calls, step)) == Observation(file[pos..], Some(Io))
    decreases remaining
  {
    if pos < |file| {
      var len := RangeObserves(file, pos, remaining, calls, step);
      RangeTooLong(file, pos + len, remaining - len, calls, step + 1);
      assert file[pos..pos + len] + file[pos + len..] == file[pos..];
    }
  }

  lemma WrappedLength(start: nat, end: nat)
    requires end < start <= U64_MAX
    ensures RangeLength(start, end) == if start == end + 1 then 0 else end + 1 - start + U64_RANGE
  {
    var len := end + 1 - start;
    if start != end + 1 { assert 0 <= len + U64_RANGE < U64_RANGE && len == -1 * U64_RANGE + (len + U64_RANGE); }
  }

  /**
   A range inside the file whose end lies before its start: nothing when they are adjacent, and otherwise everything
   from the start on, and an error.
   */
  lemma BackwardRange(file: Bytes, start: nat, end: nat, calls: nat -> Read)
    requires end < start <= |file| <= U64_MAX && NoFailingRead(calls)
    ensures Observe(RangeStream(file, start, RangeLength(start, end), calls, 0)) ==
            if start == end + 1 then Observation([], None) else Observation(file[start..], Some(Io))
  {
    WrappedLength(start, end);
    if start != end + 1 { RangeTooLong(file, start, end + 1 - start + U64_RANGE, calls, 0); }
  }

  lemma PrefixAfter(head: Bytes, part: Bytes, tail: Bytes)
    requires part <= tail
    ensures head + part <= head + tail
    ensures head + part == head + tail <==> part == tail
  {
    assert (head + part)[|head|..] == part && (head + tail)[|head|..] == tail;
  }

  /** A whole file is delivered exactly. */
  lemma {:induction false} FileExact(file: Bytes, pos: nat, calls: nat -> Read, step: nat)
    requires pos <= |file| && NoFailingRead(calls)
    ensures Observe(FileStream(file, pos, calls, step)) == Observation(file[pos..], None)
    decreases |file| - pos
  {
    if pos < |file| {
      var len := FileObserves(file, pos, calls, step);
      FileExact(file, pos + len, calls, step + 1);
      assert file[pos..pos + len] + file[pos + len..] == file[pos..];
    }
  }

  // ---- Capped open-ended requests tile the file ----

  function Flatten(slices: seq<Bytes>): Bytes {
    if slices == [] then [] else slices[0] + Flatten(slices[1..])
  }

  /** The body of a response to a satisfiable request. */
  function RangeBody(file: Bytes, wanted: RangeResult, calls: nat -> Read): Option<Bytes>
    requires wanted.Satisfiable? ==> wanted.start <= wanted.end
  {
    match wanted
    case Satisfiable(start, end) => Some(Observe(RangeStream(file, start, end - start + 1, calls, 0)).bytes)
    case _ => None
  }

  /** `body` is the answer to `bytes=k-`, read under the schedule `calls`. */
  ghost predicate AnswersOpen(body: Option<Bytes>, file: Bytes, k: nat, maxLen: nat, calls: nat -> Read)
    requires k <= |file| <= U64_MAX && 0 < maxLen
  {
    OpenRange(k, |file|, maxLen);
    body == RangeBody(file, ParseRange(OpenHeader(k), |file|, maxLen), calls)
  }

  /** The bodies a client gets that asks for the rest of a file and goes on, each time, where the last answer ended. */
  ghost function Crawl(answer: nat -> Option<Bytes>, k: nat, size: nat): seq<Bytes>
    requires k <= size
    decreases size - k
  {
    match answer(k)
    case Some(body) => if 0 < |body| <= size - k then [body] + Crawl(answer, k + |body|, size) else [body]
    case None => []
  }

  /** `count` is the least number of pieces of at most `m` bytes that make up `n` bytes. */
  ghost predicate FewestPieces(count: nat, n: nat, m: nat) {
    n <= count * m && (count > 0 ==> (count - 1) * m < n)
  }

  lemma OneMorePiece(count: nat, n: nat, m: nat)
    requires 0 < n && 0 < m && FewestPieces(count, n - Min(n, m), m)
    ensures FewestPieces(count + 1, n, m)
  {
    assert (count + 1) * m == count * m + m;
    assert count * m == (count - 1) * m + m;
  }

  function NextPiece(file: Bytes, k: nat, m: nat): Option<Bytes>
    requires k <= |file|
  {
    if k < |file| then Some(file[k..k + Min(|file| - k, m)]) else None
  }

  lemma RangeBodyExact(file: Bytes, k: nat, len: nat, calls: nat -> Read)
    requires 0 < len && k + len <= |file| && NoFailingRead(calls)
    ensures RangeBody(file, Satisfiable(k, k + len - 1), calls) == Some(file[k..k + len])
  {
    RangeExact(file, k, len, calls, 0);
  }

  lemma OpenAnswerExact(body: Option<Bytes>, file: Bytes, k: nat, maxLen: nat, calls: nat -> Read)
    requires k <= |file| <= U64_MAX && 0 < maxLen && NoFailingRead(calls)
    requires AnswersOpen(body, file, k, maxLen, calls)
    ensures body == NextPiece(file, k, maxLen)
  {
    OpenRange(k, |file|, maxLen);
    if k < |file| { RangeBodyExact(file, k, Min(|file| - k, maxLen), calls); }
  }

  /** The rest of the file from `k`, cut into pieces of `m` bytes. */
  function Pieces(file: Bytes, k: nat, m: nat): seq<Bytes>
    requires k <= |file| && 0 < m
    decreases |file| - k
  {
    if k == |file| then []
    else
      var next := k + Min(|file| - k, m);
      [file[k..next]] + Pieces(file, next, m)
  }

  lemma {:induction false} PiecesTile(file: Bytes, k: nat, m: nat)
    requires k <= |file| && 0 < m
    ensures Flatten(Pieces(file, k, m)) == file[k..]
    ensures FewestPieces(|Pieces(file, k, m)|, |file| - k, m)
    decreases |file| - k
  {
    if k < |file| {
      var next := k + Min(|file| - k, m);
      PiecesTile(file, next, m);
      OneMorePiece(|Pieces(file, next, m)|, |file| - k, m);
      TileStep(file, k, next, Pieces(file, next, m));
    }
  }

  /** Each answer is the next piece, and there is none at the end of the file. */
  ghost predicate AnswersPieces(answer: nat -> Option<Bytes>, file: Bytes, m: nat) {
    forall k: nat :: k <= |file| ==> answer(k) == NextPiece(file, k, m)
  }

  lemma {:induction false} CrawlIsPieces(answer: nat -> Option<Bytes>, file: Bytes, k: nat, m: nat)
    requires k <= |file| && 0 < m && AnswersPieces(answer, file, m)
    ensures Crawl(answer, k, |file|) == Pieces(file, k, m)
    decreases |file| - k
  {
    if k < |file| {
      CrawlIsPieces(answer, file, k + Min(|file| - k, m), m);
    }
  }

  lemma OpenAnswersArePieces(file: Bytes, maxLen: nat, calls: nat -> nat -> Read, answer: nat -> Option<Bytes>)
    requires |file| <= U64_MAX && 0 < maxLen && forall k :: NoFailingRead(calls(k))
    requires forall k: nat :: k <= |file| ==> AnswersOpen(answer(k), file, k, maxLen, calls(k))
    ensures AnswersPieces(answer, file, maxLen)
  {
    forall k: nat | k <= |file| ensures answer(k) == NextPiece(file, k, maxLen) {
      OpenAnswerExact(answer(k), file, k, maxLen, calls(k));
    }
  }

  /**
   The answers concatenate to the whole file, there are exactly as many as full-length ones are needed, and the
   request after the last one is unsatisfiable. Each request may meet reads of its own.
   */
  lemma CrawlTiles(file: Bytes, maxLen: nat, calls: nat -> nat -> Read, answer: nat -> Option<Bytes>)
    requires |file| <= U64_MAX && 0 < maxLen && forall k :: NoFailingRead(calls(k))
    requires forall k: nat :: k <= |file| ==> AnswersOpen(answer(k), file, k, maxLen, calls(k))
    ensures var bodies := Crawl(answer, 0, |file|);
            Flatten(bodies) == file && FewestPieces(|bodies|, |file|, maxLen)
    ensures ParseRange(OpenHeader(|file|), |file|, maxLen) == Unsatisfiable
  {
    OpenAnswersArePieces(file, maxLen, calls, answer);
    CrawlIsPieces(answer, file, 0, maxLen);
    PiecesTile(file, 0, maxLen);
    OpenRange(|file|, |file|, maxLen);
  }

  lemma TileStep(file: Bytes, k: nat, next: nat, rest: seq<Bytes>)
    requires k <= next <= |file| && Flatten(rest) == file[next..]
    ensures Flatten([file[k..next]] + rest) == file[k..]
  {
    assert ([file[k..next]] + rest)[1..] == rest;
    assert file[k..next] + file[next..] == file[k..];
  }
}
