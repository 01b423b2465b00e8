/**
 The stages an upload body goes through before it reaches storage: the deadline, the content sniffing, and the
 size check. Each is shown to depend only on what the client sent, not on how it was cut into chunks.
 */
module Uploads {
  import opened Base

  /** No chunk is longer than the largest object a 64-bit Rust program can allocate. */
  const CHUNK_MAX: nat := 0x7FFF_FFFF_FFFF_FFFF

  ghost predicate ChunksFit(items: seq<Item>) {
    forall i :: 0 <= i < |items| && items[i].Chunk? ==> |items[i].bytes| <= CHUNK_MAX
  }

  // ---- The deadline ----

  /**
   `deadline_body`: chunks are passed on until the body ends, fails, or a wait runs out. `late(k)` says that the
   wait for item `k` runs out first; the timer's and the body's errors read the same.
   */
  function Deadline(items: seq<Item>, late: nat -> bool, k: nat): seq<Item>
    decreases |items|
  {
    if late(k) then [Fail(Io)]
    else if items == [] then []
    else match items[0]
      case Fail(_) => [Fail(Io)]
      case Chunk(b) => [Chunk(b)] + Deadline(items[1..], late, k + 1)
  }

  /** A prefix of the chunks, then a clean end or exactly one error, then nothing. */
  lemma {:induction false} DeadlineShape(items: seq<Item>, late: nat -> bool, k: nat)
    ensures var out := Deadline(items, late, k);
            && (forall i :: 0 <= i < |out| - 1 ==> i < |items| && items[i].Chunk? && out[i] == items[i])
            && (out != [] && out[|out| - 1].Fail? ==> |out| <= |items| + 1)
            && (out != [] && out[|out| - 1].Chunk? ==> out == items)
            && (out == [] ==> items == [])
  {
    if !late(k) && items != [] && items[0].Chunk? {
      DeadlineShape(items[1..], late, k + 1);
      var rest := Deadline(items[1..], late, k + 1);
      assert Deadline(items, late, k) == [items[0]] + rest;
      assert items == [items[0]] + items[1..];
    }
  }

  /**
   Exactly as many items pass as are chunks and come in time; after the last of them the stream ends cleanly if the body
   has ended in time, and with one error otherwise.
   */
  lemma {:induction false} DeadlineCuts(items: seq<Item>, late: nat -> bool, k: nat) returns (n: nat)
    ensures n <= |items| && forall i :: 0 <= i < n ==> items[i].Chunk? && !late(k + i)
    ensures n < |items| && !late(k + n) ==> items[n].Fail?
    ensures Deadline(items, late, k) == items[..n] + if late(k + n) || n < |items| then [Fail(Io)] else []
  {
    n := 0;
    if !late(k) && items != [] && items[0].Chunk? {
      var rest := DeadlineCuts(items[1..], late, k + 1);
      n := rest + 1;
      forall i | 0 <= i < n ensures items[i].Chunk? && !late(k + i) {
        if i > 0 { assert items[i] == items[1..][i - 1] && !late(k + 1 + (i - 1)); }
      }
      assert items[..n] == [items[0]] + items[1..][..rest];
    }
  }

  /** A body without errors that is never late passes unchanged. */
  lemma PunctualBodyPasses(items: seq<Item>, late: nat -> bool)
    requires forall i :: 0 <= i < |items| ==> items[i].Chunk?
    requires forall k :: !late(k)
    ensures Deadline(items, late, 0) == items
  {
    var n := DeadlineCuts(items, late, 0);
    assert items[..|items|] == items;
  }

  /** The deadline only ever cuts a body short, and then it says so. */
  lemma {:induction false} DeadlineIsHonest(items: seq<Item>, late: nat -> bool, k: nat)
    ensures var before, after := Observe(items), Observe(Deadline(items, late, k));
            && after.bytes <= before.bytes
            && (after.error.None? ==> after == before)
            && (after.error.Some? ==> after.error.value == Io)
  {
    if !late(k) && items != [] && items[0].Chunk? {
      DeadlineIsHonest(items[1..], late, k + 1);
      var out := Deadline(items, late, k);
      assert out[0] == items[0] && out[1..] == Deadline(items[1..], late, k + 1);
    }
  }

  lemma DeadlineFits(items: seq<Item>, late: nat -> bool)
    requires ChunksFit(items)
    ensures ChunksFit(Deadline(items, late, 0))
  {
    DeadlineShape(items, late, 0);
  }

  // ---- Streams cut in two ----

  lemma {:induction false} ObserveConcat(a: seq<Item>, b: seq<Item>)
    ensures Observe(a + b) ==
            (if Observe(a).error.Some? then Observe(a) else Observation(Observe(a).bytes + Observe(b).bytes, Observe(b).error))
  {
    if a == [] {
      assert a + b == b;
    } else {
      assert (a + b)[0] == a[0] && (a + b)[1..] == a[1..] + b;
      ObserveConcat(a[1..], b);
      if a[0].Chunk? {
        assert a[0].bytes + (Observe(a[1..]).bytes + Observe(b).bytes) == a[0].bytes + Observe(a[1..]).bytes + Observe(b).bytes;
      }
    }
  }

  // ---- Sniffing ----

  const SNIFF: nat := 512

  datatype HandlerError =
    | BadRequest
    | BlockedFileType
    | InternalServerError
    | TooLarge
    | WrongSize
    | Denied
    | Storage(error: StorageError)

  /** What content inspection decides on a prefix: whether the file may be stored, and the type it detects. */
  datatype Inspector = Inspector(allowed: (string, Bytes) -> bool, detect: Bytes -> Option<string>)

  datatype Sniffed = Sniffed(body: seq<Item>, detected: Option<string>) | Rejected(error: HandlerError)

  /** The first bytes of a body, as many as are inspected. */
  function Prefix(bytes: Bytes): Bytes {
    if |bytes| <= SNIFF then bytes else bytes[..SNIFF]
  }

  lemma InspectsFirst512(bytes: Bytes)
    ensures Prefix(bytes) == if |bytes| <= 512 then bytes else bytes[..512]
  {
  }

  /** Whether sniffing fails, and why: a function of the bytes and the error the body would end with. */
  function SniffError(seen: Observation, filename: string, inspector: Inspector): Option<HandlerError> {
    if seen.error.Some? && |seen.bytes| < SNIFF then Some(InternalServerError)
    else if !inspector.allowed(filename, Prefix(seen.bytes)) then Some(BlockedFileType)
    else None
  }

  /**
   `sniff_and_validate`. However the body is chunked, exactly its first 512 bytes (or all, if there are fewer) are
   inspected; the rebuilt body carries the same bytes and the same late error as the original.
   */
  method SniffAndValidate(items: seq<Item>, filename: string, inspector: Inspector) returns (r: Sniffed)
    ensures match SniffError(Observe(items), filename, inspector)
            case Some(e) => r == Rejected(e)
            case None =>
              r.Sniffed? && Observe(r.body) == Observe(items) && r.detected == inspector.detect(Prefix(Observe(items).bytes))
    ensures r.Sniffed? && ChunksFit(items) ==> ChunksFit(r.body)
  {
    var prefix: Bytes := [];
    var tail: Option<Bytes> := None;
    var i := 0;
    while |prefix| < SNIFF && tail.None? && i < |items|
      invariant i <= |items| && |prefix| <= SNIFF
      invariant tail.Some? && ChunksFit(items) ==> |tail.value| <= CHUNK_MAX
      invariant tail.None? ==> Observe(items[..i]) == Observation(prefix, None)
      invariant tail.Some? ==> |prefix| == SNIFF && Observe(items[..i]) == Observation(prefix + tail.value, None)
      decreases |items| - i
    {
      ObserveSnoc(items, i);
      match items[i] {
        case Fail(e) =>
          FailureSeen(items, i);
          return Rejected(InternalServerError);
        case Chunk(chunk) =>
          if |chunk| >= SNIFF - |prefix| {
            var take := SNIFF - |prefix|;
            assert prefix + chunk == (prefix + chunk[..take]) + chunk[take..];
            prefix := prefix + chunk[..take];
            tail := Some(chunk[take..]);
          } else {
            prefix := prefix + chunk;
          }
      }
      i := i + 1;
    }
    var rest := items[i..];
    var chunks := [Chunk(prefix)];
    if tail.Some? {
      chunks := chunks + [Chunk(tail.value)];
    }
    SniffedWhole(items, i, chunks, prefix, tail);
    if !inspector.allowed(filename, prefix) {
      return Rejected(BlockedFileType);
    }
    return Sniffed(chunks + rest, inspector.detect(prefix));
  }

  /** What has been read is the part to inspect, and with the rest it makes up the body again. */
  lemma SniffedWhole(items: seq<Item>, i: nat, chunks: seq<Item>, prefix: Bytes, tail: Option<Bytes>)
    requires i <= |items| && |prefix| <= SNIFF && (|prefix| == SNIFF || i == |items|) && (tail.Some? ==> |prefix| == SNIFF)
    requires chunks == [Chunk(prefix)] + (if tail.Some? then [Chunk(tail.value)] else [])
    requires Observe(items[..i]) == Observation(if tail.Some? then prefix + tail.value else prefix, None)
    ensures Prefix(Observe(items).bytes) == prefix && Observe(chunks + items[i..]) == Observe(items)
    ensures Observe(items).error.Some? ==> |Observe(items).bytes| >= SNIFF
  {
    var rest := items[i..];
    assert items == items[..i] + rest;
    ObserveConcat(items[..i], rest);
    RebuiltBody(chunks, rest, prefix, tail);
    assert prefix + [] == prefix;
  }

  lemma ObserveSnoc(items: seq<Item>, i: nat)
    requires i < |items| && Observe(items[..i]).error.None?
    ensures Observe(items[..i + 1]) ==
            match items[i]
            case Fail(e) => Observation(Observe(items[..i]).bytes, Some(e))
            case Chunk(b) => Observation(Observe(items[..i]).bytes + b, None)
  {
    assert items[..i + 1] == items[..i] + [items[i]];
    ObserveConcat(items[..i], [items[i]]);
    assert [items[i]][1..] == [];
  }

  lemma FailureSeen(items: seq<Item>, i: nat)
    requires i < |items| && items[i].Fail? && Observe(items[..i]).error.None?
    ensures Observe(items) == Observation(Observe(items[..i]).bytes, Some(items[i].error))
  {
    assert items == items[..i] + items[i..];
    ObserveConcat(items[..i], items[i..]);
    assert Observe(items[i..]) == Observation([], Some(items[i].error));
  }

  lemma RebuiltBody(chunks: seq<Item>, rest: seq<Item>, prefix: Bytes, tail: Option<Bytes>)
    requires chunks == [Chunk(prefix)] + (if tail.Some? then [Chunk(tail.value)] else [])
    ensures Observe(chunks + rest) ==
            Observation(prefix + (if tail.Some? then tail.value else []) + Observe(rest).bytes, Observe(rest).error)
  {
    ObserveConcat(chunks, rest);
    if tail.Some? {
      assert chunks[1..] == [Chunk(tail.value)] && chunks[1..][1..] == [];
      assert prefix + (tail.value + []) == prefix + tail.value;
    } else {
      assert chunks[1..] == [];
      assert prefix + [] == prefix;
    }
  }

  // ---- The size check ----

  /** `sized_stream`, with `total` bytes already passed on. */
  function Sized(items: seq<Item>, maxSize: nat, exact: Option<nat>, total: nat): seq<Item> {
    if items == [] then
      if exact.Some? && exact.value != total then [Fail(SizeMismatch)] else []
    else match items[0]
      case Fail(_) => [Fail(Io)]
      case Chunk(b) =>
        var next := total + |b|;
        if next > U64_MAX then [Fail(PayloadTooLarge)]
        else if next > maxSize then [Fail(if exact.Some? then SizeMismatch else PayloadTooLarge)]
        else [items[0]] + Sized(items[1..], maxSize, exact, next)
  }

  /** A chunk takes the running total past 64 bits, before the size limit has ended the body. */
  predicate Overflows(items: seq<Item>, maxSize: nat, total: nat) {
    && items != [] && items[0].Chunk?
    && (total + |items[0].bytes| > U64_MAX
        || (total + |items[0].bytes| <= maxSize && Overflows(items[1..], maxSize, total + |items[0].bytes|)))
  }

  /** The verdict on a whole body: none, or the error it ends with. */
  function SizeVerdict(seen: Observation, maxSize: nat, exact: Option<nat>): Option<StorageError> {
    if |seen.bytes| > maxSize then Some(if exact.Some? then SizeMismatch else PayloadTooLarge)
    else if seen.error.Some? then Some(Io)
    else if exact.Some? && exact.value != |seen.bytes| then Some(SizeMismatch)
    else None
  }

  /** The size check passes a body unchanged or ends it with its verdict, whatever the chunks. */
  lemma {:induction false} SizedObservation(items: seq<Item>, maxSize: nat, exact: Option<nat>, total: nat)
    requires total <= maxSize
    ensures var before, after := Observe(items), Observe(Sized(items, maxSize, exact, total));
            && after.bytes <= before.bytes
            && after.error == (if Overflows(items, maxSize, total) then Some(PayloadTooLarge)
                               else SizeVerdict(Observation(before.bytes, before.error), maxSize - total,
                                                if exact.Some? && exact.value >= total then Some(exact.value - total)
                                                else if exact.Some? then Some(maxSize + 1) else None))
            && (after.error.None? ==> after == before)
    decreases |items|
  {
    if items != [] && items[0].Chunk? {
      var next := total + |items[0].bytes|;
      if next <= maxSize && next <= U64_MAX {
        SizedObservation(items[1..], maxSize, exact, next);
        var out := Sized(items, maxSize, exact, total);
        assert out[0] == items[0] && out[1..] == Sized(items[1..], maxSize, exact, next);
      }
    }
  }

  /** The size check on a whole body. */
  lemma SizedBody(items: seq<Item>, maxSize: nat, exact: Option<nat>)
    ensures var before, after := Observe(items), Observe(Sized(items, maxSize, exact, 0));
            && after.error == (if Overflows(items, maxSize, 0) then Some(PayloadTooLarge) else SizeVerdict(before, maxSize, exact))
            && (after.error.None? ==> after == before)
            && after.bytes <= before.bytes
  {
    SizedObservation(items, maxSize, exact, 0);
  }

  /** Bodies that overflow the counter are larger than any 64-bit limit, so only the name of their error differs. */
  lemma {:induction false} OverflowIsTooLong(items: seq<Item>, maxSize: nat, total: nat)
    requires Overflows(items, maxSize, total)
    ensures total + |Observe(items).bytes| > U64_MAX
  {
    if total + |items[0].bytes| <= U64_MAX {
      OverflowIsTooLong(items[1..], maxSize, total + |items[0].bytes|);
    }
  }

  /** While limit and chunks are far below 64 bits, nothing overflows. */
  lemma {:induction false} NeverOverflows(items: seq<Item>, maxSize: nat, total: nat)
    requires ChunksFit(items) && total <= maxSize && maxSize + CHUNK_MAX <= U64_MAX
    ensures !Overflows(items, maxSize, total)
    decreases |items|
  {
    if items != [] && items[0].Chunk? && total + |items[0].bytes| <= maxSize {
      assert ChunksFit(items[1..]);
      NeverOverflows(items[1..], maxSize, total + |items[0].bytes|);
    }
  }
}
