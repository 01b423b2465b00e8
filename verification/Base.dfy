/** Values shared by every part of the model: results, storage errors, and chunked byte streams. */
module Base {

  newtype byte = x: int | 0 <= x < 256
  type Bytes = seq<byte>

  const U64_MAX: nat := 0xFFFF_FFFF_FFFF_FFFF

  datatype Option<+T> = None | Some(value: T)

  datatype Result<+T> = Ok(value: T) | Err(error: StorageError)

  /** The storage errors; messages carried by `Io` are not modelled. */
  datatype StorageError =
    | NotFound
    | Conflict
    | PayloadTooLarge
    | SizeMismatch
    | InsufficientStorage
    | Forbidden
    | Io

  /** One item of a byte stream. */
  datatype Item = Chunk(bytes: Bytes) | Fail(error: StorageError)

  function Min(a: nat, b: nat): nat {
    if a < b then a else b
  }

  /** What a consumer that stops at the first error sees: the bytes before it, and the error. */
  datatype Observation = Observation(bytes: Bytes, error: Option<StorageError>)

  function Observe(items: seq<Item>): Observation {
    if items == [] then Observation([], None)
    else match items[0]
      case Fail(e) => Observation([], Some(e))
      case Chunk(b) =>
        var rest := Observe(items[1..]);
        Observation(b + rest.bytes, rest.error)
  }

  /** All the bytes carried by a stream. */
  function Body(items: seq<Item>): Bytes {
    if items == [] then []
    else (if items[0].Chunk? then items[0].bytes else []) + Body(items[1..])
  }

  lemma {:induction false} BodySnoc(items: seq<Item>, k: nat)
    requires k < |items|
    ensures Body(items[..k + 1]) == Body(items[..k]) + (if items[k].Chunk? then items[k].bytes else [])
  {
    if k == 0 {
      assert items[..1] == [items[0]] && items[..0] == [];
      assert items[..1][1..] == [];
    } else {
      BodySnoc(items[1..], k - 1);
      assert items[..k + 1][1..] == items[1..][..k];
      assert items[..k][1..] == items[1..][..k - 1];
      assert items[..k + 1][0] == items[0] == items[..k][0];
      assert items[1..][k - 1] == items[k];
      var first := if items[0].Chunk? then items[0].bytes else [];
      assert first + (Body(items[1..][..k - 1]) + (if items[k].Chunk? then items[k].bytes else []))
          == first + Body(items[1..][..k - 1]) + (if items[k].Chunk? then items[k].bytes else []);
    }
  }
}
