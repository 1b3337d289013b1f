/** Vocabulary shared by every part of the model. */
module Basics {

  type Byte = b: int | 0 <= b < 256
  type Bytes = seq<Byte>

  const U32_MODULUS: nat := 0x1_0000_0000
  const U64_MODULUS: nat := 0x1_0000_0000_0000_0000

  datatype Option<+T> = None | Some(value: T)

  /** A BLAKE3 digest, taken to be injective: it is identified by the bytes it was computed from.
      A streaming hasher is then a growing byte sequence. */
  datatype Digest = Digest(hashed: Bytes)

  function Min(a: int, b: int): int {
    if a <= b then a else b
  }

  function Max(a: int, b: int): int {
    if a <= b then b else a
  }

  /** Concatenation of a list of blocks. */
  function Flatten(blocks: seq<Bytes>): Bytes {
    if blocks == [] then [] else blocks[0] + Flatten(blocks[1..])
  }

  lemma {:induction false} FlattenAppend(xs: seq<Bytes>, ys: seq<Bytes>)
    ensures Flatten(xs + ys) == Flatten(xs) + Flatten(ys)
  {
    if xs == [] {
      assert xs + ys == ys;
    } else {
      var tail := xs[1..];
      FlattenAppend(tail, ys);
      assert (xs + ys)[1..] == tail + ys && (xs + ys)[0] == xs[0];
      assert xs[0] + (Flatten(tail) + Flatten(ys)) == (xs[0] + Flatten(tail)) + Flatten(ys);
    }
  }

  lemma FlattenSnoc(xs: seq<Bytes>, x: Bytes)
    ensures Flatten(xs + [x]) == Flatten(xs) + x
  {
    FlattenAppend(xs, [x]);
    assert Flatten([x]) == x;
  }
}
