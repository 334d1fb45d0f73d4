/** Bytes of the EDID buffer, and the two ways lists of them are glued together. */
module Bytes {

  type Byte = x: int | 0 <= x < 256

  datatype Option<T> = None | Some(value: T)

  /** The EDID buffer: sixteen blocks of 128 bytes. */
  const BUFFER_SIZE := 2048

  /** The blocks one after another. */
  function Concat(blocks: seq<seq<Byte>>): seq<Byte> {
    if blocks == [] then [] else blocks[0] + Concat(blocks[1..])
  }

  lemma {:induction false} ConcatAppend(a: seq<seq<Byte>>, b: seq<seq<Byte>>)
    ensures Concat(a + b) == Concat(a) + Concat(b)
  {
    if a == [] {
      assert a + b == b;
    } else {
      assert (a + b)[0] == a[0] && (a + b)[1..] == a[1..] + b;
      ConcatAppend(a[1..], b);
    }
  }

  lemma {:induction false} ConcatOne(a: seq<Byte>)
    ensures Concat([a]) == a
  {
    assert Concat([a]) == a + Concat([a][1..]);
  }

  lemma {:induction false} Glue(a: seq<Byte>, b: seq<Byte>, c: seq<Byte>)
    ensures a + (b + c) == (a + b) + c
  {
  }

  lemma {:induction false} CutFirst(rest: seq<Byte>, d: seq<Byte>, e: seq<Byte>)
    requires d != [] && rest == d + e
    ensures rest[0] == d[0] && rest[..|d|] == d && rest[|d|..] == e
  {
  }

  lemma {:induction false} Rejoin(s: seq<Byte>, n: nat)
    requires n <= |s|
    ensures s[..n] + s[n..] == s
  {
  }

  lemma {:induction false} SliceJoin(s: seq<Byte>, a: nat, b: nat, c: nat)
    requires a <= b <= c <= |s|
    ensures s[a..b] + s[b..c] == s[a..c]
  {
  }

  /** n zero bytes. */
  function Zeros(n: nat): (z: seq<Byte>)
    ensures |z| == n && forall i :: 0 <= i < n ==> z[i] == 0
  {
    seq(n, _ => 0)
  }

  /** Bits 4..0 of a data-block header: the payload length (bhdr_t.tag.blk_len). */
  function BlkLen(b: Byte): (n: nat)
    ensures n < 32
  {
    b % 32
  }

  /** Bits 7..5 of a data-block header (bhdr_t.tag.tag_code). */
  function TagCode(b: Byte): (n: nat)
    ensures n < 8
  {
    b / 32
  }
}
