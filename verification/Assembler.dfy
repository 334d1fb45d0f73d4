/** EDID_cl::AssembleEDID: copying the groups of a block back into the EDID buffer. */
module Assembler {
  import opened Bytes
  import opened GroupTree
  import opened GroupContent
  import opened BlockSplit
  import opened DataBlocks

  const BED := Tid(1, 0, 0, 0, true, false)

  /** What SpawnInstance copies: the bytes at the write position, and for the two header groups the
      last bytes of the block counted from that position. */
  datatype Piece = Piece(bytes: seq<Byte>, tail: seq<Byte>)

  predicate Spawnable(g: Grp) {
    && |g.inst| == 32 && 0 <= DataSize(g) <= 32
    && (g.tid == CHD || g.tid == BED ==> g.hdrSz + (if g.tid == CHD then 1 else 2) <= 32)
    && forall k {:trigger g.subs[k]} :: 0 <= k < |g.subs| ==> |g.subs[k].bytes| <= 32
  }

  function PieceOf(g: Grp): (p: Piece)
    requires Spawnable(g)
    ensures |p.bytes| <= 32 && |p.tail| <= 2
  {
    Piece(g.inst[..DataSize(g)],
          if g.tid == CHD then g.inst[g.hdrSz..g.hdrSz + 1]
          else if g.tid == BED then g.inst[g.hdrSz..g.hdrSz + 2] else [])
  }

  function SubPieces(subs: seq<Sub>): (ps: seq<Piece>)
    ensures |ps| == |subs| && forall k :: 0 <= k < |ps| ==> ps[k] == Piece(subs[k].bytes, [])
  {
    seq(|subs|, k requires 0 <= k < |subs| => Piece(subs[k].bytes, []))
  }

  /** The pieces in the order they are copied: each group, then its sub-groups. */
  function Pieces(grps: seq<Grp>): seq<Piece>
    requires forall g :: g in grps ==> Spawnable(g)
  {
    if grps == [] then [] else [PieceOf(grps[0])] + SubPieces(grps[0].subs) + Pieces(grps[1..])
  }

  /** memcpy */
  function Write(buf: seq<Byte>, at: nat, bytes: seq<Byte>): (r: seq<Byte>)
    requires at + |bytes| <= |buf|
    ensures |r| == |buf|
  {
    buf[..at] + bytes + buf[at + |bytes|..]
  }

  function PutPiece(buf: seq<Byte>, at: nat, p: Piece): (r: seq<Byte>)
    requires at + 160 <= |buf| && |p.bytes| <= 32 && |p.tail| <= 2
    ensures |r| == |buf|
  {
    Write(Write(buf, at, p.bytes), at + BLOCK_SIZE - |p.tail|, p.tail)
  }

  datatype Placed = Placed(ok: bool, buf: seq<Byte>, offs: nat, left: int)

  predicate Small(ps: seq<Piece>) {
    forall k {:trigger ps[k]} :: 0 <= k < |ps| ==> |ps[k].bytes| <= 32 && |ps[k].tail| <= 2
  }

  /** The copy loop from offset offs of the block at base, with left bytes of room: it gives up when
      no room is left before a piece, however small. */
  function Place(buf: seq<Byte>, base: nat, ps: seq<Piece>, offs: nat, left: int): Placed
    requires Small(ps) && offs + left <= BLOCK_SIZE && base + 288 <= |buf|
    decreases |ps|
  {
    if ps == [] then Placed(true, buf, offs, left)
    else if left <= 0 then Placed(false, buf, offs, left)
    else Place(PutPiece(buf, base + offs, ps[0]), base, ps[1..], offs + |ps[0].bytes|, left - |ps[0].bytes|)
  }

  lemma {:induction false} PiecesSmall(grps: seq<Grp>)
    requires forall g :: g in grps ==> Spawnable(g)
    ensures Small(Pieces(grps))
    decreases |grps|
  {
    if grps != [] {
      PiecesSmall(grps[1..]);
      var (a, b, c) := ([PieceOf(grps[0])], SubPieces(grps[0].subs), Pieces(grps[1..]));
      forall k {:trigger (a + b + c)[k]} | 0 <= k < |a + b + c|
        ensures |(a + b + c)[k].bytes| <= 32 && |(a + b + c)[k].tail| <= 2
      {
        if 1 <= k < 1 + |b| { assert grps[0].subs[k - 1].bytes == b[k - 1].bytes; }
      }
    }
  }

  // ---------------------------------------------------------------- the loops

  method CopyBytes(buff: array<Byte>, at: nat, bytes: seq<Byte>)
    requires at + |bytes| <= buff.Length
    modifies buff
    ensures buff[..] == Write(old(buff[..]), at, bytes)
  {
    ghost var buf := buff[..];
    WriteNone(buf, at, bytes);
    for i := 0 to |bytes|
      invariant buff[..] == Write(buf, at, bytes[..i])
    {
      WriteNext(buf, at, bytes, i);
      buff[at + i] := bytes[i];
    }
    assert bytes[..|bytes|] == bytes;
  }

  lemma {:induction false} WriteNone(buf: seq<Byte>, at: nat, bytes: seq<Byte>)
    requires at <= |buf|
    ensures Write(buf, at, bytes[..0]) == buf
  {
  }

  lemma {:induction false} WriteNext(buf: seq<Byte>, at: nat, bytes: seq<Byte>, i: nat)
    requires at + |bytes| <= |buf| && i < |bytes|
    ensures Write(buf, at, bytes[..i])[at + i := bytes[i]] == Write(buf, at, bytes[..i + 1])
  {
  }

  /** SpawnInstance with its overrides for the two header groups. */
  method SpawnInstance(buff: array<Byte>, at: nat, p: Piece)
    requires at + 160 <= buff.Length && |p.bytes| <= 32 && |p.tail| <= 2
    modifies buff
    ensures buff[..] == PutPiece(old(buff[..]), at, p)
  {
    CopyBytes(buff, at, p.bytes);
    CopyBytes(buff, at + BLOCK_SIZE - |p.tail|, p.tail);
  }

  /** Placing a and then b is placing a + b. */
  lemma {:induction false} PlaceAppend(buf: seq<Byte>, base: nat, a: seq<Piece>, b: seq<Piece>, offs: nat, left: int)
    requires Small(a) && Small(b) && Small(a + b) && offs + left <= BLOCK_SIZE && base + 288 <= |buf|
    ensures var r := Place(buf, base, a, offs, left);
            r.offs + r.left == offs + left && |r.buf| == |buf|
            && Place(buf, base, a + b, offs, left) == if r.ok then Place(r.buf, base, b, r.offs, r.left) else r
    decreases |a|
  {
    if a == [] {
      assert a + b == b;
    } else if left > 0 {
      assert (a + b)[0] == a[0] && (a + b)[1..] == a[1..] + b;
      PlaceAppend(PutPiece(buf, base + offs, a[0]), base, a[1..], b, offs + |a[0].bytes|, left - |a[0].bytes|);
    }
  }

  /** The copy loop that ends with whole has pieces ps to go. */
  ghost predicate Placing(whole: Placed, buf: seq<Byte>, base: nat, ps: seq<Piece>, offs: nat, left: int) {
    Small(ps) && offs + left <= BLOCK_SIZE && base + 288 <= |buf| && whole == Place(buf, base, ps, offs, left)
  }

  lemma {:induction false} PlacingStep(whole: Placed, buf: seq<Byte>, base: nat, ps: seq<Piece>, offs: nat, left: int)
    requires Placing(whole, buf, base, ps, offs, left) && ps != []
    ensures left <= 0 ==> whole == Placed(false, buf, offs, left)
    ensures left > 0 ==> base + offs + 160 <= |buf| && |ps[0].bytes| <= 32 && |ps[0].tail| <= 2
    ensures left > 0 ==>
      var n := |ps[0].bytes|; Placing(whole, PutPiece(buf, base + offs, ps[0]), base, ps[1..], offs + n, left - n)
  {
    SmallTail(ps);
  }

  /** The loop over the sub-groups of one group. */
  method AssembleSubs(buff: array<Byte>, base: nat, subs: seq<Sub>, offs0: nat, left0: int, ghost whole: Placed)
    returns (ok: bool, offs: nat, left: int)
    requires buff.Length == BUFFER_SIZE && base <= 384 && Placing(whole, buff[..], base, SubPieces(subs), offs0, left0)
    modifies buff
    ensures Placed(ok, buff[..], offs, left) == whole && offs + left == offs0 + left0
  {
    ok, offs, left := false, offs0, left0;
    ghost var ps := SubPieces(subs);
    assert ps[0..] == ps;
    var k := 0;
    while k < |subs|
      invariant k <= |subs| && offs + left == offs0 + left0 && Placing(whole, buff[..], base, ps[k..], offs, left)
    {
      PlacingStep(whole, buff[..], base, ps[k..], offs, left);
      assert ps[k..][0] == Piece(subs[k].bytes, []) && ps[k..][1..] == ps[k + 1..];
      if left <= 0 { return; }
      SpawnInstance(buff, base + offs, Piece(subs[k].bytes, []));
      offs := offs + |subs[k].bytes|;
      left := left - |subs[k].bytes|;
      k := k + 1;
    }
    ok := true;
  }

  /** One group and its sub-groups. */
  method AssembleGroup(buff: array<Byte>, base: nat, g: Grp, offs0: nat, left0: int, ghost whole: Placed)
    returns (ok: bool, offs: nat, left: int)
    requires buff.Length == BUFFER_SIZE && base <= 384 && Spawnable(g)
    requires Placing(whole, buff[..], base, [PieceOf(g)] + SubPieces(g.subs), offs0, left0)
    modifies buff
    ensures Placed(ok, buff[..], offs, left) == whole && offs + left == offs0 + left0
  {
    ghost var ps := [PieceOf(g)] + SubPieces(g.subs);
    assert ps[0] == PieceOf(g) && ps[1..] == SubPieces(g.subs);
    PlacingStep(whole, buff[..], base, ps, offs0, left0);
    if left0 <= 0 { return false, offs0, left0; }
    var p := PieceOf(g);
    SpawnInstance(buff, base + offs0, p);
    ok, offs, left := AssembleSubs(buff, base, g.subs, offs0 + |p.bytes|, left0 - |p.bytes|, whole);
  }

  lemma {:induction false} SmallTail(ps: seq<Piece>)
    requires Small(ps) && ps != []
    ensures Small(ps[1..])
  {
    forall k {:trigger ps[1..][k]} | 0 <= k < |ps[1..]| ensures |ps[1..][k].bytes| <= 32 && |ps[1..][k].tail| <= 2 {
      assert ps[1..][k] == ps[k + 1];
    }
  }

  /** The loop over the groups of one block. */
  method AssembleGroups(buff: array<Byte>, base: nat, grps: seq<Grp>, space: nat)
    returns (ok: bool, offs: nat, left: int)
    requires buff.Length == BUFFER_SIZE && base <= 384 && space <= BLOCK_SIZE
    requires (forall g :: g in grps ==> Spawnable(g)) && Small(Pieces(grps))
    modifies buff
    ensures Placed(ok, buff[..], offs, left) == Place(old(buff[..]), base, Pieces(grps), 0, space)
    ensures offs + left == space
  {
    ok, offs, left := false, 0, space;
    ghost var whole := Place(buff[..], base, Pieces(grps), 0, space);
    var i := 0;
    assert grps[0..] == grps;
    while i < |grps|
      invariant i <= |grps| && offs + left == space && Small(Pieces(grps[i..]))
      invariant Place(buff[..], base, Pieces(grps[i..]), offs, left) == whole
    {
      ghost var (g, rest) := (grps[i], grps[i + 1..]);
      assert grps[i..][0] == g && grps[i..][1..] == rest;
      ghost var a := [PieceOf(g)] + SubPieces(g.subs);
      PiecesSmall(rest);
      PiecesSmall([g]);
      assert Pieces([g]) == a + Pieces([]) == a;
      PlaceAppend(buff[..], base, a, Pieces(rest), offs, left);
      ok, offs, left := AssembleGroup(buff, base, grps[i], offs, left, Place(buff[..], base, a, offs, left));
      if !ok { return; }
      i := i + 1;
    }
    ok := true;
  }

  // ---------------------------------------------------------------- the two blocks

  /** CEA_Set_DTD_Offset: the cached relative offset of the first DTD behind the header, or 0. */
  function DtdOffset(grps: seq<Grp>, i: nat): int
    decreases |grps| - i
  {
    if i >= |grps| then 0 else if IsDtdType(grps[i].tid) then grps[i].rel else DtdOffset(grps, i + 1)
  }

  method SetDtdOffset(buff: array<Byte>, grps: seq<Grp>)
    requires buff.Length == BUFFER_SIZE
    modifies buff
    ensures buff[..] == old(buff[..])[BLOCK_SIZE + 2 := DtdOffset(grps, 1) % 256]
  {
    var dtdOffs, numDtd, idx := 0, 0, 1;
    while idx < |grps|
      invariant idx >= 1 && numDtd >= 0
      invariant DtdOffset(grps, 1) == if numDtd == 0 then DtdOffset(grps, idx) else dtdOffs
      invariant numDtd == 0 ==> dtdOffs == 0
    {
      if IsDtdType(grps[idx].tid) {
        if numDtd == 0 { dtdOffs := grps[idx].rel; }
        numDtd := numDtd + 1;
      }
      idx := idx + 1;
    }
    buff[BLOCK_SIZE + 2] := dtdOffs % 256;
  }

  predicate Assemblable(grps: seq<Grp>) {
    (forall g :: g in grps ==> Spawnable(g)) && Small(Pieces(grps))
  }

  /** The DTD offset, then zeros up to the checksum byte. */
  function FinishCea(r: Placed, dtdOffs: int): (f: (bool, seq<Byte>))
    requires |r.buf| == BUFFER_SIZE && r.offs + r.left <= BLOCK_SIZE
    ensures |f.1| == BUFFER_SIZE
  {
    if !r.ok then (false, r.buf)
    else
      var b := r.buf[BLOCK_SIZE + 2 := dtdOffs % 256];
      (true, if r.left > 0 then Write(b, BLOCK_SIZE + r.offs, Zeros(r.left)) else b)
  }

  /** The CEA block of the buffer: the groups, then what is left to fill in. */
  function AssembleCea(buf: seq<Byte>, grps: seq<Grp>): (r: (bool, seq<Byte>))
    requires |buf| == BUFFER_SIZE && Assemblable(grps)
    ensures |r.1| == BUFFER_SIZE
  {
    PlaceAppend(buf, BLOCK_SIZE, Pieces(grps), [], 0, CEA_SPACE);
    FinishCea(Place(buf, BLOCK_SIZE, Pieces(grps), 0, CEA_SPACE), DtdOffset(grps, 1))
  }

  method AssembleCeaBlock(buff: array<Byte>, grps: seq<Grp>) returns (ok: bool)
    requires buff.Length == BUFFER_SIZE && Assemblable(grps)
    modifies buff
    ensures (ok, buff[..]) == AssembleCea(old(buff[..]), grps)
  {
    var offs, left;
    ok, offs, left := AssembleGroups(buff, BLOCK_SIZE, grps, CEA_SPACE);
    if !ok { return; }
    SetDtdOffset(buff, grps);
    if left > 0 { CopyBytes(buff, BLOCK_SIZE + offs, Zeros(left)); }
  }

  const BASE_SPACE := 126

  /** The base block; it fails too when bytes are missing at its end. */
  function AssembleBase(buf: seq<Byte>, grps: seq<Grp>): (r: (bool, seq<Byte>))
    requires |buf| == BUFFER_SIZE && Assemblable(grps)
    ensures |r.1| == BUFFER_SIZE
  {
    PlaceAppend(buf, 0, Pieces(grps), [], 0, BASE_SPACE);
    var r := Place(buf, 0, Pieces(grps), 0, BASE_SPACE);
    (r.ok && r.left <= 0, r.buf)
  }

  /** AssembleEDID over the valid blocks; the arrays of blocks 2 and 3 hold no groups. */
  function Assemble(buf: seq<Byte>, base: seq<Grp>, cea: seq<Grp>, blocks: nat): (r: (bool, seq<Byte>))
    requires |buf| == BUFFER_SIZE && Assemblable(base) && Assemblable(cea)
    ensures |r.1| == BUFFER_SIZE
  {
    if blocks == 0 then (true, buf)
    else
      var (o, b) := AssembleBase(buf, base);
      if o && blocks >= 2 then AssembleCea(b, cea) else (o, b)
  }

  method AssembleEdid(buff: array<Byte>, base: seq<Grp>, cea: seq<Grp>, blocks: nat) returns (ok: bool)
    requires buff.Length == BUFFER_SIZE && Assemblable(base) && Assemblable(cea) && blocks <= 4
    modifies buff
    ensures (ok, buff[..]) == Assemble(old(buff[..]), base, cea, blocks)
  {
    ok := true;
    if blocks == 0 { return; }
    var offs, left;
    ok, offs, left := AssembleGroups(buff, 0, base, BASE_SPACE);
    if !ok || left > 0 { return false; }
    if blocks >= 2 { ok := AssembleCeaBlock(buff, cea); }
  }

  // ---------------------------------------------------------------- when copying succeeds

  /** The bytes of the pieces one after another. */
  function PieceData(ps: seq<Piece>): seq<Byte> {
    if ps == [] then [] else ps[0].bytes + PieceData(ps[1..])
  }

  function LastBytes(ps: seq<Piece>): nat {
    if ps == [] then 0 else |ps[|ps| - 1].bytes|
  }

  /** Copying succeeds exactly when the last piece, also an empty one, starts before the room ends. */
  predicate Enough(ps: seq<Piece>, left: int) {
    ps == [] || |PieceData(ps)| - LastBytes(ps) < left
  }

  lemma {:induction false} PlaceSucceeds(buf: seq<Byte>, base: nat, ps: seq<Piece>, offs: nat, left: int)
    requires Small(ps) && offs + left <= BLOCK_SIZE && base + 288 <= |buf|
    ensures var r := Place(buf, base, ps, offs, left);
            (r.ok <==> Enough(ps, left))
            && (r.ok ==> r.offs == offs + |PieceData(ps)| && r.left == left - |PieceData(ps)|)
    decreases |ps|
  {
    if ps != [] {
      SmallTail(ps);
      DataLast(ps[1..]);
      if left > 0 {
        PlaceSucceeds(PutPiece(buf, base + offs, ps[0]), base, ps[1..], offs + |ps[0].bytes|, left - |ps[0].bytes|);
      }
    }
  }

  lemma {:induction false} DataLast(ps: seq<Piece>)
    ensures |PieceData(ps)| >= LastBytes(ps)
    decreases |ps|
  {
    if |ps| > 1 {
      DataLast(ps[1..]);
      assert ps[1..][|ps| - 2] == ps[|ps| - 1];
    }
  }

  predicate NoTails(ps: seq<Piece>) {
    forall k {:trigger ps[k]} :: 0 <= k < |ps| ==> |ps[k].tail| == 0
  }

  lemma {:induction false} WriteTwice(buf: seq<Byte>, at: nat, a: seq<Byte>, b: seq<Byte>)
    requires at + |a| + |b| <= |buf|
    ensures Write(Write(buf, at, a), at + |a|, b) == Write(buf, at, a + b)
  {
    var w := Write(buf, at, a);
    assert w[..at + |a|] == buf[..at] + a;
    assert w[at + |a| + |b|..] == buf[at + |a| + |b|..];
    assert at + |a + b| == at + |a| + |b|;
  }

  /** Pieces without a tail end up one behind the other and nothing else changes. */
  lemma {:induction false} PlaceWrites(buf: seq<Byte>, base: nat, ps: seq<Piece>, offs: nat, left: int)
    requires Small(ps) && NoTails(ps) && left >= -32 && offs + left <= BLOCK_SIZE && base + 288 <= |buf|
    requires Place(buf, base, ps, offs, left).ok
    ensures base + offs + |PieceData(ps)| <= |buf|
    ensures Place(buf, base, ps, offs, left).buf == Write(buf, base + offs, PieceData(ps))
    decreases |ps|
  {
    if ps != [] {
      SmallTail(ps);
      PutNoTail(buf, base + offs, ps[0]);
      NoTailsTail(ps);
      var b := Write(buf, base + offs, ps[0].bytes);
      PlaceWrites(b, base, ps[1..], offs + |ps[0].bytes|, left - |ps[0].bytes|);
      WriteTwice(buf, base + offs, ps[0].bytes, PieceData(ps[1..]));
    } else {
      assert PieceData(ps) == [];
      assert buf[..base + offs] + [] + buf[base + offs..] == buf;
    }
  }

  lemma {:induction false} NoTailsTail(ps: seq<Piece>)
    requires NoTails(ps) && ps != []
    ensures NoTails(ps[1..])
  {
    forall k {:trigger ps[1..][k]} | 0 <= k < |ps[1..]| ensures |ps[1..][k].tail| == 0 {
      assert ps[1..][k] == ps[k + 1];
    }
  }

  lemma {:induction false} PutNoTail(buf: seq<Byte>, at: nat, p: Piece)
    requires at + 160 <= |buf| && |p.bytes| <= 32 && |p.tail| == 0
    ensures PutPiece(buf, at, p) == Write(buf, at, p.bytes)
  {
    var b := Write(buf, at, p.bytes);
    assert p.tail == [];
    assert b[..at + BLOCK_SIZE] + [] + b[at + BLOCK_SIZE..] == b;
  }
}
