/** The base block: EDID_cl::ParseEDID_Base, its assembly, and the checksums. */
module BaseBlock {
  import opened Bytes
  import opened GroupTree
  import opened DataBlocks
  import opened Assembler
  import opened CeaImage
  import opened CeaParser

  // ---------------------------------------------------------------- parsing

  function Base(id: nat): Tid { Tid(id, 0, 0, 0, false, false) }
  function FixedBase(id: nat): Tid { Tid(id, 0, 0, 0, true, false) }

  /** ParseDetDtor: a pixel clock makes a descriptor a DTD, else its type byte decides; unknown types
      are kept as such. */
  function DescriptorTid(b: seq<Byte>, at: nat): Tid
    requires at + 18 <= |b|
  {
    if PixClk(b, at) != 0 then DTD
    else match b[at + 3]
      case 0xFA => Base(13) case 0xFB => Base(12) case 0xFC => Base(11)
      case 0xFD => Base(9) case 0xFE => Base(14) case 0xFF => Base(10)
      case _ => Base(15)
  }

  const SLOTS := 17

  /** Offset and size of the groups behind the first one. */
  function SlotAt(i: nat): nat
    requires i <= SLOTS
  {
    if i == 0 then 20 else if i == 1 then 21 else if i == 2 then 24 else if i == 3 then 25 else if i == 4 then 35
    else if i < 13 then 38 + 2 * (i - 5) else 54 + 18 * (i - 13)
  }

  function SlotSize(i: nat): nat
    requires i < SLOTS
  {
    if i == 0 || i == 2 then 1 else if i == 1 || i == 4 then 3 else if i == 3 then 10 else if i < 13 then 2 else 18
  }

  function SlotTid(b: seq<Byte>, i: nat): Tid
    requires i < SLOTS && |b| >= BLOCK_SIZE
  {
    if i < 5 then FixedBase(i + 2) else if i < 13 then FixedBase(7) else DescriptorTid(b, SlotAt(i))
  }

  /** A group without header part, n bytes at offset at. */
  function FlatGrp(b: seq<Byte>, tid: Tid, at: nat, n: nat, idx: nat): Grp
    requires at + n <= |b| && n <= 32
  {
    Grp(tid, b[at..at + n] + Zeros(32 - n), 0, n, at, at, idx, [], 0, Cap(tid))
  }

  /** The first group keeps two bytes of the end of the block besides its own 20. */
  function BedGrp(b: seq<Byte>): Grp
    requires |b| >= BLOCK_SIZE
  {
    Grp(BED, b[..20] + b[126..128] + Zeros(10), 20, 22, 0, 0, 0, [], 0, Cap(BED))
  }

  function SlotGrp(b: seq<Byte>, i: nat): Grp
    requires i < SLOTS && |b| >= BLOCK_SIZE
  {
    FlatGrp(b, SlotTid(b, i), SlotAt(i), SlotSize(i), i + 1)
  }

  function BaseGrps(b: seq<Byte>, n: nat): (r: seq<Grp>)
    requires n <= SLOTS && |b| >= BLOCK_SIZE
    ensures |r| == n + 1
  {
    [BedGrp(b)] + seq(n, i requires 0 <= i < n => SlotGrp(b, i))
  }

  const MAGIC: seq<Byte> := [0, 255, 255, 255, 255, 255, 255, 0]

  function ParseBase(b: seq<Byte>): Option<Tree>
    requires |b| >= BLOCK_SIZE
  {
    if b[..8] != MAGIC then None
    else
      var grps := BaseGrps(b, SLOTS);
      var used := GrpBytes(grps, |grps|);
      Some(Tree(grps, used, BASE_SPACE - used))
  }

  lemma {:induction false} BaseSnoc(b: seq<Byte>, n: nat)
    requires n < SLOTS && |b| >= BLOCK_SIZE
    ensures BaseGrps(b, n + 1) == BaseGrps(b, n) + [SlotGrp(b, n)]
  {
  }

  method AppendFlat(buff: array<Byte>, grps: seq<Grp>, tid: Tid, at: nat, n: nat, ghost i: nat) returns (r: seq<Grp>)
    requires buff.Length == BUFFER_SIZE && i < SLOTS && grps == BaseGrps(buff[..], i)
    requires at == SlotAt(i) && n == SlotSize(i) && tid == SlotTid(buff[..], i)
    ensures r == BaseGrps(buff[..], i + 1)
  {
    BaseSnoc(buff[..], i);
    assert buff[at..at + n] == buff[..][at..at + n];
    r := grps + [Grp(tid, buff[at..at + n] + Zeros(32 - n), 0, n, at, at, |grps|, [], 0, Cap(tid))];
  }

  /** The input, features, chromaticity and resolution groups. */
  method AppendFixed(buff: array<Byte>, grps0: seq<Grp>) returns (grps: seq<Grp>)
    requires buff.Length == BUFFER_SIZE && grps0 == BaseGrps(buff[..], 0)
    ensures grps == BaseGrps(buff[..], 5)
  {
    grps := AppendFlat(buff, grps0, FixedBase(2), 20, 1, 0);
    grps := AppendFlat(buff, grps, FixedBase(3), 21, 3, 1);
    grps := AppendFlat(buff, grps, FixedBase(4), 24, 1, 2);
    grps := AppendFlat(buff, grps, FixedBase(5), 25, 10, 3);
    grps := AppendFlat(buff, grps, FixedBase(6), 35, 3, 4);
  }

  method ParseEdidBase(buff: array<Byte>) returns (r: Option<Tree>)
    requires buff.Length == BUFFER_SIZE
    ensures r == ParseBase(buff[..])
  {
    ghost var b := buff[..];
    assert buff[..8] == b[..8];
    if buff[..8] != MAGIC { return None; }
    assert buff[..20] + buff[126..128] == b[..20] + b[126..128];
    var grps := [Grp(BED, buff[..20] + buff[126..128] + Zeros(10), 20, 22, 0, 0, 0, [], 0, Cap(BED))];
    assert grps == BaseGrps(b, 0);
    grps := AppendFixed(buff, grps);
    for itd := 0 to 8
      invariant grps == BaseGrps(b, 5 + itd)
    {
      grps := AppendFlat(buff, grps, FixedBase(7), 38 + 2 * itd, 2, 5 + itd);
    }
    for itd := 0 to 4
      invariant grps == BaseGrps(b, 13 + itd)
    {
      var tid := DescriptorTid(buff[..], 54 + 18 * itd);
      grps := AppendFlat(buff, grps, tid, 54 + 18 * itd, 18, 13 + itd);
    }
    var used := GrpBytes(grps, |grps|);
    return Some(Tree(grps, used, BASE_SPACE - used));
  }

  // ---------------------------------------------------------------- assembling it again

  predicate FlatPiece(g: Grp) {
    g.hdrSz == 0 && 1 <= g.datSz <= 32 && |g.inst| == 32 && g.subs == [] && g.tid != BED && g.tid != CHD
  }

  /** Base groups that fill the block: the first one, then groups without header part. */
  predicate BaseGood(grps: seq<Grp>) {
    && |grps| > 1 && grps[0].tid == BED && grps[0].hdrSz == 20 && |grps[0].inst| == 32 && grps[0].subs == []
    && FlatPieces(grps[1..]) && 20 + |FlatData(grps[1..])| == BASE_SPACE
  }

  predicate FlatPieces(grps: seq<Grp>) {
    forall i {:trigger grps[i]} :: 0 <= i < |grps| ==> FlatPiece(grps[i])
  }

  function FlatData(grps: seq<Grp>): seq<Byte>
    requires FlatPieces(grps)
  {
    if grps == [] then [] else grps[0].inst[..grps[0].datSz] + FlatData(grps[1..])
  }

  function BaseImage(grps: seq<Grp>): (b: seq<Byte>)
    requires BaseGood(grps)
    ensures |b| == BLOCK_SIZE
  {
    grps[0].inst[..20] + FlatData(grps[1..]) + grps[0].inst[20..22]
  }

  lemma {:induction false} FlatPlaces(grps: seq<Grp>)
    requires FlatPieces(grps)
    ensures forall g :: g in grps ==> Spawnable(g)
    ensures var ps := Pieces(grps);
            Small(ps) && NoTails(ps) && PieceData(ps) == FlatData(grps)
            && (grps != [] ==> ps != [] && LastBytes(ps) >= 1)
    decreases |grps|
  {
    if grps != [] {
      var g, rest := grps[0], grps[1..];
      FlatPlaces(rest);
      assert SubPieces(g.subs) == [];
      var ps := Pieces(grps);
      assert ps == [PieceOf(g)] + [] + Pieces(rest);
      assert ps[0] == PieceOf(g) && ps[1..] == Pieces(rest);
      if rest == [] { assert Pieces(rest) == []; } else { assert ps[|ps| - 1] == ps[1..][|ps| - 2]; }
    }
  }

  lemma {:induction false} BasePlaces(grps: seq<Grp>)
    requires BaseGood(grps)
    ensures Assemblable(grps)
    ensures var ps := Pieces(grps);
            |ps| > 1 && ps[0] == Piece(grps[0].inst[..20], grps[0].inst[20..22])
            && Small(ps[1..]) && NoTails(ps[1..]) && PieceData(ps[1..]) == FlatData(grps[1..]) && LastBytes(ps) >= 1
  {
    var g, rest := grps[0], grps[1..];
    FlatPlaces(rest);
    forall h | h in grps ensures Spawnable(h) {
      if h != g { assert h in rest; }
    }
    var ps := Pieces(grps);
    assert SubPieces(g.subs) == [];
    assert ps == [PieceOf(g)] + [] + Pieces(rest);
    assert ps[0] == PieceOf(g) && ps[1..] == Pieces(rest);
    assert ps[|ps| - 1] == ps[1..][|ps| - 2];
    PiecesSmall(grps);
  }

  lemma {:induction false} BaseWritten(buf: seq<Byte>, h: seq<Byte>, rest: seq<Byte>, tail: seq<Byte>)
    requires |buf| == BUFFER_SIZE && |h| == 20 && |rest| == 106 && |tail| == 2
    ensures Write(Write(Write(buf, 0, h), 126, tail), 20, rest) == Write(buf, 0, h + rest + tail)
  {
    var b1 := Write(buf, 0, h);
    var b2 := Write(b1, 126, tail);
    var l, r := Write(b2, 20, rest), Write(buf, 0, h + rest + tail);
    forall k | 0 <= k < |l| ensures l[k] == r[k] {
      WriteAt(buf, 0, h, k);
      WriteAt(b1, 126, tail, k);
      WriteAt(b2, 20, rest, k);
      WriteAt(buf, 0, h + rest + tail, k);
    }
  }

  /** Assembly of base groups that fill the block succeeds and writes their image, whatever the buffer
      held before. */
  lemma {:induction false} AssemblesBase(buf: seq<Byte>, grps: seq<Grp>)
    requires |buf| == BUFFER_SIZE && BaseGood(grps)
    ensures Assemblable(grps) && AssembleBase(buf, grps) == (true, Write(buf, 0, BaseImage(grps)))
  {
    BasePlaces(grps);
    var ps, h, rest, tail := Pieces(grps), grps[0].inst[..20], FlatData(grps[1..]), grps[0].inst[20..22];
    PlaceSucceeds(buf, 0, ps, 0, BASE_SPACE);
    assert PieceData(ps) == ps[0].bytes + PieceData(ps[1..]);
    PlaceWrites(PutPiece(buf, 0, ps[0]), 0, ps[1..], 20, BASE_SPACE - 20);
    BaseWritten(buf, h, rest, tail);
  }

  /** The groups from slot i on. */
  function SlotGrps(b: seq<Byte>, i: nat): (gs: seq<Grp>)
    requires |b| >= BLOCK_SIZE && i <= SLOTS
    ensures |gs| == SLOTS - i && forall k {:trigger gs[k]} :: 0 <= k < |gs| ==> gs[k] == SlotGrp(b, i + k)
    decreases SLOTS - i
  {
    if i == SLOTS then [] else [SlotGrp(b, i)] + SlotGrps(b, i + 1)
  }

  lemma {:induction false} FlatCons(g: Grp, rest: seq<Grp>)
    requires FlatPiece(g) && FlatPieces(rest)
    ensures FlatPieces([g] + rest) && FlatData([g] + rest) == g.inst[..g.datSz] + FlatData(rest)
  {
    assert ([g] + rest)[1..] == rest;
  }

  lemma {:induction false} SlotsFrom(b: seq<Byte>, i: nat)
    requires |b| >= BLOCK_SIZE && i <= SLOTS
    ensures FlatPieces(SlotGrps(b, i)) && SlotAt(i) <= 126 && FlatData(SlotGrps(b, i)) == b[SlotAt(i)..126]
    decreases SLOTS - i
  {
    if i < SLOTS {
      SlotsFrom(b, i + 1);
      SlotIsFlat(b, i);
      FlatCons(SlotGrp(b, i), SlotGrps(b, i + 1));
      SliceJoin(b, SlotAt(i), SlotAt(i + 1), 126);
    }
  }

  lemma {:induction false} SlotIsFlat(b: seq<Byte>, i: nat)
    requires |b| >= BLOCK_SIZE && i < SLOTS
    ensures FlatPiece(SlotGrp(b, i)) && SlotAt(i + 1) == SlotAt(i) + SlotSize(i) <= 126
    ensures SlotGrp(b, i).inst[..SlotSize(i)] == b[SlotAt(i)..SlotAt(i + 1)]
  {
  }

  /** A parsed base block fills the block, with the bytes it was read from. */
  lemma {:induction false} ParsedBase(b: seq<Byte>)
    requires |b| >= BLOCK_SIZE
    ensures BaseGood(BaseGrps(b, SLOTS)) && BaseImage(BaseGrps(b, SLOTS)) == b[..BLOCK_SIZE]
  {
    var grps := BaseGrps(b, SLOTS);
    SlotsFrom(b, 0);
    assert grps[1..] == SlotGrps(b, 0);
    assert grps[0].inst[..20] == b[..20] && grps[0].inst[20..22] == b[126..128];
    assert b[..20] + b[20..126] + b[126..128] == b[..BLOCK_SIZE];
  }

  lemma {:induction false} BaseUsed(b: seq<Byte>, n: nat)
    requires |b| >= BLOCK_SIZE && n <= SLOTS
    ensures GrpBytes(BaseGrps(b, SLOTS), n + 1) == SlotAt(n)
  {
    var grps := BaseGrps(b, SLOTS);
    if n == 0 {
      assert GrpBytes(grps, 1) == GrpBytes(grps, 0) + DataSize(grps[0]) + SubBytes(grps[0].subs, 0);
    } else {
      BaseUsed(b, n - 1);
      assert grps[n] == SlotGrp(b, n - 1);
      SlotIsFlat(b, n - 1);
    }
  }

  /** Every accepted base block is assembled into the bytes it was read from; its groups leave no
      free space. */
  lemma {:induction false} BaseIdentity(buf: seq<Byte>, t: Tree)
    requires |buf| == BUFFER_SIZE && ParseBase(buf) == Some(t)
    ensures Assemblable(t.grps) && AssembleBase(buf, t.grps) == (true, buf)
    ensures t.used == BASE_SPACE && t.free == 0
  {
    ParsedBase(buf);
    AssemblesBase(buf, t.grps);
    WriteFront(buf);
    BaseUsed(buf, SLOTS);
  }

  lemma {:induction false} WriteFront(buf: seq<Byte>)
    requires |buf| == BUFFER_SIZE
    ensures Write(buf, 0, buf[..BLOCK_SIZE]) == buf
  {
    assert buf[..BLOCK_SIZE] + buf[BLOCK_SIZE..] == buf;
  }

  // ---------------------------------------------------------------- the block in bytes

  /** A block is accepted exactly with the fixed pattern in its first eight bytes. */
  lemma {:induction false} BaseAccepted(b: seq<Byte>)
    requires |b| >= 128
    ensures ParseBase(b).Some?
       <==> b[0] == 0 && b[1] == 0xFF && b[2] == 0xFF && b[3] == 0xFF && b[4] == 0xFF && b[5] == 0xFF && b[6] == 0xFF
            && b[7] == 0
  {
    var h := b[..8];
    forall i | 0 <= i < 8 ensures h[i] == b[i] {}
    if forall i :: 0 <= i < 8 ==> h[i] == MAGIC[i] { assert h == MAGIC; }
  }

  /** The type of the 18-byte descriptor at at: a timing if one of its first two bytes is not zero, else by
      its fourth byte. */
  lemma {:induction false} DescriptorType(b: seq<Byte>, at: nat)
    requires at + 18 <= |b|
    ensures var tid := DescriptorTid(b, at);
            if b[at] != 0 || b[at + 1] != 0 then tid == Tid(8, 0, 0, 0, false, false)
            else tid == Tid(if b[at + 3] == 0xFD then 9 else if b[at + 3] == 0xFF then 10
                            else if b[at + 3] == 0xFC then 11 else if b[at + 3] == 0xFB then 12
                            else if b[at + 3] == 0xFA then 13 else if b[at + 3] == 0xFE then 14 else 15,
                            0, 0, 0, false, false)
  {
  }

  /** Group g is n bytes of b from at on. */
  predicate Spans(g: Grp, b: seq<Byte>, at: nat, n: nat) {
    && at + n <= |b| && n <= 32 && g.inst == b[at..at + n] + Zeros(32 - n) && g.hdrSz == 0 && g.datSz == n
    && g.abs == at && g.rel == at && g.subs == []
  }

  predicate SpansTyped(g: Grp, b: seq<Byte>, at: nat, n: nat, id: nat) {
    Spans(g, b, at, n) && g.tid == Tid(id, 0, 0, 0, true, false)
  }

  lemma {:induction false} SlotShown(b: seq<Byte>, t: Tree, i: nat)
    requires |b| >= 128 && ParseBase(b) == Some(t) && i < SLOTS
    ensures |t.grps| == 18 && t.grps[i + 1].idx == i + 1 && t.grps[i + 1].tid == SlotTid(b, i)
    ensures Spans(t.grps[i + 1], b, SlotAt(i), SlotSize(i))
  {
    assert t.grps[i + 1] == SlotGrp(b, i);
  }

  /** The header group: 20 bytes from the start, and the last two of the block; then the groups of fixed
      place, the eight standard timings, and the four descriptors. */
  lemma {:induction false} BaseTable(b: seq<Byte>, t: Tree)
    requires |b| >= 128 && ParseBase(b) == Some(t)
    ensures |t.grps| == 18 && forall i {:trigger t.grps[i]} :: 0 <= i < 18 ==> t.grps[i].idx == i
    ensures t.grps[0].tid == Tid(1, 0, 0, 0, true, false) && t.grps[0].inst == b[..20] + b[126..128] + Zeros(10)
    ensures t.grps[0].hdrSz == 20 && t.grps[0].datSz == 22 && t.grps[0].abs == 0
    ensures SpansTyped(t.grps[1], b, 20, 1, 2) && SpansTyped(t.grps[2], b, 21, 3, 3)
    ensures SpansTyped(t.grps[3], b, 24, 1, 4) && SpansTyped(t.grps[4], b, 25, 10, 5)
    ensures SpansTyped(t.grps[5], b, 35, 3, 6)
    ensures forall i {:trigger t.grps[6 + i]} :: 0 <= i < 8 ==> SpansTyped(t.grps[6 + i], b, 38 + 2 * i, 2, 7)
    ensures forall i {:trigger t.grps[14 + i]} :: 0 <= i < 4 ==>
      Spans(t.grps[14 + i], b, 54 + 18 * i, 18) && t.grps[14 + i].tid == DescriptorTid(b, 54 + 18 * i)
  {
    assert t.grps[0] == BedGrp(b);
    forall i {:trigger t.grps[i]} | 0 <= i < 18 ensures t.grps[i].idx == i {
      if i > 0 { SlotShown(b, t, i - 1); }
    }
    FixedShown(b, t);
    forall i {:trigger t.grps[6 + i]} | 0 <= i < 8 ensures SpansTyped(t.grps[6 + i], b, 38 + 2 * i, 2, 7) {
      SlotShown(b, t, 5 + i);
    }
    forall i {:trigger t.grps[14 + i]} | 0 <= i < 4
      ensures Spans(t.grps[14 + i], b, 54 + 18 * i, 18) && t.grps[14 + i].tid == DescriptorTid(b, 54 + 18 * i)
    {
      SlotShown(b, t, 13 + i);
    }
  }

  lemma {:induction false} FixedShown(b: seq<Byte>, t: Tree)
    requires |b| >= 128 && ParseBase(b) == Some(t)
    ensures |t.grps| == 18
    ensures SpansTyped(t.grps[1], b, 20, 1, 2) && SpansTyped(t.grps[2], b, 21, 3, 3)
    ensures SpansTyped(t.grps[3], b, 24, 1, 4) && SpansTyped(t.grps[4], b, 25, 10, 5)
    ensures SpansTyped(t.grps[5], b, 35, 3, 6)
  {
    SlotShown(b, t, 0);
    SlotShown(b, t, 1);
    SlotShown(b, t, 2);
    SlotShown(b, t, 3);
    SlotShown(b, t, 4);
  }

  /** Base groups are assembled exactly if the last piece starts before byte 126 and no byte up to it is left
      over. */
  lemma {:induction false} BaseAssemblesExact(buf: seq<Byte>, grps: seq<Grp>)
    requires |buf| == BUFFER_SIZE && Assemblable(grps)
    ensures var ps := Pieces(grps);
            AssembleBase(buf, grps).0
            <==> (ps == [] || |PieceData(ps)| - LastBytes(ps) < 126) && |PieceData(ps)| >= 126
  {
    PlaceSucceeds(buf, 0, Pieces(grps), 0, BASE_SPACE);
  }
}
