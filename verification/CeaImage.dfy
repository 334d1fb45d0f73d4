/** What assembly makes of the CEA block: every byte of it, from the contents alone. */
module CeaImage {
  import opened Bytes
  import opened GroupTree
  import opened GroupContent
  import opened BlockSplit
  import opened DataBlocks
  import opened Assembler

  // ---------------------------------------------------------------- the image of a block

  /** The bytes of the first n groups. */
  function Data(cs: Contents, n: nat): (d: seq<Byte>)
    requires Sound(cs) && n <= |cs|
    ensures |d| == Start(cs, n)
  {
    if n == 0 then [] else Data(cs, n - 1) + GrpData(cs[n - 1])
  }

  /** The first DTD from group i on, or the number of groups. */
  function FirstDtd(cs: Contents, i: nat): (f: nat)
    requires i <= |cs|
    ensures i <= f <= |cs| && (f < |cs| ==> IsDtd(cs[f]))
    ensures forall k {:trigger cs[k]} :: i <= k < f ==> !IsDtd(cs[k])
    decreases |cs| - i
  {
    if i == |cs| || IsDtd(cs[i]) then i else FirstDtd(cs, i + 1)
  }

  /** The DTD offset in the header: 0 without DTDs, even if there are data blocks. */
  function DtdStart(cs: Contents): nat
    requires |cs| >= 1
  {
    var f := FirstDtd(cs, 1);
    if f == |cs| then 0 else Start(cs, f)
  }

  /** The groups, zeros, and the checksum byte the header group keeps. */
  function Image(cs: Contents): (b: seq<Byte>)
    requires Sound(cs)
    ensures |b| == BLOCK_SIZE
  {
    (Data(cs, |cs|) + Zeros(CEA_SPACE - Start(cs, |cs|)) + [cs[0].inst[4]])[2 := DtdStart(cs) % 256]
  }

  /** The last piece to copy holds no byte: a VDDD part at the end. */
  predicate EndsEmpty(cs: Contents)
    requires cs != []
  {
    var subs := cs[|cs| - 1].subs;
    subs != [] && subs[|subs| - 1].bytes == []
  }

  // ---------------------------------------------------------------- pieces of rendered contents

  lemma {:induction false} SubFitsIn(subs: seq<SubC>, k: nat)
    requires k < |subs|
    ensures |subs[k].bytes| <= SubStart(subs, |subs|)
    decreases |subs|
  {
    SubStartUp(subs, k + 1, |subs|);
  }

  lemma {:induction false} SubStartUp(subs: seq<SubC>, k: nat, n: nat)
    requires k <= n <= |subs|
    ensures SubStart(subs, k) <= SubStart(subs, n)
  {
    if k < n { SubStartUp(subs, k, n - 1); }
  }

  lemma {:induction false} RenderedSpawnable(c: GrpC, at: nat, i: nat)
    requires IsHdr(c) || IsBlock(c)
    ensures Spawnable(RenderGrp(c, at, i))
  {
    var g := RenderGrp(c, at, i);
    forall k {:trigger g.subs[k]} | 0 <= k < |g.subs| ensures |g.subs[k].bytes| <= 32 {
      SubFitsIn(c.subs, k);
    }
  }

  lemma {:induction false} AllSpawnable(cs: Contents)
    requires Sound(cs)
    ensures forall g :: g in RenderGrps(cs) ==> Spawnable(g)
    ensures Assemblable(RenderGrps(cs))
  {
    var grps := RenderGrps(cs);
    forall g | g in grps ensures Spawnable(g) {
      var i :| 0 <= i < |grps| && grps[i] == g;
      assert g == RenderAt(cs, i) && (i >= 1 ==> IsBlock(cs[i]));
      RenderedSpawnable(cs[i], Start(cs, i), i);
    }
    PiecesSmall(grps);
  }

  lemma {:induction false} PieceDataAppend(a: seq<Piece>, b: seq<Piece>)
    ensures PieceData(a + b) == PieceData(a) + PieceData(b)
    decreases |a|
  {
    if a == [] {
      assert a + b == b;
    } else {
      assert (a + b)[0] == a[0] && (a + b)[1..] == a[1..] + b;
      PieceDataAppend(a[1..], b);
      assert a[0].bytes + (PieceData(a[1..]) + PieceData(b)) == (a[0].bytes + PieceData(a[1..])) + PieceData(b);
    }
  }

  lemma {:induction false} SubPiecesData(subs: seq<Sub>, cs: seq<SubC>)
    requires |subs| == |cs| && forall k {:trigger subs[k]} :: 0 <= k < |subs| ==> subs[k].bytes == cs[k].bytes
    ensures PieceData(SubPieces(subs)) == AllSubData(cs)
    decreases |subs|
  {
    if subs != [] {
      SubPiecesData(subs[1..], cs[1..]);
      assert SubPieces(subs)[1..] == SubPieces(subs[1..]);
      assert cs == [cs[0]] + cs[1..];
      SubDataCons(cs[0], cs[1..]);
    }
  }

  lemma {:induction false} GroupPiecesData(c: GrpC, at: nat, i: nat)
    requires IsHdr(c) || IsBlock(c)
    ensures var g := RenderGrp(c, at, i);
            Spawnable(g) && PieceData([PieceOf(g)] + SubPieces(g.subs)) == GrpData(c)
  {
    var g := RenderGrp(c, at, i);
    RenderedSpawnable(c, at, i);
    SubPiecesData(g.subs, c.subs);
    var ps := [PieceOf(g)] + SubPieces(g.subs);
    assert ps[0] == PieceOf(g) && ps[1..] == SubPieces(g.subs);
  }

  /** The pieces of the groups from i on. */
  function PiecesFrom(cs: Contents, i: nat): seq<Piece>
    requires Sound(cs) && i <= |cs|
  {
    AllSpawnable(cs);
    Pieces(RenderGrps(cs)[i..])
  }

  lemma {:induction false} PiecesStep(cs: Contents, i: nat)
    requires Sound(cs) && i < |cs|
    ensures var g := RenderAt(cs, i);
            Spawnable(g) && PiecesFrom(cs, i) == [PieceOf(g)] + SubPieces(g.subs) + PiecesFrom(cs, i + 1)
  {
    AllSpawnable(cs);
    var rest := RenderGrps(cs)[i..];
    assert rest[0] == RenderGrps(cs)[i] == RenderAt(cs, i) && rest[1..] == RenderGrps(cs)[i + 1..];
    assert RenderAt(cs, i) in RenderGrps(cs);
  }

  lemma {:induction false} PiecesDataStep(cs: Contents, i: nat)
    requires Sound(cs) && i < |cs|
    ensures IsHdr(cs[i]) || IsBlock(cs[i])
    ensures PieceData(PiecesFrom(cs, i)) == GrpData(cs[i]) + PieceData(PiecesFrom(cs, i + 1))
  {
    var g := RenderAt(cs, i);
    assert i >= 1 ==> IsBlock(cs[i]);
    PiecesStep(cs, i);
    GroupPiecesData(cs[i], Start(cs, i), i);
    PieceDataAppend([PieceOf(g)] + SubPieces(g.subs), PiecesFrom(cs, i + 1));
  }

  /** Copying the groups from i on supplies what is missing. */
  lemma {:induction false} PiecesComplete(cs: Contents, i: nat)
    requires Sound(cs) && i <= |cs|
    ensures Data(cs, i) + PieceData(PiecesFrom(cs, i)) == Data(cs, |cs|)
    decreases |cs| - i
  {
    if i == |cs| {
      PiecesEnd(cs);
    } else {
      PiecesShift(cs, i);
      PiecesComplete(cs, i + 1);
    }
  }

  lemma {:induction false} PiecesEnd(cs: Contents)
    requires Sound(cs)
    ensures Data(cs, |cs|) + PieceData(PiecesFrom(cs, |cs|)) == Data(cs, |cs|)
  {
    AllSpawnable(cs);
    assert PiecesFrom(cs, |cs|) == [];
  }

  lemma {:induction false} PiecesShift(cs: Contents, i: nat)
    requires Sound(cs) && i < |cs|
    ensures Data(cs, i) + PieceData(PiecesFrom(cs, i)) == Data(cs, i + 1) + PieceData(PiecesFrom(cs, i + 1))
  {
    PiecesDataStep(cs, i);
    Glue(Data(cs, i), GrpData(cs[i]), PieceData(PiecesFrom(cs, i + 1)));
  }

  lemma {:induction false} NoTailsFrom(cs: Contents, i: nat)
    requires Sound(cs) && 1 <= i <= |cs|
    ensures NoTails(PiecesFrom(cs, i)) && Small(PiecesFrom(cs, i))
    decreases |cs| - i
  {
    if i < |cs| {
      PiecesStep(cs, i);
      NoTailsFrom(cs, i + 1);
      assert IsBlock(cs[i]);
      var g := RenderAt(cs, i);
      NoTailsJoined(PieceOf(g), SubPieces(g.subs), PiecesFrom(cs, i + 1));
    } else {
      AllSpawnable(cs);
      assert PiecesFrom(cs, i) == [];
    }
  }

  lemma {:induction false} NoTailsJoined(p: Piece, a: seq<Piece>, b: seq<Piece>)
    requires p.tail == [] && |p.bytes| <= 32 && NoTails(b) && Small(b)
    requires forall k {:trigger a[k]} :: 0 <= k < |a| ==> |a[k].bytes| <= 32 && a[k].tail == []
    ensures NoTails([p] + a + b) && Small([p] + a + b)
  {
  }

  /** Bytes of the last piece of group i. */
  function LastOf(c: GrpC): nat
    requires IsHdr(c) || IsBlock(c)
  {
    if c.subs == [] then (if c.hdrSz == 0 then c.flat else c.hdrSz) else |c.subs[|c.subs| - 1].bytes|
  }

  lemma {:induction false} LastAppend(a: seq<Piece>, b: seq<Piece>)
    ensures LastBytes(a + b) == if b == [] then LastBytes(a) else LastBytes(b)
  {
    if b == [] { assert a + b == a; }
  }

  lemma {:induction false} GroupLast(c: GrpC, at: nat, i: nat)
    requires IsHdr(c) || IsBlock(c)
    ensures var g := RenderGrp(c, at, i);
            Spawnable(g) && LastBytes([PieceOf(g)] + SubPieces(g.subs)) == LastOf(c)
  {
    RenderedSpawnable(c, at, i);
    var g := RenderGrp(c, at, i);
    LastAppend([PieceOf(g)], SubPieces(g.subs));
  }

  lemma {:induction false} LastPiece(cs: Contents, i: nat)
    requires Sound(cs) && i < |cs|
    ensures IsHdr(cs[|cs| - 1]) || IsBlock(cs[|cs| - 1])
    ensures PiecesFrom(cs, i) != [] && LastBytes(PiecesFrom(cs, i)) == LastOf(cs[|cs| - 1])
    decreases |cs| - i
  {
    if i + 1 < |cs| {
      LastPiece(cs, i + 1);
      LastLater(cs, i);
    } else {
      LastGroup(cs);
      LastLone(cs, i);
    }
  }

  lemma {:induction false} LastLater(cs: Contents, i: nat)
    requires Sound(cs) && i < |cs| && PiecesFrom(cs, i + 1) != []
    ensures PiecesFrom(cs, i) != [] && LastBytes(PiecesFrom(cs, i)) == LastBytes(PiecesFrom(cs, i + 1))
  {
    PiecesStep(cs, i);
    var g := RenderAt(cs, i);
    LastAppend([PieceOf(g)] + SubPieces(g.subs), PiecesFrom(cs, i + 1));
  }

  lemma {:induction false} LastLone(cs: Contents, i: nat)
    requires Sound(cs) && i < |cs| && PiecesFrom(cs, i + 1) == []
    ensures var g := RenderAt(cs, i);
            PiecesFrom(cs, i) != [] && Spawnable(g)
            && LastBytes(PiecesFrom(cs, i)) == LastBytes([PieceOf(g)] + SubPieces(g.subs))
  {
    PiecesStep(cs, i);
    var g := RenderAt(cs, i);
    LastAppend([PieceOf(g)] + SubPieces(g.subs), PiecesFrom(cs, i + 1));
  }

  lemma {:induction false} LastGroup(cs: Contents)
    requires Sound(cs)
    ensures IsHdr(cs[|cs| - 1]) || IsBlock(cs[|cs| - 1])
    ensures var g := RenderAt(cs, |cs| - 1);
            PiecesFrom(cs, |cs|) == [] && Spawnable(g)
            && LastBytes([PieceOf(g)] + SubPieces(g.subs)) == LastOf(cs[|cs| - 1])
  {
    var i := |cs| - 1;
    assert i >= 1 ==> IsBlock(cs[i]);
    AllSpawnable(cs);
    GroupLast(cs[i], Start(cs, i), i);
  }

  // ---------------------------------------------------------------- assembling rendered contents

  lemma {:induction false} WriteAt(buf: seq<Byte>, at: nat, bytes: seq<Byte>, k: nat)
    requires at + |bytes| <= |buf| && k < |buf|
    ensures Write(buf, at, bytes)[k] == if at <= k < at + |bytes| then bytes[k - at] else buf[k]
  {
  }

  lemma {:induction false} ImageAt(h: seq<Byte>, rest: seq<Byte>, n: nat, chk: Byte, k: nat)
    requires |h| == 4 && 4 + |rest| + n == CEA_SPACE && k < BLOCK_SIZE
    ensures (h + rest + Zeros(n) + [chk])[k]
         == if k < 4 then h[k] else if k < 4 + |rest| then rest[k - 4] else if k < CEA_SPACE then 0 else chk
  {
  }

  lemma {:induction false} Written(buf: seq<Byte>, h: seq<Byte>, rest: seq<Byte>, chk: Byte, off: Byte, n: nat)
    requires |buf| == BUFFER_SIZE && |h| == 4 && 4 + |rest| + n == CEA_SPACE
    ensures var b := Write(Write(Write(buf, 128, h), 255, [chk]), 132, rest)[130 := off];
            Write(b, 132 + |rest|, Zeros(n)) == Write(buf, 128, (h + rest + Zeros(n) + [chk])[2 := off])
  {
    var b1 := Write(buf, 128, h);
    var b2 := Write(b1, 255, [chk]);
    var b3 := Write(b2, 132, rest);
    var l := Write(b3[130 := off], 132 + |rest|, Zeros(n));
    var r := Write(buf, 128, (h + rest + Zeros(n) + [chk])[2 := off]);
    var image := h + rest + Zeros(n) + [chk];
    forall k | 0 <= k < |l| ensures l[k] == r[k] {
      WriteAt(buf, 128, h, k);
      WriteAt(b1, 255, [chk], k);
      WriteAt(b2, 132, rest, k);
      WriteAt(b3[130 := off], 132 + |rest|, Zeros(n), k);
      WriteAt(buf, 128, image[2 := off], k);
      if 128 <= k < 256 { ImageAt(h, rest, n, chk, k - 128); }
    }
  }

  lemma {:induction false} OffsetCached(cs: Contents, i: nat)
    requires Sound(cs) && 1 <= i <= |cs|
    ensures DtdOffset(RenderGrps(cs), i) == var f := FirstDtd(cs, i); if f == |cs| then 0 else Start(cs, f)
    decreases |cs| - i
  {
    if i < |cs| {
      assert RenderGrps(cs)[i] == RenderAt(cs, i) && IsBlock(cs[i]);
      OffsetCached(cs, i + 1);
    }
  }

  /** The copy loop over rendered contents: when it succeeds ... */
  lemma {:induction false} PlaceRendered(buf: seq<Byte>, cs: Contents)
    requires Sound(cs) && |buf| == BUFFER_SIZE
    ensures Assemblable(RenderGrps(cs))
    ensures var (r, d) := (Place(buf, 128, Pieces(RenderGrps(cs)), 0, CEA_SPACE), Data(cs, |cs|));
            (r.ok <==> Start(cs, |cs|) < CEA_SPACE || !EndsEmpty(cs))
            && (r.ok ==> r.offs == |d| && r.left == CEA_SPACE - |d|)
  {
    AllSpawnable(cs);
    var ps := Pieces(RenderGrps(cs));
    assert RenderGrps(cs)[0..] == RenderGrps(cs);
    PiecesComplete(cs, 0);
    PlaceSucceeds(buf, 128, ps, 0, CEA_SPACE);
    LastPiece(cs, 0);
    LastEmpty(cs);
  }

  /** ... and what it writes: the header, its checksum byte, then all that follows. */
  lemma {:induction false} PlaceWritten(buf: seq<Byte>, cs: Contents)
    requires Sound(cs) && |buf| == BUFFER_SIZE && Assemblable(RenderGrps(cs))
    requires Place(buf, 128, Pieces(RenderGrps(cs)), 0, CEA_SPACE).ok
    ensures var (r, d) := (Place(buf, 128, Pieces(RenderGrps(cs)), 0, CEA_SPACE), Data(cs, |cs|));
            |d| >= 4 && d[..4] == cs[0].inst[..4] && 132 + |d[4..]| <= |buf|
            && r.buf == Write(Write(Write(buf, 128, cs[0].inst[..4]), 255, [cs[0].inst[4]]), 132, d[4..])
  {
    assert RenderGrps(cs)[0..] == RenderGrps(cs);
    HeaderPiece(cs);
    PiecesComplete(cs, 1);
    NoTailsFrom(cs, 1);
    PlaceHeaded(buf, PiecesFrom(cs, 0), cs[0].inst[..4], [cs[0].inst[4]]);
  }

  /** A first piece with a tail, others without. */
  lemma {:induction false} PlaceHeaded(buf: seq<Byte>, ps: seq<Piece>, h: seq<Byte>, tail: seq<Byte>)
    requires |buf| == BUFFER_SIZE && |ps| >= 1 && Small(ps) && |h| == 4 && |tail| == 1 && ps[0] == Piece(h, tail)
    requires NoTails(ps[1..]) && Small(ps[1..]) && Place(buf, 128, ps, 0, CEA_SPACE).ok
    ensures 132 + |PieceData(ps[1..])| <= |buf|
    ensures Place(buf, 128, ps, 0, CEA_SPACE).buf
         == Write(Write(Write(buf, 128, h), 255, tail), 132, PieceData(ps[1..]))
  {
    PlaceWrites(PutPiece(buf, 128, ps[0]), 128, ps[1..], 4, CEA_SPACE - 4);
  }

  lemma {:induction false} LastEmpty(cs: Contents)
    requires Sound(cs)
    ensures IsHdr(cs[|cs| - 1]) || IsBlock(cs[|cs| - 1])
    ensures LastOf(cs[|cs| - 1]) == 0 <==> EndsEmpty(cs)
  {
    assert |cs| > 1 ==> IsBlock(cs[|cs| - 1]);
  }

  lemma {:induction false} HeaderPiece(cs: Contents)
    requires Sound(cs)
    ensures var ps := PiecesFrom(cs, 0);
            |ps| >= 1 && ps[0] == Piece(cs[0].inst[..4], [cs[0].inst[4]]) && ps[1..] == PiecesFrom(cs, 1)
            && Data(cs, 1) == cs[0].inst[..4]
  {
    PiecesStep(cs, 0);
    var g := RenderAt(cs, 0);
    assert g.subs == [] && SubPieces(g.subs) == [];
    assert [PieceOf(g)] + SubPieces(g.subs) == [PieceOf(g)];
    assert cs[0].inst[4..5] == [cs[0].inst[4]];
    assert Data(cs, 1) == Data(cs, 0) + GrpData(cs[0]);
    assert cs[0].inst[..4] + AllSubData([]) == cs[0].inst[..4];
  }

  /** Offset and padding complete the image. */
  lemma {:induction false} ImageFinished(buf: seq<Byte>, cs: Contents, b: seq<Byte>)
    requires Sound(cs) && |buf| == BUFFER_SIZE && 4 <= Start(cs, |cs|)
    requires var d := Data(cs, |cs|);
             d[..4] == cs[0].inst[..4]
             && b == Write(Write(Write(buf, 128, cs[0].inst[..4]), 255, [cs[0].inst[4]]), 132, d[4..])
    ensures var at := Start(cs, |cs|);
            FinishCea(Placed(true, b, at, CEA_SPACE - at), DtdStart(cs)) == (true, Write(buf, BLOCK_SIZE, Image(cs)))
  {
    var d, off := Data(cs, |cs|), DtdStart(cs) % 256;
    var n := CEA_SPACE - |d|;
    Written(buf, d[..4], d[4..], cs[0].inst[4], off, n);
    ImageSplit(d, n, cs[0].inst[4], off);
    if n == 0 { WriteEmpty(b[130 := off], 132 + |d[4..]|); }
  }

  lemma {:induction false} ImageSplit(d: seq<Byte>, n: nat, chk: Byte, off: Byte)
    requires |d| >= 4
    ensures (d[..4] + d[4..] + Zeros(n) + [chk])[2 := off] == (d + Zeros(n) + [chk])[2 := off]
  {
    assert d[..4] + d[4..] == d;
  }

  lemma {:induction false} WriteEmpty(b: seq<Byte>, at: nat)
    requires at <= |b|
    ensures Write(b, at, Zeros(0)) == b
  {
  }

  /** Assembly of any rendered contents: it succeeds unless an empty part ends a full block, and then
      the block is the image, whatever the buffer held before. */
  lemma {:induction false} AssemblesImage(buf: seq<Byte>, cs: Contents)
    requires Sound(cs) && |buf| == BUFFER_SIZE
    ensures Assemblable(Render(cs).grps)
    ensures var r := AssembleCea(buf, Render(cs).grps);
            (r.0 <==> Start(cs, |cs|) < CEA_SPACE || !EndsEmpty(cs))
            && (r.0 ==> r.1 == Write(buf, BLOCK_SIZE, Image(cs)))
  {
    PlaceRendered(buf, cs);
    OffsetCached(cs, 1);
    var r := Place(buf, 128, Pieces(RenderGrps(cs)), 0, CEA_SPACE);
    if r.ok {
      PlaceWritten(buf, cs);
      ImageFinished(buf, cs, r.buf);
    }
  }

  // ---------------------------------------------------------------- every group at its cached place

  lemma {:induction false} DataPrefix(cs: Contents, i: nat, n: nat)
    requires Sound(cs) && i <= n <= |cs|
    ensures Start(cs, i) <= Start(cs, n) && Data(cs, n)[..Start(cs, i)] == Data(cs, i)
  {
    if i < n {
      DataPrefix(cs, i, n - 1);
      Prefixes(Data(cs, n - 1), GrpData(cs[n - 1]), Start(cs, i));
    } else {
      assert Data(cs, n)[..Start(cs, n)] == Data(cs, n);
    }
  }

  lemma {:induction false} Prefixes(a: seq<Byte>, b: seq<Byte>, k: nat)
    requires k <= |a|
    ensures (a + b)[..k] == a[..k]
  {
  }

  lemma {:induction false} StartsInside(cs: Contents, i: nat)
    requires Sound(cs) && 1 <= i < |cs|
    ensures 4 <= Start(cs, i) && Start(cs, i) + Width(cs[i]) == Start(cs, i + 1) <= Start(cs, |cs|)
  {
    StartMono(cs, 1, i);
    StartMono(cs, i + 1, |cs|);
    assert Start(cs, 1) == Start(cs, 0) + Width(cs[0]);
  }

  lemma {:induction false} DataAt(cs: Contents, i: nat)
    requires Sound(cs) && 1 <= i < |cs|
    ensures 4 <= Start(cs, i) && Start(cs, i) + Width(cs[i]) == Start(cs, i + 1) <= Start(cs, |cs|)
    ensures Data(cs, |cs|)[Start(cs, i)..Start(cs, i + 1)] == GrpData(cs[i])
  {
    StartsInside(cs, i);
    DataPrefix(cs, i + 1, |cs|);
    Tail(Data(cs, |cs|), Start(cs, i + 1), Data(cs, i), GrpData(cs[i]));
  }

  lemma {:induction false} Tail(d: seq<Byte>, n: nat, a: seq<Byte>, b: seq<Byte>)
    requires n <= |d| && d[..n] == a + b
    ensures d[|a|..n] == b
  {
    assert d[|a|..n] == d[..n][|a|..];
  }

  /** Each group behind the header lands at its cached relative offset and ends where the next one
      starts; behind the last there are zeros. */
  lemma {:induction false} LandsAtCachedOffset(cs: Contents, i: nat)
    requires Sound(cs) && 1 <= i < |cs|
    ensures var (g, end) := (Render(cs).grps[i], Start(cs, i + 1));
            4 <= g.rel && g.rel + g.datSz == end <= CEA_SPACE
            && Image(cs)[g.rel..end] == GrpData(cs[i])
            && (i + 1 < |cs| ==> Render(cs).grps[i + 1].rel == end)
            && (i + 1 == |cs| ==> forall k :: end <= k < CEA_SPACE ==> Image(cs)[k] == 0)
  {
    DataAt(cs, i);
    assert RenderGrps(cs)[i] == RenderAt(cs, i) && IsBlock(cs[i]);
    ImageSlice(cs, Start(cs, i), Start(cs, i + 1));
    if i + 1 < |cs| { assert RenderGrps(cs)[i + 1] == RenderAt(cs, i + 1); }
  }

  lemma {:induction false} ImageSlice(cs: Contents, a: nat, b: nat)
    requires Sound(cs) && 4 <= a <= b <= Start(cs, |cs|)
    ensures Image(cs)[a..b] == Data(cs, |cs|)[a..b]
    ensures forall k :: Start(cs, |cs|) <= k < CEA_SPACE ==> Image(cs)[k] == 0
  {
  }

  lemma {:induction false} SubDataAt(subs: seq<SubC>, k: nat, n: nat)
    requires k < n <= |subs|
    ensures SubStart(subs, k) + |subs[k].bytes| == SubStart(subs, k + 1) <= SubStart(subs, n)
    ensures SubData(subs, n)[SubStart(subs, k)..SubStart(subs, k + 1)] == subs[k].bytes
  {
    SubStartUp(subs, k + 1, n);
    if k + 1 == n {
      Tail(SubData(subs, n), SubStart(subs, n), SubData(subs, k), subs[k].bytes);
    } else {
      SubDataAt(subs, k, n - 1);
      var (a, b) := (SubStart(subs, k), SubStart(subs, k + 1));
      assert SubData(subs, n)[a..b] == SubData(subs, n - 1)[a..b];
    }
  }

  /** In a block with a header part each sub-group lands at its cached relative offset in the block. */
  lemma {:induction false} SubLandsAtCachedOffset(cs: Contents, i: nat, k: nat)
    requires Sound(cs) && 1 <= i < |cs| && cs[i].hdrSz > 0 && k < |cs[i].subs|
    ensures var g := Render(cs).grps[i];
            |g.subs| > k && 0 <= g.subs[k].rel
            && var (at, n) := (g.rel + g.subs[k].rel, |g.subs[k].bytes|);
               0 <= at && at + n <= g.rel + g.datSz <= CEA_SPACE && Image(cs)[at..at + n] == g.subs[k].bytes
  {
    assert IsBlock(cs[i]) && RenderGrps(cs)[i] == RenderAt(cs, i);
    LandsAtCachedOffset(cs, i);
    SubInside(Image(cs), Start(cs, i), Start(cs, i + 1), cs[i], k);
  }

  lemma {:induction false} SubInside(b: seq<Byte>, from: nat, to: nat, c: GrpC, k: nat)
    requires IsBlock(c) && c.hdrSz > 0 && k < |c.subs| && from <= to <= |b| && b[from..to] == GrpData(c)
    ensures var (at, n) := (from + c.hdrSz + SubStart(c.subs, k), |c.subs[k].bytes|);
            at + n <= to && b[at..at + n] == c.subs[k].bytes
  {
    SubDataAt(c.subs, k, |c.subs|);
    var a := SubStart(c.subs, k);
    InnerSlice(b, from, to, c.inst[..c.hdrSz], AllSubData(c.subs), a, a + |c.subs[k].bytes|);
  }

  lemma {:induction false} SliceOfSlice(s: seq<Byte>, from: nat, to: nat, a: nat, b: nat)
    requires from <= to <= |s| && a <= b <= to - from
    ensures s[from..to][a..b] == s[from + a..from + b]
  {
    var (l, r) := (s[from..to][a..b], s[from + a..from + b]);
    forall k | 0 <= k < b - a ensures l[k] == r[k] {}
  }

  lemma {:induction false} InnerSlice(s: seq<Byte>, from: nat, to: nat, x: seq<Byte>, y: seq<Byte>, a: nat, b: nat)
    requires from <= to <= |s| && s[from..to] == x + y && a <= b <= |y|
    ensures from + |x| + b <= to && s[from + |x| + a..from + |x| + b] == y[a..b]
  {
    var d := s[from..to];
    assert |d| == |x| + |y| && d[|x|..|d|] == y;
    SliceOfSlice(d, |x|, |d|, a, b);
    SliceOfSlice(s, from, to, |x| + a, |x| + b);
  }

  /** In a good block the DTDs are one run of 18-byte records up to the padding, and the stored DTD
      offset is its start. */
  lemma {:induction false} DtdRunAt(cs: Contents, i: nat)
    requires Good(cs) && FirstDtd(cs, 1) <= i <= |cs| && FirstDtd(cs, 1) < |cs|
    ensures Start(cs, i) == Image(cs)[2] + 18 * (i - FirstDtd(cs, 1))
    ensures i < |cs| ==> IsDtd(cs[i])
  {
    DtdSteps(cs, i);
    OffsetStored(cs);
  }

  lemma {:induction false} OffsetStored(cs: Contents)
    requires Sound(cs) && FirstDtd(cs, 1) < |cs|
    ensures Image(cs)[2] == Start(cs, FirstDtd(cs, 1))
  {
    StartMono(cs, FirstDtd(cs, 1), |cs|);
  }

  lemma {:induction false} DtdSteps(cs: Contents, i: nat)
    requires DtdsLast(cs) && cs != [] && FirstDtd(cs, 1) <= i <= |cs|
    ensures Start(cs, i) == Start(cs, FirstDtd(cs, 1)) + 18 * (i - FirstDtd(cs, 1))
    ensures i < |cs| ==> IsDtd(cs[i])
    decreases i
  {
    var f := FirstDtd(cs, 1);
    if i > f {
      DtdSteps(cs, i - 1);
      if i < |cs| { assert IsDtd(cs[f]) ==> IsDtd(cs[i]); }
    }
  }
}
