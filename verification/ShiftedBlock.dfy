/** Assembling a shifted tree: the stored DTD offset is one byte off, so the block is never read back. */
module ShiftedBlock {
  import opened Bytes
  import opened GroupTree
  import opened GroupContent
  import opened GroupEdits
  import opened GroupShift
  import opened BlockSplit
  import opened DataBlocks
  import opened Assembler
  import opened CeaImage
  import opened CeaParser
  import opened CeaTiling
  import opened RoundTrip
  import opened EditRoundTrip

  // ---------------------------------------------------------------- shifted trees never come back

  lemma {:induction false} SamePieces(a: seq<Grp>, b: seq<Grp>)
    requires |a| == |b| && forall g :: g in b ==> Spawnable(g)
    requires forall k {:trigger a[k]} :: 0 <= k < |a| ==>
      a[k].(abs := b[k].abs, rel := b[k].rel, subs := b[k].subs) == b[k] && SubTwins(a[k].subs, b[k].subs)
    ensures (forall g :: g in a ==> Spawnable(g)) && Pieces(a) == Pieces(b)
    decreases |a|
  {
    if a != [] {
      SamePiece(a[0], b[0]);
      SamePieces(a[1..], b[1..]);
      forall g | g in a ensures Spawnable(g) { assert g == a[0] || g in a[1..]; }
    }
  }

  lemma {:induction false} SamePiece(h: Grp, g: Grp)
    requires h.(abs := g.abs, rel := g.rel, subs := g.subs) == g && SubTwins(h.subs, g.subs) && Spawnable(g)
    ensures Spawnable(h) && PieceOf(h) == PieceOf(g) && SubPieces(h.subs) == SubPieces(g.subs)
  {
  }

  /** The two finished blocks differ in the DTD offset only. */
  lemma {:induction false} OtherOffset(r: Placed, a: int, b: int)
    requires |r.buf| == BUFFER_SIZE && r.offs + r.left <= BLOCK_SIZE && (r.ok ==> r.offs >= 4)
    ensures FinishCea(r, b).0 == FinishCea(r, a).0
    ensures r.ok ==> FinishCea(r, b).1 == FinishCea(r, a).1[BLOCK_SIZE + 2 := b % 256]
  {
    if r.ok && r.left > 0 {
      var (x, y) := (r.buf[BLOCK_SIZE + 2 := a % 256], r.buf[BLOCK_SIZE + 2 := b % 256]);
      WriteElsewhere(x, BLOCK_SIZE + r.offs, Zeros(r.left), BLOCK_SIZE + 2, b % 256);
      assert x[BLOCK_SIZE + 2 := b % 256] == y;
    } else if r.ok {
      assert r.buf[BLOCK_SIZE + 2 := a % 256][BLOCK_SIZE + 2 := b % 256] == r.buf[BLOCK_SIZE + 2 := b % 256];
    }
  }

  lemma {:induction false} WriteElsewhere(buf: seq<Byte>, at: nat, bytes: seq<Byte>, k: nat, c: Byte)
    requires at + |bytes| <= |buf| && k < at
    ensures Write(buf[k := c], at, bytes) == Write(buf, at, bytes)[k := c]
  {
  }

  /** The blocks of a longer tiling begin with those of a shorter one. */
  lemma {:induction false} LongerTiling(a: seq<seq<Byte>>, b: seq<seq<Byte>>, x: Byte)
    requires forall k {:trigger a[k]} :: 0 <= k < |a| ==> WholeBlock(a[k])
    requires forall k {:trigger b[k]} :: 0 <= k < |b| ==> WholeBlock(b[k])
    requires Concat(b) == Concat(a) + [x]
    ensures |b| > |a| && b[|a|] == [x]
    decreases |a|
  {
    assert b != [];
    assert Concat(b) == b[0] + Concat(b[1..]) && WholeBlock(b[0]);
    if a == [] {
      assert Concat(b)[0] == x;
      assert |b[0]| == 1;
    } else {
      var (s, rest) := (Concat(b), Concat(a[1..]) + [x]);
      assert WholeBlock(a[0]) && Concat(a) == a[0] + Concat(a[1..]);
      Glue(a[0], Concat(a[1..]), [x]);
      CutFirst(s, a[0], rest);
      CutFirst(s, b[0], Concat(b[1..]));
      assert a[0][0] == s[0] == b[0][0];
      assert a[0] == b[0];
      forall k {:trigger a[1..][k]} | 0 <= k < |a[1..]| ensures WholeBlock(a[1..][k]) { assert a[1..][k] == a[k + 1]; }
      forall k {:trigger b[1..][k]} | 0 <= k < |b[1..]| ensures WholeBlock(b[1..][k]) { assert b[1..][k] == b[k + 1]; }
      LongerTiling(a[1..], b[1..], x);
      assert b[1..][|a| - 1] == b[|a|];
    }
  }

  /** A block of its header byte alone is never accepted. */
  lemma {:induction false} TinyBlock(b: seq<Byte>)
    requires WholeBlock(b) && |b| == 1
    ensures StrictInit(b) == None
  {
    ClassShape(TagCode(b[0]), 0);
  }

  /** The offset a shifted tree stores: one more than the start of its first DTD, or 0. */
  function ShiftedOffset(cs: Contents): nat
    requires cs != []
  {
    if FirstDtd(cs, 1) == |cs| then 0 else DtdStart(cs) + 1
  }

  lemma {:induction false} ShiftedOffsetIs(cs: Contents)
    requires Sound(cs) && FirstDtd(cs, 1) < |cs|
    ensures 4 <= DtdStart(cs) == Start(cs, FirstDtd(cs, 1)) < CEA_SPACE
    ensures ShiftedOffset(cs) % 256 == DtdStart(cs) + 1 <= CEA_SPACE
  {
    DtdStartRange(cs);
    BlockStart(cs, FirstDtd(cs, 1));
  }

  /** A DTD offset one byte behind the first DTD: the bytes in between are no block. */
  lemma {:induction false} ShiftedNeverParses(ext: seq<Byte>, cs: Contents)
    requires Ready(cs) && FirstDtd(cs, 1) < |cs| && IsExt(ext) && ext[2] == ShiftedOffset(cs) % 256
    requires Holds(ext[2 := DtdStart(cs) % 256], cs)
    ensures ParseCea(ext) == None
  {
    ShiftedOffsetIs(cs);
    if ParseCea(ext).Some? {
      var bs, k := AcceptedIsTiled(ext);
      TileWhole(bs);
      LongTilingTiny(ext, cs, bs);
      TinyBlock(bs[FirstDtd(cs, 1) - 1]);
    }
  }

  lemma {:induction false} LongTilingTiny(ext: seq<Byte>, cs: Contents, bs: seq<seq<Byte>>)
    requires Ready(cs) && FirstDtd(cs, 1) < |cs| && IsExt(ext) && ext[2] == DtdStart(cs) + 1
    requires Holds(ext[2 := DtdStart(cs) % 256], cs) && 4 <= DtdStart(cs) == Start(cs, FirstDtd(cs, 1)) < CEA_SPACE
    requires Concat(bs) == ext[4..ext[2]] && forall k {:trigger bs[k]} :: 0 <= k < |bs| ==> WholeBlock(bs[k])
    ensures var f := FirstDtd(cs, 1); |bs| >= f && WholeBlock(bs[f - 1]) && |bs[f - 1]| == 1
  {
    var (f, d) := (FirstDtd(cs, 1), DtdStart(cs));
    StringsHeld(ext[2 := d % 256], cs, f);
    WholeStrings(cs, Strings(cs, f));
    OneMore(ext, d);
    LongerTiling(Strings(cs, f), bs, ext[d]);
  }

  lemma {:induction false} OneMore(ext: seq<Byte>, d: nat)
    requires 4 <= d < |ext| && d < 256
    ensures ext[4..d + 1] == ext[2 := d % 256][4..d] + [ext[d]]
  {
  }

  lemma {:induction false} SameLooks(grps: seq<Grp>)
    requires forall g :: g in grps ==> Spawnable(g)
    ensures (forall g :: g in ShiftGrps(grps) ==> Spawnable(g)) && Pieces(ShiftGrps(grps)) == Pieces(grps)
  {
    var hs := ShiftGrps(grps);
    forall k {:trigger hs[k]} | 0 <= k < |hs|
      ensures hs[k].(abs := grps[k].abs, rel := grps[k].rel, subs := grps[k].subs) == grps[k]
      ensures SubTwins(hs[k].subs, grps[k].subs)
    {
      assert hs[k] == ShiftAt(grps, k);
    }
    SamePieces(hs, grps);
  }

  lemma {:induction false} ShiftedOne(cs: Contents, i: nat)
    requires Sound(cs) && 1 <= i < |cs|
    ensures var g := ShiftGrps(RenderGrps(cs))[i];
            g.rel == Start(cs, i) + 1 && (IsDtdType(g.tid) <==> IsDtd(cs[i]))
  {
    assert ShiftGrps(RenderGrps(cs))[i] == ShiftGrp(RenderAt(cs, i)) && IsBlock(cs[i]);
  }

  /** Groups that are DTDs where the contents are, cached one byte behind their starts. */
  predicate OffByOne(grps: seq<Grp>, cs: Contents) {
    && |grps| == |cs|
    && forall i {:trigger grps[i]} :: 1 <= i < |grps| ==>
      grps[i].rel == Start(cs, i) + 1 && (IsDtdType(grps[i].tid) <==> IsDtd(cs[i]))
  }

  lemma {:induction false} OffsetOffByOne(grps: seq<Grp>, cs: Contents, i: nat)
    requires OffByOne(grps, cs) && 1 <= i <= |cs|
    ensures DtdOffset(grps, i) == var f := FirstDtd(cs, i); if f == |cs| then 0 else Start(cs, f) + 1
    decreases |cs| - i
  {
    if i < |cs| && !IsDtd(cs[i]) { OffsetOffByOne(grps, cs, i + 1); }
  }

  lemma {:induction false} OffsetShifted(cs: Contents)
    requires Sound(cs)
    ensures DtdOffset(Shift(Render(cs)).grps, 1) == ShiftedOffset(cs)
  {
    var grps := ShiftGrps(RenderGrps(cs));
    forall i {:trigger grps[i]} | 1 <= i < |grps|
      ensures grps[i].rel == Start(cs, i) + 1 && (IsDtdType(grps[i].tid) <==> IsDtd(cs[i]))
    {
      ShiftedOne(cs, i);
    }
    OffsetOffByOne(grps, cs, 1);
  }

  /** Assembly of a shifted tree succeeds as that of the tree itself, and differs in the offset byte. */
  lemma {:induction false} AssemblesShifted(buf: seq<Byte>, cs: Contents)
    requires Sound(cs) && |buf| == BUFFER_SIZE
    ensures Assemblable(Render(cs).grps) && Assemblable(Shift(Render(cs)).grps)
    ensures var (r, u) := (AssembleCea(buf, Render(cs).grps), AssembleCea(buf, Shift(Render(cs)).grps));
            u.0 == r.0 && (r.0 ==> u.1 == r.1[BLOCK_SIZE + 2 := ShiftedOffset(cs) % 256])
  {
    AllSpawnable(cs);
    SameLooks(RenderGrps(cs));
    OffsetShifted(cs);
    var r := Place(buf, BLOCK_SIZE, Pieces(RenderGrps(cs)), 0, CEA_SPACE);
    PlacedShape(buf, cs, r);
    OtherOffset(r, DtdOffset(RenderGrps(cs), 1), ShiftedOffset(cs));
  }

  lemma {:induction false} PlacedShape(buf: seq<Byte>, cs: Contents, r: Placed)
    requires Sound(cs) && |buf| == BUFFER_SIZE && Assemblable(RenderGrps(cs))
    requires r == Place(buf, BLOCK_SIZE, Pieces(RenderGrps(cs)), 0, CEA_SPACE)
    ensures |r.buf| == BUFFER_SIZE && r.offs + r.left == CEA_SPACE && (r.ok ==> r.offs >= 4)
  {
    PlaceAppend(buf, BLOCK_SIZE, Pieces(RenderGrps(cs)), [], 0, CEA_SPACE);
    PlaceRendered(buf, cs);
    StartRange(cs, |cs|);
  }
}
