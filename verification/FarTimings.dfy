/** Data blocks may end behind the extension block, with the DTD offset there too: then the number of
    records left is a huge one, and the records behind the block are read as detailed timings. */
module FarTimings {
  import opened Bytes
  import opened GroupTree
  import opened GroupContent
  import opened DataBlocks
  import opened CeaParser
  import opened CeaTiling
  import opened Assembler
  import opened CeaImage
  import opened RoundTrip

  /** Group i is a timing at offset at of the extension block, shown with its offset in a later block. */
  predicate FarTiming(g: Grp, ext: seq<Byte>, at: nat, i: nat) {
    && BLOCK_SIZE <= at && at + 18 <= |ext| && g.tid == DTD && g.idx == i
    && g.abs == BLOCK_SIZE + at && g.rel == RelOf(at)
    && |g.inst| == 32 && g.inst[..18] == ext[at..at + 18]
  }

  /** The contents ds are the records from offset at on. */
  predicate RunAt(ds: Contents, ext: seq<Byte>, at: nat) {
    forall j {:trigger ds[j]} :: 0 <= j < |ds| ==> at + 18 * j + 18 <= |ext| && ds[j] == DtdAt(ext, at + 18 * j)
  }

  lemma {:induction false} RunIsAt(ext: seq<Byte>, at: nat)
    requires IsExt(ext)
    ensures RunAt(DtdRun(ext, at), ext, at)
  {
    RunIsLongest(ext, at);
  }

  lemma {:induction false} RecordShown(ext: seq<Byte>, at: nat, i: nat)
    requires IsExt(ext) && BLOCK_SIZE <= at && at + 18 <= |ext|
    ensures FarTiming(Shown(DtdAt(ext, at), at, i), ext, at, i)
  {
    assert DtdAt(ext, at).inst[..18] == ext[at..at + 18];
  }

  /** The header and the data blocks end at the DTD offset. */
  lemma {:induction false} FrontStart(ext: seq<Byte>, bs: Contents)
    requires IsExt(ext) && ext[2] >= 4 && ParseBlocks(ext, 4, ext[2]) == Some(bs)
    ensures Start([HeaderGrp(ext)] + bs, |bs| + 1) == ext[2]
  {
    var tiles := BlocksTile(ext, 4, ext[2]);
    TilesStart(ext, tiles, ext[2]);
  }

  lemma {:induction false} EndedParts(ext: seq<Byte>, bs: Contents, ds: Contents)
    requires IsExt(ext) && Ended(ext, bs, ds).Some?
    ensures Ended(ext, bs, ds).value == [HeaderGrp(ext)] + bs + ds
    ensures NumDtd(ext) <= |ds| && RunStops(ext, ext[2] + 18 * |ds|)
  {
  }

  lemma {:induction false} AcceptedParts(ext: seq<Byte>, cs: Contents) returns (bs: Contents, ds: Contents)
    requires IsExt(ext) && ext[2] >= 4 && ParseCea(ext) == Some(cs)
    ensures ParseBlocks(ext, 4, ext[2]) == Some(bs) && ds == DtdRun(ext, ext[2]) && Ended(ext, bs, ds) == Some(cs)
  {
    bs, ds := ParseBlocks(ext, 4, ext[2]).value, DtdRun(ext, ext[2]);
    Body(ext, Some(bs), ds);
  }

  /** Groups front up to the DTD offset, then k timings behind the block. */
  predicate Split(front: Contents, ext: seq<Byte>, cs: Contents, k: nat)
    requires IsExt(ext)
  {
    && ext[2] >= BLOCK_SIZE && front != [] && Start(front, |front|) == ext[2]
    && k == |DtdRun(ext, ext[2])| && cs == front + DtdRun(ext, ext[2]) && RunStops(ext, ext[2] + 18 * k)
  }

  lemma {:induction false} BehindParts(ext: seq<Byte>, cs: Contents) returns (front: Contents, k: nat)
    requires IsExt(ext) && ext[2] >= BLOCK_SIZE && ParseCea(ext) == Some(cs)
    ensures Split(front, ext, cs, k) && NumDtd(ext) <= k
  {
    var bs, ds := AcceptedParts(ext, cs);
    FrontSplit(ext, bs, ds, cs);
    front, k := [HeaderGrp(ext)] + bs, |ds|;
  }

  lemma {:induction false} FrontSplit(ext: seq<Byte>, bs: Contents, ds: Contents, cs: Contents)
    requires IsExt(ext) && ext[2] >= BLOCK_SIZE && ParseBlocks(ext, 4, ext[2]) == Some(bs) && ds == DtdRun(ext, ext[2])
    requires Ended(ext, bs, ds) == Some(cs)
    ensures Split([HeaderGrp(ext)] + bs, ext, cs, |ds|) && NumDtd(ext) <= |ds|
  {
    FrontStart(ext, bs);
    EndedParts(ext, bs, ds);
  }

  predicate TimingHere(grps: seq<Grp>, n: nat, ext: seq<Byte>, at: nat, i: nat)
    requires n <= i < |grps|
  {
    FarTiming(grps[i], ext, at + 18 * (i - n), i)
  }

  /** The groups from index n on are the timings from offset at on. */
  predicate TimingsFrom(grps: seq<Grp>, n: nat, ext: seq<Byte>, at: nat) {
    forall i {:trigger TimingHere(grps, n, ext, at, i)} :: n <= i < |grps| ==> TimingHere(grps, n, ext, at, i)
  }

  lemma {:induction false} TimingAt(front: Contents, ds: Contents, cs: Contents, ext: seq<Byte>, at: nat, i: nat)
    requires IsExt(ext) && at == Start(front, |front|) && AllDtds(ds) && RunAt(ds, ext, at)
    requires cs == front + ds && |front| <= i < |cs|
    ensures var here := at + 18 * (i - |front|);
            here + 18 <= |ext| && cs[i] == DtdAt(ext, here) && Start(cs, i) == here
  {
    DtdStarts(front, ds, i - |front|);
    assert cs[i] == ds[i - |front|];
  }

  lemma {:induction false} TimingShown(cs: Contents, ext: seq<Byte>, here: nat, i: nat, g: Grp)
    requires IsExt(ext) && BLOCK_SIZE <= here && here + 18 <= |ext| && i < |cs|
    requires cs[i] == DtdAt(ext, here) && Start(cs, i) == here && g == ShownGrps(cs)[i]
    ensures FarTiming(g, ext, here, i)
  {
    RecordShown(ext, here, i);
  }

  lemma {:induction false} TimingShownAt(front: Contents, ds: Contents, ext: seq<Byte>, at: nat, i: nat)
    requires IsExt(ext) && BLOCK_SIZE <= at == Start(front, |front|) && AllDtds(ds) && RunAt(ds, ext, at)
    requires |front| <= i < |front| + |ds|
    ensures TimingHere(ShownGrps(front + ds), |front|, ext, at, i)
  {
    var cs, here := front + ds, at + 18 * (i - |front|);
    TimingAt(front, ds, cs, ext, at, i);
    TimingShown(cs, ext, here, i, ShownGrps(cs)[i]);
  }

  lemma {:induction false} TimingsShown(front: Contents, ds: Contents, ext: seq<Byte>, at: nat)
    requires IsExt(ext) && BLOCK_SIZE <= at == Start(front, |front|) && AllDtds(ds) && RunAt(ds, ext, at)
    ensures TimingsFrom(ShownGrps(front + ds), |front|, ext, at)
  {
    var grps := ShownGrps(front + ds);
    forall i {:trigger TimingHere(grps, |front|, ext, at, i)} | |front| <= i < |grps|
      ensures TimingHere(grps, |front|, ext, at, i)
    {
      TimingShownAt(front, ds, ext, at, i);
    }
  }

  /** The offset is at with n groups in front of the timings, and the timings are followed by a record with
      a zero pixel clock. */
  predicate Behind(t: Tree, ext: seq<Byte>, at: nat, k: nat) {
    && t.used == at + 18 * k && t.free == CEA_SPACE - t.used < 0 && k < |t.grps|
    && TimingsFrom(t.grps, |t.grps| - k, ext, at) && PixClkIsZero(ext, at + 18 * k)
  }

  lemma {:induction false} RunEnd(front: Contents, ext: seq<Byte>, at: nat, cs: Contents, k: nat)
    requires IsExt(ext) && at == Start(front, |front|) && k == |DtdRun(ext, at)| && cs == front + DtdRun(ext, at)
    ensures |cs| == |front| + k && Start(cs, |cs|) == at + 18 * k
  {
    RunDtds(ext, at);
    DtdStarts(front, DtdRun(ext, at), k);
  }

  lemma {:induction false} RunTimings(front: Contents, ext: seq<Byte>, at: nat, cs: Contents)
    requires IsExt(ext) && cs == front + DtdRun(ext, at) && BLOCK_SIZE <= at == Start(front, |front|)
    ensures TimingsFrom(ShownGrps(cs), |front|, ext, at)
  {
    RunIsAt(ext, at);
    RunDtds(ext, at);
    TimingsShown(front, DtdRun(ext, at), ext, at);
  }

  lemma {:induction false} BehindFrom(t: Tree, ext: seq<Byte>, at: nat, n: nat, k: nat)
    requires IsExt(ext) && at >= BLOCK_SIZE && RunStops(ext, at + 18 * k) && n > 0 && |t.grps| == n + k
    requires TimingsFrom(t.grps, n, ext, at) && t.used == at + 18 * k && t.free == CEA_SPACE - t.used
    ensures Behind(t, ext, at, k)
  {
    assert |t.grps| - k == n;
  }

  lemma {:induction false} RunDtds(ext: seq<Byte>, at: nat)
    requires IsExt(ext)
    ensures AllDtds(DtdRun(ext, at))
  {
    RunFits(ext, at);
  }

  /** The groups of cs as the parser leaves them, with their counters. */
  predicate ShownTree(t: Tree, cs: Contents) {
    t.grps == ShownGrps(cs) && t.used == Start(cs, |cs|) && t.free == CEA_SPACE - t.used
  }

  lemma {:induction false} ParsedShows(ext: seq<Byte>, stale: Tree, t: Tree) returns (cs: Contents)
    requires IsExt(ext) && ext[2] != 0 && ParsedTree(ext, stale) == Some(t)
    ensures ParseCea(ext) == Some(cs) && ShownTree(t, cs)
  {
    cs := ParseCea(ext).value;
    ShownBytes(cs);
  }

  lemma {:induction false} PartsBehind(front: Contents, ext: seq<Byte>, cs: Contents, t: Tree, k: nat)
    requires IsExt(ext) && Split(front, ext, cs, k) && ShownTree(t, cs)
    ensures Behind(t, ext, ext[2], k)
  {
    assert TimingsFrom(t.grps, |front|, ext, ext[2]) by { RunTimings(front, ext, ext[2], cs); }
    RunEnd(front, ext, ext[2], cs, k);
    BehindFrom(t, ext, ext[2], |front|, k);
  }

  /** With a DTD offset of 128 or more every timing of the tree is a record of a later block, up to the
      first zero pixel clock, and the counters say that more than the block is in use. */
  lemma {:induction false} TimingsBehind(ext: seq<Byte>, stale: Tree, t: Tree) returns (k: nat)
    requires IsExt(ext) && ext[2] >= BLOCK_SIZE && ParsedTree(ext, stale) == Some(t)
    ensures Behind(t, ext, ext[2], k) && NumDtd(ext) <= k == |DtdRun(ext, ext[2])|
  {
    var front;
    var cs := ParsedShows(ext, stale, t);
    front, k := BehindParts(ext, cs);
    PartsBehind(front, ext, cs, t, k);
  }

  predicate PixClkIsZero(ext: seq<Byte>, at: nat) { at + 2 <= |ext| && PixClk(ext, at) == 0 }

  /** In a buffer that is zero from p on, one record and one pixel clock before its end, the timings never
      leave the buffer. */
  lemma {:induction false} ZeroTailStops(ext: seq<Byte>, at: nat, p: nat)
    requires IsExt(ext) && BLOCK_SIZE <= at && at + 18 <= |ext| && p + 20 <= |ext|
    requires forall k :: p <= k < |ext| ==> ext[k] == 0
    ensures RunStops(ext, at + 18 * |DtdRun(ext, at)|)
    decreases |ext| - at
  {
    if PixClk(ext, at) != 0 {
      assert at < p;
      if at + 36 <= |ext| { ZeroTailStops(ext, at + 18, p); }
    }
  }

  lemma {:induction false} ZeroTailInside(ext: seq<Byte>, p: nat)
    requires IsExt(ext) && p + 20 <= |ext| && forall k :: p <= k < |ext| ==> ext[k] == 0
    ensures !LeavesBuffer(ext)
  {
    if ext[2] >= BLOCK_SIZE { ZeroTailStops(ext, ext[2], p); }
  }

  // ---------------------------------------------------------------- no way back

  lemma {:induction false} SubPiecesLast(subs: seq<Sub>)
    requires subs != []
    ensures SubPieces(subs) == SubPieces(subs[..|subs| - 1]) + [Piece(subs[|subs| - 1].bytes, [])]
  {
  }

  lemma {:induction false} OnePiece(p: Piece)
    ensures PieceData([p]) == p.bytes
  {
    assert [p][1..] == [];
    assert p.bytes + [] == p.bytes;
  }

  lemma {:induction false} SubPiecesLen(subs: seq<Sub>, n: nat)
    requires n <= |subs|
    ensures |PieceData(SubPieces(subs[..n]))| == SubBytes(subs, n)
  {
    if n > 0 {
      var front := subs[..n];
      assert front[..n - 1] == subs[..n - 1];
      SubPiecesLast(front);
      SubPiecesLen(subs, n - 1);
      var p := Piece(subs[n - 1].bytes, []);
      PieceDataAppend(SubPieces(subs[..n - 1]), [p]);
      OnePiece(p);
    }
  }

  predicate AllSpawn(grps: seq<Grp>) { forall g :: g in grps ==> Spawnable(g) }

  /** The pieces of one group. */
  function GrpPieces(g: Grp): seq<Piece>
    requires Spawnable(g)
  {
    [PieceOf(g)] + SubPieces(g.subs)
  }

  lemma {:induction false} GrpPiecesLen(g: Grp)
    requires Spawnable(g)
    ensures |PieceData(GrpPieces(g))| == Own(g)
  {
    PieceDataAppend([PieceOf(g)], SubPieces(g.subs));
    OnePiece(PieceOf(g));
    assert g.subs[..|g.subs|] == g.subs;
    SubPiecesLen(g.subs, |g.subs|);
  }

  lemma {:induction false} PiecesAppend(grps: seq<Grp>, g: Grp)
    requires AllSpawn(grps) && Spawnable(g) && AllSpawn(grps + [g])
    ensures Pieces(grps + [g]) == Pieces(grps) + GrpPieces(g)
    decreases |grps|
  {
    if grps == [] {
      assert (grps + [g])[1..] == [];
    } else {
      assert (grps + [g])[1..] == grps[1..] + [g] && (grps + [g])[0] == grps[0];
      PiecesAppend(grps[1..], g);
    }
  }

  /** The bytes that assembly copies are those the counters count. */
  lemma {:induction false} PiecesLen(grps: seq<Grp>, n: nat)
    requires AllSpawn(grps) && n <= |grps|
    ensures |PieceData(Pieces(grps[..n]))| == GrpBytes(grps, n)
  {
    if n > 0 {
      var (front, g) := (grps[..n - 1], grps[n - 1]);
      assert grps[..n] == front + [g];
      PiecesLen(grps, n - 1);
      PiecesAppend(front, g);
      PieceDataAppend(Pieces(front), GrpPieces(g));
      GrpPiecesLen(g);
      GrpBytesNext(grps, n - 1, g);
    }
  }

  /** Groups that end in a DTD which starts behind the room are not assembled. */
  lemma {:induction false} TooLong(buf: seq<Byte>, grps: seq<Grp>)
    requires |buf| == BUFFER_SIZE && Assemblable(grps) && grps != []
    requires var g := grps[|grps| - 1];
             g.subs == [] && DataSize(g) == 18 && GrpBytes(grps, |grps|) - 18 >= CEA_SPACE
    ensures !AssembleCea(buf, grps).0
  {
    var ps := Pieces(grps);
    LastOfPieces(grps);
    PlaceSucceeds(buf, BLOCK_SIZE, ps, 0, CEA_SPACE);
    PlaceAppend(buf, BLOCK_SIZE, ps, [], 0, CEA_SPACE);
  }

  lemma {:induction false} LastOfPieces(grps: seq<Grp>)
    requires AllSpawn(grps) && grps != [] && grps[|grps| - 1].subs == []
    ensures |PieceData(Pieces(grps))| == GrpBytes(grps, |grps|) && Pieces(grps) != []
    ensures LastBytes(Pieces(grps)) == DataSize(grps[|grps| - 1])
  {
    var n := |grps| - 1;
    assert grps[..n + 1] == grps && grps == grps[..n] + [grps[n]];
    PiecesLen(grps, n + 1);
    PiecesAppend(grps[..n], grps[n]);
    assert Pieces(grps) == Pieces(grps[..n]) + [PieceOf(grps[n])];
  }

  lemma {:induction false} ShownSpawns(c: GrpC, at: nat, i: nat)
    requires IsHdr(c) || IsBlock(c)
    ensures Spawnable(Shown(c, at, i))
  {
    GroupPiecesData(c, at, i);
  }

  /** A header and blocks. */
  predicate HeaderFirst(cs: Contents) {
    cs != [] && IsHdr(cs[0]) && forall i {:trigger cs[i]} :: 1 <= i < |cs| ==> IsBlock(cs[i])
  }

  lemma {:induction false} AcceptedHeaded(ext: seq<Byte>, cs: Contents)
    requires IsExt(ext) && ext[2] >= 4 && ParseCea(ext) == Some(cs)
    ensures HeaderFirst(cs)
  {
    var bs, k := AcceptedIsTiled(ext);
    TiledHeaded(ext, bs, k, cs);
  }

  lemma {:induction false} TiledHeaded(ext: seq<Byte>, bs: seq<seq<Byte>>, k: nat, cs: Contents)
    requires IsExt(ext) && Tiles(bs) && (k > 0 ==> ext[2] + 18 * k <= |ext|)
    requires cs == [HeaderGrp(ext)] + Inits(bs) + Records(ext, ext[2], k)
    ensures HeaderFirst(cs)
  {
    TileBlocks(bs);
    forall i {:trigger cs[i]} | 1 <= i < |cs| ensures IsBlock(cs[i]) {
      if i <= |bs| { assert cs[i] == Inits(bs)[i - 1]; } else { assert cs[i] == Records(ext, ext[2], k)[i - 1 - |bs|]; }
    }
  }

  lemma {:induction false} ShownAssemblable(cs: Contents)
    requires HeaderFirst(cs)
    ensures Assemblable(ShownGrps(cs))
  {
    var grps := ShownGrps(cs);
    forall g | g in grps ensures Spawnable(g) {
      var i :| 0 <= i < |grps| && grps[i] == g;
      ShownSpawns(cs[i], Start(cs, i), i);
    }
    PiecesSmall(grps);
  }

  lemma {:induction false} EndsBehind(ext: seq<Byte>, cs: Contents, front: Contents, k: nat)
    requires IsExt(ext) && Split(front, ext, cs, k) && k > 0
    ensures cs != [] && IsDtd(cs[|cs| - 1]) && Start(cs, |cs|) - 18 >= CEA_SPACE
  {
    RunDtds(ext, ext[2]);
    RunEnd(front, ext, ext[2], cs, k);
    assert cs[|cs| - 1] == DtdRun(ext, ext[2])[k - 1];
  }

  lemma {:induction false} ShownTooLong(buf: seq<Byte>, cs: Contents)
    requires |buf| == BUFFER_SIZE && HeaderFirst(cs) && IsDtd(cs[|cs| - 1]) && Start(cs, |cs|) - 18 >= CEA_SPACE
    ensures Assemblable(ShownGrps(cs)) && !AssembleCea(buf, ShownGrps(cs)).0
  {
    ShownAssemblable(cs);
    ShownBytes(cs);
    ShownDtd(cs[|cs| - 1], Start(cs, |cs| - 1), |cs| - 1);
    TooLong(buf, ShownGrps(cs));
  }

  /** A tree with timings behind the block is not assembled again. */
  lemma {:induction false} BehindNeverAssembles(buf: seq<Byte>, ext: seq<Byte>, stale: Tree, t: Tree)
    requires |buf| == BUFFER_SIZE && IsExt(ext) && ext[2] >= BLOCK_SIZE && ParsedTree(ext, stale) == Some(t)
    requires DtdRun(ext, ext[2]) != []
    ensures Assemblable(t.grps) && !AssembleCea(buf, t.grps).0
  {
    var cs := ParsedShows(ext, stale, t);
    var front, k := BehindParts(ext, cs);
    AcceptedHeaded(ext, cs);
    EndsBehind(ext, cs, front, k);
    ShownTooLong(buf, cs);
  }

  // ---------------------------------------------------------------- an example

  /** A capability map block of 31 bytes. */
  function Map31(): (b: seq<Byte>)
    ensures |b| == 31
  {
    [254, 15] + Zeros(29)
  }

  /** Four such blocks reach the end of the extension block; the next one begins with 02 03. */
  function Overlong(native: Byte): (ext: seq<Byte>)
    ensures |ext| == BUFFER_SIZE - BLOCK_SIZE
  {
    [2, 3, 128, native] + (Map31() + (Map31() + (Map31() + Map31()))) + [2, 3] + Zeros(BUFFER_SIZE - 2 * BLOCK_SIZE - 2)
  }

  lemma {:induction false} Map31Tile()
    ensures Tile(Map31())
  {
  }

  /** With no native timing or one, the start of the next block becomes a timing at buffer offset 256. */
  lemma {:induction false} OverlongParses(native: Byte, stale: Tree)
    requires native % 16 <= 1
    ensures var r := ParsedTree(Overlong(native), stale);
            && r.Some? && |r.value.grps| == 6
            && FarTiming(r.value.grps[5], Overlong(native), BLOCK_SIZE, 5)
            && r.value.grps[5].abs == 256 && r.value.free == -19
  {
    var ext := Overlong(native);
    var cs := OverlongContents(native);
    var t := ParsedTree(ext, stale).value;
    LongestUnique(ext, BLOCK_SIZE, 1);
    var k := TimingsBehind(ext, stale, t);
    assert |t.grps| == 6 && TimingHere(t.grps, 5, ext, BLOCK_SIZE, 5);
  }

  lemma {:induction false} OverlongContents(native: Byte) returns (cs: Contents)
    requires native % 16 <= 1
    ensures var ext := Overlong(native);
            ext[2] == 128 && ParseCea(ext) == Some(cs) && |cs| == 6 && Longest(ext, BLOCK_SIZE, 1)
  {
    var ext, bs := Overlong(native), [Map31(), Map31(), Map31(), Map31()];
    Map31Tile();
    OverlongBlocks(native);
    OverlongRun(native);
    TiledIsAccepted(ext, bs, 1);
    cs := [HeaderGrp(ext)] + Inits(bs) + Records(ext, ext[2], 1);
  }

  lemma {:induction false} OverlongBlocks(native: Byte)
    ensures var ext := Overlong(native);
            && ext[0] == 2 && ext[1] == 3 && ext[2] == 128 && ext[3] == native
            && Concat([Map31(), Map31(), Map31(), Map31()]) == ext[4..128]
  {
    var m := Map31();
    assert Concat([m, m, m, m]) == m + (m + (m + m)) by {
      ConcatOne(m);
      assert [m, m][1..] == [m] && [m, m, m][1..] == [m, m] && [m, m, m, m][1..] == [m, m, m];
    }
  }

  lemma {:induction false} OverlongRun(native: Byte)
    ensures Longest(Overlong(native), 128, 1) && RunStops(Overlong(native), 146)
  {
    var ext := Overlong(native);
    assert ext[128] == 2 && ext[129] == 3 && ext[146] == 0 && ext[147] == 0;
  }
}
