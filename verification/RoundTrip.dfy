/** Parsing an extension block in strict mode and assembling it again. */
module RoundTrip {
  import opened Bytes
  import opened GroupTree
  import opened GroupContent
  import opened BlockSplit
  import opened DataBlocks
  import opened Assembler
  import opened CeaImage
  import opened CeaParser
  import opened CeaTiling

  // ---------------------------------------------------------------- blocks behind the header

  predicate Blocks(cs: Contents) {
    forall i {:trigger cs[i]} :: 0 <= i < |cs| ==> IsBlock(cs[i])
  }

  /** The bytes of a list of blocks. */
  function BlockData(cs: Contents): seq<Byte>
    requires Blocks(cs)
  {
    if cs == [] then [] else
      assert cs[1..] != [] ==> IsBlock(cs[1]);
      GrpData(cs[0]) + BlockData(cs[1..])
  }

  lemma {:induction false} BlocksJoin(a: Contents, b: Contents)
    requires Blocks(a) && Blocks(b)
    ensures Blocks(a + b)
  {
  }

  lemma {:induction false} BlockDataAppend(a: Contents, b: Contents)
    requires Blocks(a) && Blocks(b) && Blocks(a + b)
    ensures BlockData(a + b) == BlockData(a) + BlockData(b)
    decreases |a|
  {
    if a == [] {
      assert a + b == b;
    } else {
      assert (a + b)[0] == a[0] && (a + b)[1..] == a[1..] + b;
      BlockDataAppend(a[1..], b);
      Glue(GrpData(a[0]), BlockData(a[1..]), BlockData(b));
    }
  }

  lemma {:induction false} BlocksFromNext(cs: Contents, i: nat)
    requires i < |cs| && Blocks(cs[i..])
    ensures IsBlock(cs[i]) && Blocks(cs[i + 1..])
    ensures BlockData(cs[i..]) == GrpData(cs[i]) + BlockData(cs[i + 1..])
  {
    assert cs[i..][0] == cs[i] && cs[i..][1..] == cs[i + 1..];
    forall k {:trigger cs[i + 1..][k]} | 0 <= k < |cs[i + 1..]| ensures IsBlock(cs[i + 1..][k]) {
      assert cs[i + 1..][k] == cs[i..][k + 1];
    }
  }

  /** Blocks from i on: their bytes end where the starts say. */
  lemma {:induction false} StartOfBlocks(cs: Contents, i: nat)
    requires i <= |cs| && Blocks(cs[i..])
    ensures Start(cs, i) + |BlockData(cs[i..])| == Start(cs, |cs|)
    decreases |cs| - i
  {
    if i < |cs| {
      BlocksFromNext(cs, i);
      StartOfBlocks(cs, i + 1);
    }
  }

  lemma {:induction false} DataOfBlocks(cs: Contents, i: nat, rest: Contents)
    requires Sound(cs) && 1 <= i <= |cs| && rest == cs[i..] && Blocks(rest)
    ensures Data(cs, |cs|) == Data(cs, i) + BlockData(rest)
    decreases |rest|
  {
    if rest != [] {
      DataShift(cs, i, rest);
      DataOfBlocks(cs, i + 1, rest[1..]);
    }
  }

  lemma {:induction false} DataShift(cs: Contents, i: nat, rest: Contents)
    requires Sound(cs) && 1 <= i < |cs| && rest == cs[i..] && Blocks(rest)
    ensures rest[1..] == cs[i + 1..] && Blocks(rest[1..])
    ensures Data(cs, i) + BlockData(rest) == Data(cs, i + 1) + BlockData(rest[1..])
  {
    BlocksFromNext(cs, i);
    Glue(Data(cs, i), GrpData(cs[i]), BlockData(cs[i + 1..]));
  }

  /** A header and blocks behind it. */
  lemma {:induction false} Headed(h: GrpC, blocks: Contents)
    requires IsHdr(h) && Blocks(blocks)
    ensures var cs := [h] + blocks;
            Start(cs, |cs|) == 4 + |BlockData(blocks)|
            && (Start(cs, |cs|) <= CEA_SPACE ==> Sound(cs) && Data(cs, |cs|) == h.inst[..4] + BlockData(blocks))
  {
    var cs := [h] + blocks;
    assert cs[1..] == blocks;
    StartOfBlocks(cs, 1);
    assert Start(cs, 1) == Start(cs, 0) + Width(cs[0]) == 4;
    forall i {:trigger cs[i]} | 1 <= i < |cs| ensures IsBlock(cs[i]) { assert cs[i] == blocks[i - 1]; }
    if Start(cs, |cs|) <= CEA_SPACE {
      DataOfBlocks(cs, 1, blocks);
      HeaderPiece(cs);
    }
  }

  lemma {:induction false} TileBlocks(bs: seq<seq<Byte>>)
    requires Tiles(bs)
    ensures Blocks(Inits(bs)) && BlockData(Inits(bs)) == Concat(bs)
    ensures forall k {:trigger Inits(bs)[k]} :: 0 <= k < |bs| ==> IsDbc(Inits(bs)[k]) && Inits(bs)[k].lag == 0
    decreases |bs|
  {
    forall k {:trigger Inits(bs)[k]} | 0 <= k < |bs| ensures IsDbc(Inits(bs)[k]) && Inits(bs)[k].lag == 0 {
      assert Tile(bs[k]);
      StrictKeepsBytes(bs[k]);
    }
    if bs != [] {
      assert Tile(bs[0]);
      StrictKeepsBytes(bs[0]);
      forall k {:trigger bs[1..][k]} | 0 <= k < |bs[1..]| ensures Tile(bs[1..][k]) { assert bs[1..][k] == bs[k + 1]; }
      TileBlocks(bs[1..]);
      assert Inits(bs)[1..] == Inits(bs[1..]);
    }
  }

  lemma {:induction false} DtdData(ext: seq<Byte>, at: nat)
    requires IsExt(ext) && at + 18 <= |ext|
    ensures GrpData(DtdAt(ext, at)) == ext[at..at + 18]
  {
    var c := DtdAt(ext, at);
    assert c.inst[..18] + AllSubData(c.subs) == ext[at..at + 18];
  }

  lemma {:induction false} RecordBlocks(ext: seq<Byte>, at: nat, k: nat)
    requires IsExt(ext) && at + 18 * k <= CEA_SPACE
    ensures Blocks(Records(ext, at, k)) && BlockData(Records(ext, at, k)) == ext[at..at + 18 * k]
    decreases k
  {
    if k > 0 {
      RecordBlocks(ext, at + 18, k - 1);
      var cs := Records(ext, at, k);
      assert cs[0] == DtdAt(ext, at + 18 * 0);
      DtdData(ext, at);
      assert cs[1..] == Records(ext, at + 18, k - 1) by {
        forall j | 0 <= j < k - 1 ensures cs[1..][j] == Records(ext, at + 18, k - 1)[j] {
          assert cs[1..][j] == cs[j + 1] == DtdAt(ext, at + 18 * (j + 1));
        }
      }
      assert ext[at..at + 18 * k] == ext[at..at + 18] + ext[at + 18..at + 18 * k];
    }
  }

  // ---------------------------------------------------------------- parsed contents

  function Parsed(ext: seq<Byte>, bs: seq<seq<Byte>>, k: nat): Contents
    requires IsExt(ext) && Tiles(bs) && ext[2] + 18 * k <= CEA_SPACE
  {
    [HeaderGrp(ext)] + Inits(bs) + Records(ext, ext[2], k)
  }

  lemma {:induction false} ParsedBlocks(ext: seq<Byte>, bs: seq<seq<Byte>>, k: nat)
    requires IsExt(ext) && 4 <= ext[2] <= CEA_SPACE && ext[2] + 18 * k <= CEA_SPACE
    requires Tiles(bs) && Concat(bs) == ext[4..ext[2]]
    ensures var blocks := Inits(bs) + Records(ext, ext[2], k);
            Blocks(blocks) && BlockData(blocks) == ext[4..ext[2] + 18 * k]
  {
    var a, b := Inits(bs), Records(ext, ext[2], k);
    TileBlocks(bs);
    RecordBlocks(ext, ext[2], k);
    JoinData(a, b, ext, 4, ext[2], ext[2] + 18 * k);
  }

  lemma {:induction false} JoinData(a: Contents, b: Contents, ext: seq<Byte>, p: nat, q: nat, r: nat)
    requires Blocks(a) && Blocks(b) && p <= q <= r <= |ext| && BlockData(a) == ext[p..q] && BlockData(b) == ext[q..r]
    ensures Blocks(a + b) && BlockData(a + b) == ext[p..r]
  {
    BlocksJoin(a, b);
    BlockDataAppend(a, b);
    SliceJoin(ext, p, q, r);
  }

  lemma {:induction false} ParsedOrder(ext: seq<Byte>, bs: seq<seq<Byte>>, k: nat, i: nat)
    requires IsExt(ext) && ext[2] + 18 * k <= CEA_SPACE && Tiles(bs) && 1 <= i < 1 + |bs| + k
    ensures IsDtd(Parsed(ext, bs, k)[i]) <==> i > |bs|
  {
    var cs := Parsed(ext, bs, k);
    if i > |bs| {
      assert cs[i] == Records(ext, ext[2], k)[i - 1 - |bs|];
    } else {
      TileBlocks(bs);
      assert cs[i] == Inits(bs)[i - 1];
    }
  }

  lemma {:induction false} ParsedDtdsLast(ext: seq<Byte>, bs: seq<seq<Byte>>, k: nat)
    requires IsExt(ext) && ext[2] + 18 * k <= CEA_SPACE && Tiles(bs)
    ensures DtdsLast(Parsed(ext, bs, k))
  {
    var cs := Parsed(ext, bs, k);
    forall i, j {:trigger cs[i], cs[j]} | 1 <= i < j < |cs| && IsDtd(cs[i]) ensures IsDtd(cs[j]) {
      ParsedOrder(ext, bs, k, i);
      ParsedOrder(ext, bs, k, j);
    }
  }

  /** What strict parsing returns is a good block, and its bytes are those it was read from. */
  lemma {:induction false} ParsedIsGood(ext: seq<Byte>, bs: seq<seq<Byte>>, k: nat)
    requires IsExt(ext) && 4 <= ext[2] <= CEA_SPACE && ext[2] + 18 * k <= CEA_SPACE
    requires Tiles(bs) && Concat(bs) == ext[4..ext[2]]
    ensures var cs := Parsed(ext, bs, k);
            Good(cs) && Data(cs, |cs|) == ext[..ext[2] + 18 * k]
  {
    var cs, blocks := Parsed(ext, bs, k), Inits(bs) + Records(ext, ext[2], k);
    ParsedBlocks(ext, bs, k);
    Headed(HeaderGrp(ext), blocks);
    assert cs == [HeaderGrp(ext)] + blocks;
    ParsedDtdsLast(ext, bs, k);
    FrontJoin(ext, ext[2] + 18 * k);
  }

  lemma {:induction false} FrontJoin(ext: seq<Byte>, n: nat)
    requires IsExt(ext) && 4 <= n <= |ext|
    ensures HeaderGrp(ext).inst[..4] + ext[4..n] == ext[..n]
  {
    assert HeaderGrp(ext).inst[..4] == ext[..4];
  }

  lemma {:induction false} ParsedDtds(ext: seq<Byte>, bs: seq<seq<Byte>>, k: nat)
    requires IsExt(ext) && 4 <= ext[2] <= CEA_SPACE && ext[2] + 18 * k <= CEA_SPACE
    requires Tiles(bs) && Concat(bs) == ext[4..ext[2]]
    ensures var cs := Parsed(ext, bs, k);
            FirstDtd(cs, 1) == |bs| + 1 && |cs| == |bs| + 1 + k && Start(cs, |bs| + 1) == ext[2]
            && (k > 0 ==> IsDtd(cs[|cs| - 1]))
  {
    ParsedStart(ext, bs, k);
    ParsedFirst(ext, bs, k);
  }

  lemma {:induction false} TilesStart(ext: seq<Byte>, tiles: seq<seq<Byte>>, d: nat)
    requires IsExt(ext) && 4 <= d <= |ext| && Tiles(tiles) && Concat(tiles) == ext[4..d]
    ensures Start([HeaderGrp(ext)] + Inits(tiles), |tiles| + 1) == d
  {
    TileBlocks(tiles);
    Headed(HeaderGrp(ext), Inits(tiles));
  }

  lemma {:induction false} ParsedStart(ext: seq<Byte>, bs: seq<seq<Byte>>, k: nat)
    requires IsExt(ext) && 4 <= ext[2] <= CEA_SPACE && ext[2] + 18 * k <= CEA_SPACE
    requires Tiles(bs) && Concat(bs) == ext[4..ext[2]]
    ensures |Parsed(ext, bs, k)| == |bs| + 1 + k && Start(Parsed(ext, bs, k), |bs| + 1) == ext[2]
  {
    var (cs, front) := (Parsed(ext, bs, k), [HeaderGrp(ext)] + Inits(bs));
    TilesStart(ext, bs, ext[2]);
    assert cs[..|bs| + 1] == front;
    StartSame(front, cs, |bs| + 1);
  }

  lemma {:induction false} ParsedFirst(ext: seq<Byte>, bs: seq<seq<Byte>>, k: nat)
    requires IsExt(ext) && ext[2] + 18 * k <= CEA_SPACE && Tiles(bs)
    ensures var cs := Parsed(ext, bs, k);
            FirstDtd(cs, 1) == |bs| + 1 && (k > 0 ==> IsDtd(cs[|cs| - 1]))
  {
    var cs := Parsed(ext, bs, k);
    var f := FirstDtd(cs, 1);
    if f < |cs| { ParsedOrder(ext, bs, k, f); }
    if k > 0 {
      ParsedOrder(ext, bs, k, |bs| + 1);
      ParsedOrder(ext, bs, k, |cs| - 1);
    }
  }

  lemma {:induction false} ImageFrom(cs: Contents, d: seq<Byte>, chk: Byte, off: Byte)
    requires Sound(cs) && Data(cs, |cs|) == d && cs[0].inst[4] == chk && DtdStart(cs) == off
    ensures 4 <= |d| <= CEA_SPACE && Image(cs) == (d + Zeros(CEA_SPACE - |d|) + [chk])[2 := off]
  {
    StartMono(cs, 1, |cs|);
    assert Start(cs, 1) == Start(cs, 0) + Width(cs[0]);
  }

  /** The read bytes, zeros and the checksum byte are the block. */
  lemma {:induction false} Padded(ext: seq<Byte>, d: seq<Byte>, off: Byte)
    requires IsExt(ext) && 4 <= |d| <= CEA_SPACE && d == ext[..|d|] && ZeroFrom(ext, |d|)
    ensures (d + Zeros(CEA_SPACE - |d|) + [ext[127]])[2 := off] == ext[..BLOCK_SIZE][2 := off]
  {
  }

  lemma {:induction false} ParsedOffset(ext: seq<Byte>, bs: seq<seq<Byte>>, k: nat)
    requires IsExt(ext) && 4 <= ext[2] <= CEA_SPACE && ext[2] + 18 * k <= CEA_SPACE
    requires Tiles(bs) && Concat(bs) == ext[4..ext[2]]
    ensures DtdStart(Parsed(ext, bs, k)) == if k > 0 then ext[2] else 0
    ensures Parsed(ext, bs, k)[0].inst[4] == ext[127]
  {
    ParsedDtds(ext, bs, k);
  }

  lemma {:induction false} ImageOfParsed(ext: seq<Byte>, bs: seq<seq<Byte>>, k: nat)
    requires IsExt(ext) && 4 <= ext[2] <= CEA_SPACE && ext[2] + 18 * k <= CEA_SPACE
    requires Tiles(bs) && Concat(bs) == ext[4..ext[2]] && ZeroFrom(ext, ext[2] + 18 * k)
    ensures var cs := Parsed(ext, bs, k);
            Good(cs) && Image(cs) == ext[..BLOCK_SIZE][2 := if k > 0 then ext[2] else 0]
  {
    ParsedIsGood(ext, bs, k);
    ParsedOffset(ext, bs, k);
    var d, off := ext[..ext[2] + 18 * k], if k > 0 then ext[2] else 0;
    ImageFrom(Parsed(ext, bs, k), d, ext[127], off);
    Padded(ext, d, off);
  }

  lemma {:induction false} WriteBack(buf: seq<Byte>, off: Byte)
    requires |buf| == BUFFER_SIZE
    ensures Write(buf, BLOCK_SIZE, buf[BLOCK_SIZE..][..BLOCK_SIZE][2 := off]) == buf[BLOCK_SIZE + 2 := off]
  {
  }

  lemma {:induction false} DtdEndsFull(cs: Contents)
    requires cs != [] && IsDtd(cs[|cs| - 1])
    ensures !EndsEmpty(cs)
  {
  }

  lemma {:induction false} AssemblesBack(buf: seq<Byte>, cs: Contents, off: Byte)
    requires |buf| == BUFFER_SIZE && Sound(cs) && Image(cs) == buf[BLOCK_SIZE..][..BLOCK_SIZE][2 := off]
    ensures Assemblable(Render(cs).grps)
    ensures var r := AssembleCea(buf, Render(cs).grps);
            (r.0 <==> Start(cs, |cs|) < CEA_SPACE || !EndsEmpty(cs)) && (r.0 ==> r.1 == buf[BLOCK_SIZE + 2 := off])
  {
    AssemblesImage(buf, cs);
    WriteBack(buf, off);
  }

  /** Assembly of the groups of a block with k DTDs into the buffer it was read from. */
  predicate Reassembles(buf: seq<Byte>, cs: Contents, k: nat)
    requires |buf| == BUFFER_SIZE && Assemblable(Render(cs).grps) && cs != []
  {
    var r := AssembleCea(buf, Render(cs).grps);
    if k > 0 then r == (true, buf)
    else (r.0 <==> buf[BLOCK_SIZE + 2] < CEA_SPACE || !EndsEmpty(cs)) && (r.0 ==> r.1 == buf[BLOCK_SIZE + 2 := 0])
  }

  lemma {:induction false} BackWithDtds(buf: seq<Byte>, cs: Contents, k: nat)
    requires |buf| == BUFFER_SIZE && Sound(cs) && Start(cs, |cs|) == buf[BLOCK_SIZE + 2] + 18 * k
    requires Image(cs) == buf[BLOCK_SIZE..][..BLOCK_SIZE][2 := if k > 0 then buf[BLOCK_SIZE + 2] else 0]
    requires k > 0 ==> !EndsEmpty(cs)
    ensures Assemblable(Render(cs).grps) && Reassembles(buf, cs, k)
  {
    AssemblesBack(buf, cs, if k > 0 then buf[BLOCK_SIZE + 2] else 0);
    assert buf[BLOCK_SIZE + 2 := buf[BLOCK_SIZE + 2]] == buf;
  }

  lemma {:induction false} ParsedFacts(ext: seq<Byte>, cs: Contents) returns (k: nat)
    requires IsExt(ext) && 4 <= ext[2] <= CEA_SPACE && ParseCea(ext) == Some(cs)
    ensures Good(cs) && k == |DtdRun(ext, ext[2])| && Start(cs, |cs|) == ext[2] + 18 * k
    ensures Image(cs) == ext[..BLOCK_SIZE][2 := if k > 0 then ext[2] else 0]
    ensures k > 0 ==> !EndsEmpty(cs)
  {
    var bs, n := AcceptedIsTiled(ext);
    k := n;
    LongestUnique(ext, ext[2], k);
    ImageOfParsed(ext, bs, k);
    assert Start(cs, |cs|) == ext[2] + 18 * k by { ParsedIsGood(ext, bs, k); }
    if k > 0 {
      ParsedDtds(ext, bs, k);
      DtdEndsFull(cs);
    }
  }

  /** Strict parsing, then assembly into the same buffer: with a DTD every byte comes back, the
      recomputed DTD offset too.  Without one only the DTD offset changes, to 0; and assembly refuses
      the block if an empty part ends it at byte 126. */
  lemma {:induction false} ParseThenAssemble(buf: seq<Byte>, cs: Contents)
    requires |buf| == BUFFER_SIZE && 4 <= buf[BLOCK_SIZE + 2] <= CEA_SPACE
    requires ParseCea(buf[BLOCK_SIZE..]) == Some(cs)
    ensures Good(cs) && Assemblable(Render(cs).grps)
    ensures Reassembles(buf, cs, |DtdRun(buf[BLOCK_SIZE..], buf[BLOCK_SIZE + 2])|)
  {
    var k := ParsedFacts(buf[BLOCK_SIZE..], cs);
    BackWithDtds(buf, cs, k);
  }

  lemma {:induction false} HeaderImage(ext: seq<Byte>, cs: Contents)
    requires IsExt(ext) && ext[2] == 0 && cs == [HeaderGrp(ext)]
    ensures Good(cs) && Start(cs, 1) == 4 && Image(cs) == ext[..4] + Zeros(CEA_SPACE - 4) + [ext[127]]
  {
    Headed(HeaderGrp(ext), []);
    assert [HeaderGrp(ext)] + [] == cs;
    assert HeaderGrp(ext).inst[..4] + BlockData([]) == ext[..4];
    ImageFrom(cs, ext[..4], ext[127], 0);
  }

  /** With DTD offset 0 only the header is read, and assembly clears everything between it and the
      checksum: the block comes back exactly if that was zero. */
  lemma {:induction false} HeaderOnlyAssembles(buf: seq<Byte>, cs: Contents)
    requires |buf| == BUFFER_SIZE && buf[BLOCK_SIZE..][2] == 0 && ParseCea(buf[BLOCK_SIZE..]) == Some(cs)
    ensures Good(cs) && Assemblable(Render(cs).grps)
    ensures var r := AssembleCea(buf, Render(cs).grps);
            && r == (true, buf[..BLOCK_SIZE + 4] + Zeros(CEA_SPACE - 4) + buf[BLOCK_SIZE + 127..])
            && (r.1 == buf <==> ZeroFrom(buf[BLOCK_SIZE..], 4))
  {
    var ext := buf[BLOCK_SIZE..];
    HeaderImage(ext, cs);
    AssemblesImage(buf, cs);
    ClearedBack(buf);
  }

  lemma {:induction false} ClearedBack(buf: seq<Byte>)
    requires |buf| == BUFFER_SIZE
    ensures var (ext, w) := (buf[BLOCK_SIZE..], buf[..BLOCK_SIZE + 4] + Zeros(CEA_SPACE - 4) + buf[BLOCK_SIZE + 127..]);
            && Write(buf, BLOCK_SIZE, ext[..4] + Zeros(CEA_SPACE - 4) + [ext[127]]) == w
            && (w == buf <==> ZeroFrom(ext, 4))
  {
    var (ext, w) := (buf[BLOCK_SIZE..], buf[..BLOCK_SIZE + 4] + Zeros(CEA_SPACE - 4) + buf[BLOCK_SIZE + 127..]);
    forall k | 4 <= k < CEA_SPACE ensures w[BLOCK_SIZE + k] == 0 && ext[k] == buf[BLOCK_SIZE + k] {}
    if ZeroFrom(ext, 4) { assert w == buf; }
  }
}
