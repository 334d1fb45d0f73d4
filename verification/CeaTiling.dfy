/** What strict acceptance of a CTA-861 block means: its bytes are tiled, in exactly one way. */
module CeaTiling {
  import opened Bytes
  import opened GroupTree
  import opened GroupContent
  import opened DataBlocks
  import opened Assembler
  import opened CeaParser

  predicate Tile(b: seq<Byte>) {
    WholeBlock(b) && StrictInit(b).Some?
  }

  function Content(b: seq<Byte>): GrpC
    requires Tile(b)
  {
    StrictInit(b).value
  }

  predicate Tiles(bs: seq<seq<Byte>>) {
    forall k {:trigger bs[k]} :: 0 <= k < |bs| ==> Tile(bs[k])
  }

  function Inits(bs: seq<seq<Byte>>): (cs: Contents)
    requires Tiles(bs)
    ensures |cs| == |bs| && forall k {:trigger cs[k]} :: 0 <= k < |cs| ==> cs[k] == Content(bs[k])
  {
    seq(|bs|, k requires 0 <= k < |bs| => Content(bs[k]))
  }

  /** k timing records from at on. */
  function Records(ext: seq<Byte>, at: nat, k: nat): (cs: Contents)
    requires IsExt(ext) && (k > 0 ==> at + 18 * k <= |ext|)
    ensures |cs| == k && forall j {:trigger cs[j]} :: 0 <= j < k ==> cs[j] == DtdAt(ext, at + 18 * j)
  {
    seq(k, j requires 0 <= j < k => DtdAt(ext, at + 18 * j))
  }

  predicate Timing(ext: seq<Byte>, at: nat)
    requires IsExt(ext)
  {
    RecordFits(at) && PixClk(ext, at) != 0
  }

  /** k records with a pixel clock, and no further one. */
  predicate Longest(ext: seq<Byte>, at: nat, k: nat)
    requires IsExt(ext)
  {
    (forall j :: 0 <= j < k ==> Timing(ext, at + 18 * j)) && !Timing(ext, at + 18 * k)
  }

  /** The last block starts in the extension block, though an offset of 128 or more lies behind it. */
  predicate StartsInside(bs: seq<seq<Byte>>, d: Byte) {
    d > BLOCK_SIZE && bs != [] ==> d < BLOCK_SIZE + |bs[|bs| - 1]|
  }

  /** The block from its header on: data blocks bs up to the DTD offset, then the longest run of k
      timing records that fit, at least the native ones, then zeros up to the checksum.  With an offset
      of 128 or more the timings lie behind the block, and a zero pixel clock has to end them. */
  predicate Accepts(ext: seq<Byte>, bs: seq<seq<Byte>>, k: nat)
    requires IsExt(ext) && 4 <= ext[2]
  {
    var d := ext[2];
    && HeaderOk(ext) && Tiles(bs) && Concat(bs) == ext[4..d] && StartsInside(bs, d)
    && k >= NumDtd(ext) && Longest(ext, d, k) && RunStops(ext, d + 18 * k) && ZeroFrom(ext, d + 18 * k)
  }

  // ---------------------------------------------------------------- data blocks

  /** bs are accepted blocks with contents cs that make up bytes at .. d - 1. */
  predicate TileWith(ext: seq<Byte>, at: nat, d: Byte, bs: seq<seq<Byte>>, cs: Contents) {
    at <= d <= |ext| && Tiles(bs) && Concat(bs) == ext[at..d] && StartsInside(bs, d) && cs == Inits(bs)
  }

  lemma {:induction false} BlocksTile(ext: seq<Byte>, at: nat, d: Byte) returns (bs: seq<seq<Byte>>)
    requires IsExt(ext) && at <= d && ParseBlocks(ext, at, d).Some?
    ensures Tiles(bs) && Concat(bs) == ext[at..d] && StartsInside(bs, d) && ParseBlocks(ext, at, d) == Some(Inits(bs))
  {
    bs := BlocksTileWith(ext, at, d, ParseBlocks(ext, at, d).value);
  }

  lemma {:induction false} BlocksTileWith(ext: seq<Byte>, at: nat, d: Byte, cs: Contents) returns (bs: seq<seq<Byte>>)
    requires IsExt(ext) && at <= d && ParseBlocks(ext, at, d) == Some(cs)
    ensures TileWith(ext, at, d, bs, cs)
    decreases d - at
  {
    if at == d {
      bs := [];
    } else {
      var b, tail := FirstBlock(ext, at, d);
      var rest := BlocksTileWith(ext, at + |b|, d, tail);
      bs := [b] + rest;
      TileInFront(ext, at, d, b, rest);
    }
  }

  lemma {:induction false} TileInFront(ext: seq<Byte>, at: nat, d: Byte, b: seq<Byte>, rest: seq<seq<Byte>>)
    requires IsExt(ext) && at < BLOCK_SIZE && at + |b| <= d && Tile(b) && b == ext[at..at + |b|]
    requires Tiles(rest) && Concat(rest) == ext[at + |b|..d] && StartsInside(rest, d)
    ensures Tiles([b] + rest) && Concat([b] + rest) == ext[at..d] && StartsInside([b] + rest, d)
    ensures Inits([b] + rest) == [Content(b)] + Inits(rest)
  {
    TilesJoin(b, rest);
    BytesInFront(ext, at, d, b, rest);
  }

  lemma {:induction false} BytesInFront(ext: seq<Byte>, at: nat, d: Byte, b: seq<Byte>, rest: seq<seq<Byte>>)
    requires IsExt(ext) && at < BLOCK_SIZE && at + |b| <= d && b == ext[at..at + |b|]
    requires Concat(rest) == ext[at + |b|..d] && StartsInside(rest, d)
    ensures Concat([b] + rest) == ext[at..d] && StartsInside([b] + rest, d)
  {
    assert ([b] + rest)[1..] == rest;
    SliceJoin(ext, at, at + |b|, d);
    if rest != [] { assert ([b] + rest)[|rest|] == rest[|rest| - 1]; }
  }

  lemma {:induction false} FirstBlock(ext: seq<Byte>, at: nat, d: Byte) returns (b: seq<Byte>, rest: Contents)
    requires IsExt(ext) && at < d && ParseBlocks(ext, at, d).Some?
    ensures Tile(b) && at < BLOCK_SIZE && at + |b| <= d && b == ext[at..at + |b|]
    ensures ParseBlocks(ext, at + |b|, d) == Some(rest) && ParseBlocks(ext, at, d) == Some([Content(b)] + rest)
  {
    b := ext[at..at + 1 + BlkLen(ext[at])];
    BlocksUnfold(ext, at, d, b);
    BlocksReach(ext, at + |b|, d);
    rest := ParseBlocks(ext, at + |b|, d).value;
  }

  lemma {:induction false} BlocksReach(ext: seq<Byte>, at: nat, d: Byte)
    requires IsExt(ext) && ParseBlocks(ext, at, d).Some?
    ensures at <= d
  {
  }

  lemma {:induction false} TilesJoin(b: seq<Byte>, rest: seq<seq<Byte>>)
    requires Tile(b) && Tiles(rest)
    ensures Tiles([b] + rest) && Inits([b] + rest) == [Content(b)] + Inits(rest)
    ensures Concat([b] + rest) == b + Concat(rest)
  {
    assert ([b] + rest)[1..] == rest;
  }

  lemma {:induction false} LastFits(bs: seq<seq<Byte>>)
    requires bs != []
    ensures |Concat(bs)| >= |bs[|bs| - 1]|
    decreases |bs|
  {
    if |bs| > 1 {
      LastFits(bs[1..]);
      assert bs[1..][|bs| - 2] == bs[|bs| - 1];
    }
  }

  lemma {:induction false} FirstInside(ext: seq<Byte>, at: nat, d: Byte, bs: seq<seq<Byte>>)
    requires IsExt(ext) && at <= d && Tiles(bs) && bs != [] && Concat(bs) == ext[at..d] && StartsInside(bs, d)
    ensures at < BLOCK_SIZE
  {
    LastFits(bs);
    assert Tile(bs[0]) && |Concat(bs)| == d - at;
    assert Concat(bs) == bs[0] + Concat(bs[1..]);
  }

  lemma {:induction false} TilesParse(ext: seq<Byte>, at: nat, d: Byte, bs: seq<seq<Byte>>)
    requires IsExt(ext) && at <= d && Tiles(bs) && Concat(bs) == ext[at..d] && StartsInside(bs, d)
    ensures ParseBlocks(ext, at, d) == Some(Inits(bs))
  {
    TilesParseAs(ext, at, d, bs, Inits(bs));
  }

  lemma {:induction false} TilesParseAs(ext: seq<Byte>, at: nat, d: Byte, bs: seq<seq<Byte>>, cs: Contents)
    requires IsExt(ext) && TileWith(ext, at, d, bs, cs)
    ensures ParseBlocks(ext, at, d) == Some(cs)
    decreases |bs|
  {
    if bs != [] {
      var b, rest := bs[0], bs[1..];
      TilesTail(ext, at, d, bs);
      TilesParseAs(ext, at + |b|, d, rest, Inits(rest));
      ParseInFront(ext, at, d, b, Inits(rest), cs);
    } else {
      NoTiles(ext, at, d);
    }
  }

  lemma {:induction false} NoTiles(ext: seq<Byte>, at: nat, d: Byte)
    requires IsExt(ext) && at <= d && [] == ext[at..d]
    ensures ParseBlocks(ext, at, d) == Some(Inits([]))
  {
    assert at == d;
  }

  lemma {:induction false} TilesTail(ext: seq<Byte>, at: nat, d: Byte, bs: seq<seq<Byte>>)
    requires IsExt(ext) && at <= d && Tiles(bs) && Concat(bs) == ext[at..d] && StartsInside(bs, d) && bs != []
    ensures var (b, rest) := (bs[0], bs[1..]);
            && Tile(b) && Tiles(rest) && Inits(bs) == [Content(b)] + Inits(rest) && at < BLOCK_SIZE
            && at + |b| <= d && b == ext[at..at + 1 + BlkLen(ext[at])] && Concat(rest) == ext[at + |b|..d]
            && StartsInside(rest, d)
  {
    var b, rest := bs[0], bs[1..];
    assert Tile(b) && bs == [b] + rest;
    forall k {:trigger rest[k]} | 0 <= k < |rest| ensures Tile(rest[k]) { assert rest[k] == bs[k + 1]; }
    TilesJoin(b, rest);
    FirstTile(ext, at, d, b, Concat(rest));
    FirstInside(ext, at, d, bs);
    assert rest != [] ==> rest[|rest| - 1] == bs[|bs| - 1];
  }

  lemma {:induction false} ParseInFront(ext: seq<Byte>, at: nat, d: Byte, b: seq<Byte>, rest: Contents, cs: Contents)
    requires IsExt(ext) && at < BLOCK_SIZE && at + |b| <= d && Tile(b) && b == ext[at..at + 1 + BlkLen(ext[at])]
    requires ParseBlocks(ext, at + |b|, d) == Some(rest) && cs == [Content(b)] + rest
    ensures ParseBlocks(ext, at, d) == Some(cs)
  {
    BlocksUnfold(ext, at, d, b);
  }

  lemma {:induction false} FirstTile(ext: seq<Byte>, at: nat, d: Byte, b: seq<Byte>, rest: seq<Byte>)
    requires IsExt(ext) && at <= d && WholeBlock(b) && b + rest == ext[at..d]
    ensures at + |b| <= d && b == ext[at..at + 1 + BlkLen(ext[at])] && rest == ext[at + |b|..d]
  {
    var s := ext[at..d];
    assert |s| == |b| + |rest|;
    assert s[0] == b[0] && s[0] == ext[at];
    assert s[..|b|] == b && s[|b|..] == rest;
  }

  /** Whole blocks are read back from their concatenation in one way only. */
  lemma {:induction false} TilingUnique(a: seq<seq<Byte>>, b: seq<seq<Byte>>)
    requires forall k {:trigger a[k]} :: 0 <= k < |a| ==> WholeBlock(a[k])
    requires forall k {:trigger b[k]} :: 0 <= k < |b| ==> WholeBlock(b[k])
    requires Concat(a) == Concat(b)
    ensures a == b
    decreases |a|
  {
    if a != [] && b != [] {
      var s := Concat(a);
      assert WholeBlock(a[0]) && WholeBlock(b[0]);
      assert s == a[0] + Concat(a[1..]) && s == b[0] + Concat(b[1..]);
      assert s[0] == a[0][0] == b[0][0];
      assert s[..|a[0]|] == a[0] && s[..|b[0]|] == b[0];
      assert s[|a[0]|..] == Concat(a[1..]) && s[|a[0]|..] == Concat(b[1..]);
      forall k {:trigger a[1..][k]} | 0 <= k < |a[1..]| ensures WholeBlock(a[1..][k]) { assert a[1..][k] == a[k + 1]; }
      forall k {:trigger b[1..][k]} | 0 <= k < |b[1..]| ensures WholeBlock(b[1..][k]) { assert b[1..][k] == b[k + 1]; }
      TilingUnique(a[1..], b[1..]);
      assert a == [a[0]] + a[1..] && b == [b[0]] + b[1..];
    }
  }

  // ---------------------------------------------------------------- timings

  /** One record in front of a run. */
  lemma {:induction false} RecordsCons(ext: seq<Byte>, at: nat, k: nat)
    requires IsExt(ext) && k > 0 && at + 18 * k <= |ext|
    ensures [DtdAt(ext, at)] + Records(ext, at + 18, k - 1) == Records(ext, at, k)
  {
    var (a, b) := ([DtdAt(ext, at)] + Records(ext, at + 18, k - 1), Records(ext, at, k));
    forall j | 0 <= j < k ensures a[j] == b[j] {
      if j > 0 { assert a[j] == Records(ext, at + 18, k - 1)[j - 1]; }
    }
  }

  lemma {:induction false} LongestCons(ext: seq<Byte>, at: nat, k: nat)
    requires IsExt(ext) && Timing(ext, at) && Longest(ext, at + 18, k)
    ensures Longest(ext, at, k + 1)
  {
    forall j | 0 <= j < k + 1 ensures Timing(ext, at + 18 * j) {
      if j > 0 { assert Timing(ext, at + 18 + 18 * (j - 1)); }
    }
  }

  /** k records from at on end in the block, or behind the block in the buffer. */
  predicate Within(at: nat, k: nat) {
    k > 0 ==> at + 18 * k <= if at < BLOCK_SIZE then CEA_SPACE else BUFFER_SIZE - BLOCK_SIZE
  }

  /** The run of timings is the longest one. */
  lemma {:induction false} RunIsLongest(ext: seq<Byte>, at: nat)
    requires IsExt(ext)
    ensures var k := |DtdRun(ext, at)|;
            Within(at, k) && DtdRun(ext, at) == Records(ext, at, k) && Longest(ext, at, k)
    decreases BUFFER_SIZE - at
  {
    if Timing(ext, at) {
      RunIsLongest(ext, at + 18);
      var k := |DtdRun(ext, at + 18)|;
      LongestCons(ext, at, k);
      RecordsCons(ext, at, k + 1);
    }
  }

  lemma {:induction false} LongestUnique(ext: seq<Byte>, at: nat, k: nat)
    requires IsExt(ext) && Longest(ext, at, k)
    ensures k == |DtdRun(ext, at)|
  {
    RunIsLongest(ext, at);
    var n := |DtdRun(ext, at)|;
  }

  // ---------------------------------------------------------------- acceptance

  /** Strict acceptance finds a tiling, and the groups are those of its parts ... */
  lemma {:induction false} AcceptedIsTiled(ext: seq<Byte>) returns (bs: seq<seq<Byte>>, k: nat)
    requires IsExt(ext) && 4 <= ext[2] && ParseCea(ext).Some?
    ensures Accepts(ext, bs, k) && Within(ext[2], k)
    ensures ParseCea(ext) == Some([HeaderGrp(ext)] + Inits(bs) + Records(ext, ext[2], k))
  {
    bs := BlocksTile(ext, 4, ext[2]);
    RunIsLongest(ext, ext[2]);
    k := |DtdRun(ext, ext[2])|;
  }

  /** ... every tiling is accepted ... */
  lemma {:induction false} TiledIsAccepted(ext: seq<Byte>, bs: seq<seq<Byte>>, k: nat)
    requires IsExt(ext) && 4 <= ext[2] && Accepts(ext, bs, k)
    ensures Within(ext[2], k)
    ensures ParseCea(ext) == Some([HeaderGrp(ext)] + Inits(bs) + Records(ext, ext[2], k))
  {
    TilesParse(ext, 4, ext[2], bs);
    TiledRun(ext, Inits(bs), k);
  }

  lemma {:induction false} TiledRun(ext: seq<Byte>, cs: Contents, k: nat)
    requires IsExt(ext) && HeaderOk(ext) && 4 <= ext[2] && ParseBlocks(ext, 4, ext[2]) == Some(cs)
    requires k >= NumDtd(ext) && Longest(ext, ext[2], k)
    requires RunStops(ext, ext[2] + 18 * k) && ZeroFrom(ext, ext[2] + 18 * k)
    ensures Within(ext[2], k) && ParseCea(ext) == Some([HeaderGrp(ext)] + cs + Records(ext, ext[2], k))
  {
    LongestRun(ext, ext[2], k);
    var ds := Records(ext, ext[2], k);
    TilingAccepted(ext, cs, ds, k);
  }

  lemma {:induction false} TilingAccepted(ext: seq<Byte>, cs: Contents, ds: Contents, k: nat)
    requires IsExt(ext) && HeaderOk(ext) && 4 <= ext[2]
    requires ParseBlocks(ext, 4, ext[2]) == Some(cs) && ds == DtdRun(ext, ext[2]) && |ds| == k
    requires k >= NumDtd(ext) && RunStops(ext, ext[2] + 18 * k) && ZeroFrom(ext, ext[2] + 18 * k)
    ensures ParseCea(ext) == Some([HeaderGrp(ext)] + cs + ds)
  {
    Ends(ext, cs, ds, k);
    BodySome(ext, cs, ds);
  }

  lemma {:induction false} BodySome(ext: seq<Byte>, cs: Contents, ds: Contents)
    requires IsExt(ext) && HeaderOk(ext) && 4 <= ext[2]
    requires ParseBlocks(ext, 4, ext[2]) == Some(cs) && ds == DtdRun(ext, ext[2])
    ensures ParseCea(ext) == Ended(ext, cs, ds)
  {
    Body(ext, Some(cs), ds);
  }

  lemma {:induction false} Ends(ext: seq<Byte>, cs: Contents, ds: Contents, k: nat)
    requires IsExt(ext) && |ds| == k >= NumDtd(ext) && RunStops(ext, ext[2] + 18 * k) && ZeroFrom(ext, ext[2] + 18 * k)
    ensures Ended(ext, cs, ds) == Some([HeaderGrp(ext)] + cs + ds)
  {
  }

  lemma {:induction false} LongestRun(ext: seq<Byte>, at: nat, k: nat)
    requires IsExt(ext) && Longest(ext, at, k)
    ensures Within(at, k) && DtdRun(ext, at) == Records(ext, at, k)
  {
    LongestUnique(ext, at, k);
    RunIsLongest(ext, at);
  }

  /** ... and there is no second one. */
  lemma {:induction false} OneTiling(ext: seq<Byte>, bs: seq<seq<Byte>>, k: nat, bs': seq<seq<Byte>>, k': nat)
    requires IsExt(ext) && 4 <= ext[2]
    requires Accepts(ext, bs, k) && Accepts(ext, bs', k')
    ensures bs == bs' && k == k'
  {
    LongestUnique(ext, ext[2], k);
    LongestUnique(ext, ext[2], k');
    forall j {:trigger bs[j]} | 0 <= j < |bs| ensures WholeBlock(bs[j]) { assert Tile(bs[j]); }
    forall j {:trigger bs'[j]} | 0 <= j < |bs'| ensures WholeBlock(bs'[j]) { assert Tile(bs'[j]); }
    TilingUnique(bs, bs');
  }
}
