/** Strict parsing of an extension block, said in its bytes: when it is accepted, and what its groups hold. */
module CeaBytes {
  import opened Bytes
  import opened GroupTree
  import opened GroupContent
  import opened DataBlocks
  import opened BlockBytes
  import opened CeaParser
  import opened CeaTiling

  /** One of the two bytes at at, the little-endian pixel clock of a timing, is not zero. */
  predicate Ticks(b: seq<Byte>, at: nat) { at + 1 < |b| && (b[at] != 0 || b[at + 1] != 0) }

  lemma {:induction false} ClockZero(b: seq<Byte>, at: nat)
    requires at + 1 < |b|
    ensures PixClk(b, at) != 0 <==> b[at] != 0 || b[at + 1] != 0
  {
  }

  /** Data blocks one after another from byte 4 up to byte d; behind the block only the last may reach. */
  predicate DataPart(ext: seq<Byte>, d: nat, bs: seq<seq<Byte>>) {
    && 4 <= d <= |ext| && Concat(bs) == ext[4..d]
    && (forall i {:trigger bs[i]} :: 0 <= i < |bs| ==> Whole(bs[i]) && WholeBlock(bs[i]) && StrictInit(bs[i]).Some?)
    && (d > 128 && bs != [] ==> d - |bs[|bs| - 1]| < 128)
  }

  /** k timings of 18 bytes from byte d on, before the checksum, or behind the block in the buffer; then no
      further one: it does not fit, or has no pixel clock; behind the block it must have none. */
  predicate TimingPart(ext: seq<Byte>, d: nat, k: nat) {
    && (forall j :: 0 <= j < k ==> d + 18 * j + 18 <= (if d < 128 then 127 else |ext|) && Ticks(ext, d + 18 * j))
    && var e := d + 18 * k;
       if d < 128 then e + 18 > 127 || !Ticks(ext, e) else e + 2 <= |ext| && !Ticks(ext, e)
  }

  /** A version 1 to 3 extension block with a DTD offset from 4 on, at least the native timings, and zeros up
      to the checksum. */
  predicate GoodBytes(ext: seq<Byte>, bs: seq<seq<Byte>>, k: nat) {
    && |ext| == 15 * 128 && ext[0] == 2 && 1 <= ext[1] <= 3 && ext[2] >= 4
    && DataPart(ext, ext[2], bs) && TimingPart(ext, ext[2], k) && k >= ext[3] % 16
    && forall i :: ext[2] + 18 * k <= i < 127 ==> ext[i] == 0
  }

  lemma {:induction false} NearTimings(ext: seq<Byte>, d: nat, k: nat)
    requires IsExt(ext) && d < 128
    ensures Longest(ext, d, k) && RunStops(ext, d + 18 * k) <==> TimingPart(ext, d, k)
  {
    if Longest(ext, d, k) && RunStops(ext, d + 18 * k) {
      forall j | 0 <= j < k ensures d + 18 * j + 18 <= 127 && Ticks(ext, d + 18 * j) { NearRecord(ext, d, k, j); }
      LongestUnique(ext, d, k);
      RunFits(ext, d);
      assert !Timing(ext, d + 18 * k);
    }
    if TimingPart(ext, d, k) {
      forall j | 0 <= j < k ensures Timing(ext, d + 18 * j) {
        assert Ticks(ext, d + 18 * j);
      }
      if k > 0 { assert Ticks(ext, d + 18 * (k - 1)); }
    }
  }

  lemma {:induction false} NearRecord(ext: seq<Byte>, d: nat, k: nat, j: nat)
    requires IsExt(ext) && d < 128 && Longest(ext, d, k) && j < k
    ensures d + 18 * j + 18 <= 127 && Ticks(ext, d + 18 * j)
  {
    LongestUnique(ext, d, k);
    RunFits(ext, d);
    assert Timing(ext, d + 18 * j);
  }

  lemma {:induction false} FarTimingPart(ext: seq<Byte>, d: nat, k: nat)
    requires IsExt(ext) && d >= 128
    ensures Longest(ext, d, k) && RunStops(ext, d + 18 * k) <==> TimingPart(ext, d, k)
  {
    if Longest(ext, d, k) && RunStops(ext, d + 18 * k) {
      forall j | 0 <= j < k ensures d + 18 * j + 18 <= |ext| && Ticks(ext, d + 18 * j) {
        assert Timing(ext, d + 18 * j);
      }
    }
    if TimingPart(ext, d, k) {
      forall j | 0 <= j < k ensures Timing(ext, d + 18 * j) {
        assert Ticks(ext, d + 18 * j);
      }
    }
  }

  lemma {:induction false} DataTiles(ext: seq<Byte>, bs: seq<seq<Byte>>)
    requires IsExt(ext) && 4 <= ext[2]
    ensures DataPart(ext, ext[2], bs) <==> Tiles(bs) && Concat(bs) == ext[4..ext[2]] && StartsInside(bs, ext[2])
  {
    if Tiles(bs) {
      forall i {:trigger bs[i]} | 0 <= i < |bs| ensures Whole(bs[i]) && WholeBlock(bs[i]) && StrictInit(bs[i]).Some? {
        assert Tile(bs[i]);
      }
    }
    if DataPart(ext, ext[2], bs) {
      forall i {:trigger bs[i]} | 0 <= i < |bs| ensures Tile(bs[i]) {}
    }
  }

  lemma {:induction false} AcceptsIsBytes(ext: seq<Byte>, bs: seq<seq<Byte>>, k: nat)
    requires IsExt(ext) && 4 <= ext[2]
    ensures Accepts(ext, bs, k) <==> GoodBytes(ext, bs, k)
  {
    DataTiles(ext, bs);
    if ext[2] < 128 { NearTimings(ext, ext[2], k); } else { FarTimingPart(ext, ext[2], k); }
  }

  /** The header keeps the first four bytes and the checksum. */
  predicate HeaderHolds(c: GrpC, ext: seq<Byte>) {
    |ext| >= 128 && c == GrpC(Tid(0, 1, 0, 0, true, false), ext[..4] + [ext[127]] + Zeros(27), 4, 0, [], 0)
  }

  /** A timing keeps its 18 bytes. */
  predicate TimingHolds(c: GrpC, ext: seq<Byte>, at: nat) {
    at + 18 <= |ext| && c == GrpC(Tid(8, 0, 0, 0, false, false), ext[at..at + 18] + Zeros(14), 0, 18, [], 0)
  }

  predicate BlockHolds(cs: Contents, bs: seq<seq<Byte>>, i: nat) {
    i < |bs| && 1 + i < |cs| && WholeBlock(bs[i]) && StrictInit(bs[i]) == Some(cs[1 + i])
  }

  /** The groups: the header, one for each data block, one for each timing. */
  predicate GroupsHold(cs: Contents, ext: seq<Byte>, bs: seq<seq<Byte>>, k: nat) {
    && |ext| >= 128 && |cs| == 1 + |bs| + k && HeaderHolds(cs[0], ext)
    && (forall i :: 0 <= i < |bs| ==> BlockHolds(cs, bs, i))
    && forall i {:trigger cs[i]} :: 1 + |bs| <= i < |cs| ==> TimingHolds(cs[i], ext, ext[2] + 18 * (i - 1 - |bs|))
  }

  lemma {:induction false} GroupsAre(ext: seq<Byte>, bs: seq<seq<Byte>>, k: nat, cs: Contents)
    requires IsExt(ext) && Tiles(bs) && (k > 0 ==> ext[2] + 18 * k <= |ext|)
    requires cs == [HeaderGrp(ext)] + Inits(bs) + Records(ext, ext[2], k)
    ensures GroupsHold(cs, ext, bs, k)
  {
    var n := |bs|;
    forall i | 0 <= i < n ensures BlockHolds(cs, bs, i) {
      assert cs[1 + i] == Inits(bs)[i];
      BlockIs(bs, i);
    }
    forall i {:trigger cs[i]} | 1 + n <= i < |cs| ensures TimingHolds(cs[i], ext, ext[2] + 18 * (i - 1 - n)) {
      assert cs[i] == Records(ext, ext[2], k)[i - 1 - n];
      TimingIs(ext, ext[2], k, i - 1 - n);
    }
    HeaderIs(ext);
  }

  lemma {:induction false} HeaderIs(ext: seq<Byte>)
    requires IsExt(ext)
    ensures HeaderHolds(HeaderGrp(ext), ext)
  {
  }

  lemma {:induction false} BlockIs(bs: seq<seq<Byte>>, i: nat)
    requires Tiles(bs) && i < |bs|
    ensures WholeBlock(bs[i]) && StrictInit(bs[i]) == Some(Inits(bs)[i])
  {
    assert Tile(bs[i]);
  }

  lemma {:induction false} TimingIs(ext: seq<Byte>, at: nat, k: nat, j: nat)
    requires IsExt(ext) && j < k && at + 18 * k <= |ext|
    ensures TimingHolds(Records(ext, at, k)[j], ext, at + 18 * j)
  {
    assert Records(ext, at, k)[j] == DtdAt(ext, at + 18 * j);
  }

  /** Bytes in this form are accepted, as the groups they describe ... */
  lemma {:induction false} GoodBytesParse(ext: seq<Byte>, bs: seq<seq<Byte>>, k: nat)
    requires GoodBytes(ext, bs, k)
    ensures IsExt(ext) && ParseCea(ext).Some? && GroupsHold(ParseCea(ext).value, ext, bs, k)
  {
    AcceptsIsBytes(ext, bs, k);
    TiledIsAccepted(ext, bs, k);
    GroupsAre(ext, bs, k, ParseCea(ext).value);
  }

  /** ... and a block is accepted with a DTD offset from 4 on only in this form. */
  lemma {:induction false} ParsedBytes(ext: seq<Byte>) returns (bs: seq<seq<Byte>>, k: nat)
    requires IsExt(ext) && ext[2] >= 4 && ParseCea(ext).Some?
    ensures GoodBytes(ext, bs, k) && GroupsHold(ParseCea(ext).value, ext, bs, k)
  {
    bs, k := AcceptedIsTiled(ext);
    AcceptsIsBytes(ext, bs, k);
    GroupsAre(ext, bs, k, ParseCea(ext).value);
  }

  /** With a smaller offset only 0 is accepted, and only the header is read. */
  lemma {:induction false} ShortOffset(ext: seq<Byte>)
    requires IsExt(ext) && ext[2] < 4
    ensures ParseCea(ext).Some? <==> ext[0] == 2 && 1 <= ext[1] <= 3 && ext[2] == 0
    ensures ParseCea(ext).Some? ==> |ParseCea(ext).value| == 1 && HeaderHolds(ParseCea(ext).value[0], ext)
  {
  }
}
