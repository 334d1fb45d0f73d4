/** Strict parsing of the data blocks without sub-groups and of InfoFrame blocks, said in their bytes; and
    which tags have no class at all. */
module FlatBytes {
  import opened Bytes
  import opened GroupTree
  import opened GroupContent
  import opened BlockSplit
  import opened FlatSplit
  import opened InfoFrames
  import opened DataBlocks
  import opened BlockBytes

  // ---------------------------------------------------------------- fields

  /** A group of fields that occurs once. */
  lemma {:induction false} LayOnce(d: FlatDsc, gi: nat, dlen: nat, offs: nat, rc: Rcode)
    requires gi < |d.grps| && !d.grps[gi].flexLayout && d.grps[gi].cnt == 1
    ensures var g := d.grps[gi];
            Lay(d, gi, 0, dlen, offs, rc)
            == if dlen < g.datSz then Laid([], dlen, offs, if d.flexLayout then rc else FaultMsg)
               else var m := Lay(d, gi + 1, 0, dlen - g.datSz, offs + g.datSz, rc);
                    m.(claims := [Claim(offs, g.datSz, g.fcount)] + m.claims)
  {
    var g := d.grps[gi];
    if dlen >= g.datSz {
      assert Lay(d, gi, 1, dlen - g.datSz, offs + g.datSz, rc) == Lay(d, gi + 1, 0, dlen - g.datSz, offs + g.datSz, rc);
    }
  }

  lemma {:induction false} LayEnd(d: FlatDsc, dlen: nat, offs: nat, rc: Rcode)
    ensures Lay(d, |d.grps|, 0, dlen, offs, rc) == Laid([], dlen, offs, rc)
  {
  }

  /** Blocks with one group of n bytes and c fields behind the header: what is left is unknown bytes. */
  lemma {:induction false} OneGroup(d: FlatDsc, len: nat, n: nat, c: nat)
    requires d.grps == [Fixed1(c, n)] && !d.flexLayout && 1 <= d.hdrSz <= 2
    requires d.hdrSz <= len + 1 && d.minLen <= len && n <= len + 1 - d.hdrSz
    ensures InitFlat(len, d, false) == FlatInit(if len > d.maxLen then FaultMsg else Ok, [Claim(d.hdrSz, n, c)],
                                                Offsets(d.hdrSz + n, len + 1 - d.hdrSz - n))
  {
    var dlen := len + 1 - d.hdrSz;
    LayOnce(d, 0, dlen, d.hdrSz, Ok);
    LayEnd(d, dlen - n, d.hdrSz + n, Ok);
    assert [Claim(d.hdrSz, n, c)] + [] == [Claim(d.hdrSz, n, c)];
  }

  /** Fields of one byte each, as many of them as there are bytes. */
  function Singles(at: nat, n: nat): (r: seq<Claim>)
    ensures |r| == n && forall i {:trigger r[i]} :: 0 <= i < n ==> r[i] == Claim(at + i, 1, 1)
  {
    seq(n, i requires 0 <= i < n => Claim(at + i, 1, 1))
  }

  lemma {:induction false} SinglesCons(at: nat, n: nat)
    ensures [Claim(at, 1, 1)] + Singles(at + 1, n) == Singles(at, n + 1)
  {
  }

  predicate AllOnes(sizes: seq<nat>) { forall i {:trigger sizes[i]} :: 0 <= i < |sizes| ==> sizes[i] == 1 }

  lemma {:induction false} TakeSingles(sizes: seq<nat>, n: nat, dlen: nat, offs: nat)
    requires AllOnes(sizes) && n <= |sizes|
    ensures var k := if dlen <= |sizes| - n then dlen else |sizes| - n;
            TakeFields(sizes, n, dlen, offs) == Laid(Singles(offs, k), dlen - k, offs + k, True)
    decreases |sizes| - n
  {
    if n < |sizes| && dlen >= 1 {
      TakeSingles(sizes, n + 1, dlen - 1, offs + 1);
      SinglesCons(offs, (if dlen <= |sizes| - n then dlen else |sizes| - n) - 1);
    }
  }

  /** The static metadata block: a group of two bytes, then up to three single ones. */
  lemma {:induction false} LayHdrs(dlen: nat)
    requires 2 <= dlen
    ensures var k := if dlen <= 5 then dlen - 2 else 3;
            Lay(HDRS, 0, 0, dlen, 2, Ok) == Laid([Claim(2, 2, 9)] + Singles(4, k), dlen - 2 - k, 4 + k, True)
  {
    var k := if dlen <= 5 then dlen - 2 else 3;
    LayOnce(HDRS, 0, dlen, 2, Ok);
    TakeSingles(HDRS.grps[1].sizes, 0, dlen - 2, 4);
    LayEnd(HDRS, dlen - 2 - k, 4 + k, True);
    assert Singles(4, k) + [] == Singles(4, k);
  }

  /** The flexible groups of a vendor specific block: three and two bytes must be there. */
  lemma {:induction false} LayVendorFront(dlen: nat)
    ensures dlen < 5 ==> Lay(VSD, 0, 0, dlen, 1, Ok).rc == FaultMsg
    ensures dlen >= 5 ==>
      var m := Lay(VSD, 1, 0, dlen - 5, 6, True);
      Lay(VSD, 0, 0, dlen, 1, Ok) == m.(claims := [Claim(1, 3, 1), Claim(4, 2, 1)] + m.claims)
  {
    TakeVendorFront(dlen);
    VendorStep(dlen);
  }

  lemma {:induction false} TakeVendorFront(dlen: nat)
    ensures var l := TakeFields([3, 2], 0, dlen, 1);
            if dlen >= 5 then l == Laid([Claim(1, 3, 1), Claim(4, 2, 1)], dlen - 5, 6, True) else l.offs < 6
  {
    var sizes: seq<nat> := [3, 2];
    if dlen >= 5 {
      assert TakeFields(sizes, 2, dlen - 5, 6) == Laid([], dlen - 5, 6, True);
      assert TakeFields(sizes, 1, dlen - 3, 4) == Laid([Claim(4, 2, 1)], dlen - 5, 6, True);
    } else if dlen >= 3 {
      assert TakeFields(sizes, 1, dlen - 3, 4) == Laid([], dlen - 3, 4, True);
    }
  }

  lemma {:induction false} VendorStep(dlen: nat)
    ensures var l := TakeFields([3, 2], 0, dlen, 1);
            if l.offs != 6 then Lay(VSD, 0, 0, dlen, 1, Ok).rc == FaultMsg
            else var m := Lay(VSD, 1, 0, l.dlen, l.offs, True);
                 Lay(VSD, 0, 0, dlen, 1, Ok) == m.(claims := l.claims + m.claims)
  {
  }

  /** Behind them single bytes with eight, one and three fields, and up to four more, while there are any. */
  lemma {:induction false} LayVendorRest(dlen: nat)
    ensures var k := if dlen <= 7 then dlen else 7;
            Lay(VSD, 1, 0, dlen, 6, True)
            == Laid(([Claim(6, 1, 8), Claim(7, 1, 1), Claim(8, 1, 3)] + Singles(9, 4))[..k], dlen - k, 6 + k, True)
  {
    LayOnce(VSD, 1, dlen, 6, True);
    if dlen >= 1 {
      LayOnce(VSD, 2, dlen - 1, 7, True);
      if dlen >= 2 { LayVendorTail(dlen - 2); }
    }
    VendorClaims(dlen);
  }

  lemma {:induction false} LayVendorTail(dlen: nat)
    ensures var n := if dlen <= 5 then dlen - 1 else 4;
            Lay(VSD, 3, 0, dlen, 8, True)
            == if dlen == 0 then Laid([], 0, 8, True)
               else Laid([Claim(8, 1, 3)] + Singles(9, n), dlen - 1 - n, 9 + n, True)
  {
    LayOnce(VSD, 3, dlen, 8, True);
    if dlen >= 1 {
      var n := if dlen <= 5 then dlen - 1 else 4;
      TakeSingles(VSD.grps[4].sizes, 0, dlen - 1, 9);
      LayEnd(VSD, dlen - 1 - n, 9 + n, True);
      assert Singles(9, n) + [] == Singles(9, n);
    }
  }

  lemma {:induction false} VendorClaims(dlen: nat)
    ensures var all := [Claim(6, 1, 8), Claim(7, 1, 1), Claim(8, 1, 3)] + Singles(9, 4);
            && all[..0] == [] && all[..1] == [Claim(6, 1, 8)] + []
            && all[..2] == [Claim(6, 1, 8)] + ([Claim(7, 1, 1)] + [])
            && (dlen >= 3 ==> var n := if dlen <= 7 then dlen - 3 else 4;
                all[..n + 3] == [Claim(6, 1, 8)] + ([Claim(7, 1, 1)] + ([Claim(8, 1, 3)] + Singles(9, n))))
  {
  }

  /** Which fields a vendor specific block of len bytes behind its tag shows. */
  lemma {:induction false} VendorFields(len: nat)
    requires 5 <= len <= 31
    ensures var k := if len <= 12 then len - 5 else 7;
            InitFlat(len, VSD, false)
            == FlatInit(True, [Claim(1, 3, 1), Claim(4, 2, 1)]
                              + ([Claim(6, 1, 8), Claim(7, 1, 1), Claim(8, 1, 3)] + Singles(9, 4))[..k],
                        Offsets(6 + k, len - 5 - k))
  {
    LayVendorFront(len);
    LayVendorRest(len - 5);
  }

  /** Which fields the other blocks show: n bytes with c fields behind the header, and unknown bytes. */
  lemma {:induction false} FixedFields(len: nat)
    ensures len == 3 ==> InitFlat(len, SAB, false) == FlatInit(Ok, [Claim(1, 3, 24)], [])
    ensures len == 1 ==> InitFlat(len, VDTC, false) == FlatInit(Ok, [Claim(1, 1, 1)], [])
    ensures len == 2 ==> InitFlat(len, VCDB, false) == FlatInit(Ok, [Claim(2, 1, 5)], [])
    ensures len == 3 ==> InitFlat(len, CLDB, false) == FlatInit(Ok, [Claim(2, 2, 11)], [])
    ensures 4 <= len <= 31 ==> InitFlat(len, VSVD, false) == FlatInit(Ok, [Claim(2, 3, 1)], Offsets(5, len - 4))
    ensures 4 <= len <= 31 ==> InitFlat(len, VSAD, false) == FlatInit(Ok, [Claim(2, 3, 1)], Offsets(5, len - 4))
  {
    if len == 3 { OneGroup(SAB, len, 3, 24); OneGroup(CLDB, len, 2, 11); }
    if len == 1 { OneGroup(VDTC, len, 1, 1); }
    if len == 2 { OneGroup(VCDB, len, 1, 5); }
    if 4 <= len <= 31 { OneGroup(VSVD, len, 3, 1); OneGroup(VSAD, len, 3, 1); }
  }

  lemma {:induction false} MetadataFields(len: nat)
    requires 3 <= len <= 6
    ensures InitFlat(len, HDRS, false) == FlatInit(True, [Claim(2, 2, 9)] + Singles(4, len - 3), [])
  {
    LayHdrs(len - 1);
  }

  // ---------------------------------------------------------------- acceptance

  predicate FlatOk(len: nat, d: FlatDsc) {
    1 <= d.hdrSz <= 2 && InitFlat(len, d, false).FlatInit? && IsOk(InitFlat(len, d, false).rc)
  }

  /** Strict mode accepts a flat block between these lengths. */
  lemma {:induction false} FlatLengths(len: nat)
    requires len <= 31
    ensures (FlatOk(len, VSD) <==> len >= 5) && (FlatOk(len, SAB) <==> len == 3) && (FlatOk(len, VDTC) <==> len == 1)
    ensures (FlatOk(len, VCDB) <==> len == 2) && (FlatOk(len, CLDB) <==> len == 3)
    ensures (FlatOk(len, VSVD) <==> len >= 4) && (FlatOk(len, VSAD) <==> len >= 4)
    ensures FlatOk(len, HDRS) <==> 3 <= len <= 6
  {
    FixedLengths(len);
    MetadataLengths(len);
    VendorLengths(len);
  }

  lemma {:induction false} MetadataLengths(len: nat)
    ensures FlatOk(len, HDRS) <==> 3 <= len <= 6
  {
    if 3 <= len <= 6 { MetadataFields(len); }
  }

  lemma {:induction false} VendorLengths(len: nat)
    requires len <= 31
    ensures FlatOk(len, VSD) <==> len >= 5
  {
    if len >= 5 { VendorFields(len); } else { LayVendorFront(len); }
  }

  lemma {:induction false} FixedLengths(len: nat)
    requires len <= 31
    ensures (FlatOk(len, SAB) <==> len == 3) && (FlatOk(len, VDTC) <==> len == 1) && (FlatOk(len, VCDB) <==> len == 2)
    ensures (FlatOk(len, CLDB) <==> len == 3) && (FlatOk(len, VSVD) <==> len >= 4) && (FlatOk(len, VSAD) <==> len >= 4)
  {
    FixedFields(len);
  }

  /** The contents of a block without header part: its type and its bytes. */
  predicate FlatHolds(c: GrpC, tid: Tid, b: seq<Byte>) {
    |b| <= 32 && c == GrpC(tid, b + Zeros(32 - |b|), 0, |b|, [], 0)
  }

  /** Strict mode makes of b a flat block of this type, or refuses it. */
  predicate Flattens(b: seq<Byte>, tid: Tid, ok: bool)
    requires WholeBlock(b)
  {
    (StrictInit(b).Some? <==> ok) && (ok ==> FlatHolds(StrictInit(b).value, tid, b))
  }

  lemma {:induction false} FlatCase(b: seq<Byte>, d: FlatDsc)
    requires WholeBlock(b) && |b| <= 32 && (TagCode(b[0]) == 7 ==> |b| >= 2) && 1 <= d.hdrSz <= 2
    requires ClassOf(TagCode(b[0]), if |b| > 1 then b[1] else 0) == DataBlocks.Class.Flat(d)
    ensures Flattens(b, d.tid, FlatOk(|b| - 1, d))
  {
    assert b[..|b|] == b;
  }

  /** The plain tags 3 (vendor specific), 4 (speaker allocation) and 5 (transfer characteristic). */
  lemma {:induction false} PlainFlatBlock(b: seq<Byte>)
    requires Whole(b)
    ensures WholeBlock(b)
    ensures b[0] / 32 == 3 ==> Flattens(b, Tid(0, 4, 0, 0, false, false), |b| >= 6)
    ensures b[0] / 32 == 4 ==> Flattens(b, Tid(0, 5, 0, 0, false, false), |b| == 4)
    ensures b[0] / 32 == 5 ==> Flattens(b, Tid(0, 6, 0, 0, false, false), |b| == 2)
  {
    WholeIs(b);
    FlatLengths(|b| - 1);
    if b[0] / 32 == 3 { FlatCase(b, VSD); }
    if b[0] / 32 == 4 { FlatCase(b, SAB); }
    if b[0] / 32 == 5 { FlatCase(b, VDTC); }
  }

  /** The extended tags 0 (video capability), 1 (vendor video), 5 (colorimetry), 6 (static metadata),
      15 (4:2:0 capability map) and 17 (vendor audio). */
  lemma {:induction false} ExtFlatBlock(b: seq<Byte>)
    requires Tagged(b, 7) && |b| >= 2
    ensures WholeBlock(b)
    ensures b[1] == 0 ==> Flattens(b, Tid(0, 0, 1, 0, false, false), |b| == 3)
    ensures b[1] == 1 ==> Flattens(b, Tid(0, 0, 2, 0, false, false), |b| >= 5)
    ensures b[1] == 5 ==> Flattens(b, Tid(0, 0, 6, 0, false, false), |b| == 4)
    ensures b[1] == 6 ==> Flattens(b, Tid(0, 0, 7, 0, false, false), 4 <= |b| <= 7)
    ensures b[1] == 15 ==> Flattens(b, Tid(0, 0, 11, 0, false, false), |b| >= 3)
    ensures b[1] == 17 ==> Flattens(b, Tid(0, 0, 3, 0, false, false), |b| >= 5)
  {
    WholeIs(b);
    FlatLengths(|b| - 1);
    if b[1] in {0, 1} { VideoFlat(b); }
    if b[1] in {5, 6} { ColorFlat(b); }
    if b[1] in {15, 17} { OtherFlat(b); }
  }

  lemma {:induction false} VideoFlat(b: seq<Byte>)
    requires Tagged(b, 7) && |b| >= 2 && b[1] in {0, 1} && WholeBlock(b)
    ensures Flattens(b, if b[1] == 0 then VCDB.tid else VSVD.tid, FlatOk(|b| - 1, if b[1] == 0 then VCDB else VSVD))
  {
    if b[1] == 0 { FlatCase(b, VCDB); } else { FlatCase(b, VSVD); }
  }

  lemma {:induction false} ColorFlat(b: seq<Byte>)
    requires Tagged(b, 7) && |b| >= 2 && b[1] in {5, 6} && WholeBlock(b)
    ensures Flattens(b, if b[1] == 5 then CLDB.tid else HDRS.tid, FlatOk(|b| - 1, if b[1] == 5 then CLDB else HDRS))
  {
    if b[1] == 5 { FlatCase(b, CLDB); } else { FlatCase(b, HDRS); }
  }

  lemma {:induction false} OtherFlat(b: seq<Byte>)
    requires Tagged(b, 7) && |b| >= 2 && b[1] in {15, 17} && WholeBlock(b)
    ensures b[1] == 15 ==> Flattens(b, Y42C, |b| >= 3)
    ensures b[1] == 17 ==> Flattens(b, VSAD.tid, FlatOk(|b| - 1, VSAD))
  {
    if b[1] == 15 { assert b[..|b|] == b; } else { FlatCase(b, VSAD); }
  }

  /** A VESA display device block (2) has 32 bytes, shown in five fixed parts without bytes of their own. */
  lemma {:induction false} DisplayBlock(b: seq<Byte>)
    requires ExtTagged(b, 2)
    ensures WholeBlock(b) && (StrictInit(b).Some? <==> |b| == 32)
    ensures |b| == 32 ==>
      var tid := Tid(0, 0, 4, 3, false, true);
      StrictInit(b).value == GrpC(Tid(0, 0, 4, 0, false, false), b, 0, 32,
        [SubC(tid, []), SubC(tid.(sub := 4), []), SubC(tid.(sub := 5), []), SubC(tid.(sub := 6), []),
         SubC(tid.(sub := 7), [])], 0)
  {
    WholeIs(b);
    var tid := Tid(0, 0, 4, 3, false, true);
    assert b[..|b|] == b && b + Zeros(0) == b;
    FiveParts(tid);
  }

  lemma {:induction false} FiveParts(tid: Tid)
    requires tid == Tid(0, 0, 4, 3, false, true)
    ensures VdddSubs() == [SubC(tid, []), SubC(tid.(sub := 4), []), SubC(tid.(sub := 5), []), SubC(tid.(sub := 6), []),
                           SubC(tid.(sub := 7), [])]
  {
    var (a, b) := (VdddSubs(), [SubC(tid, []), SubC(tid.(sub := 4), []), SubC(tid.(sub := 5), []),
                                SubC(tid.(sub := 6), []), SubC(tid.(sub := 7), [])]);
    forall k | 0 <= k < 5 ensures a[k] == b[k] {
      assert a[k] == SubC(VDDD.(sub := 3 + k, dbcFixed := true), []);
    }
  }

  /** Every other tag is refused, and so is an extended one without its second byte. */
  lemma {:induction false} OtherBlock(b: seq<Byte>)
    requires Whole(b)
    requires b[0] / 32 in {0, 6}
          || (b[0] / 32 == 7 && (|b| == 1 || b[1] !in {0, 1, 2, 5, 6, 7, 13, 14, 15, 17, 19, 20, 32}))
    ensures WholeBlock(b) && StrictInit(b) == None
  {
    WholeIs(b);
  }

  // ---------------------------------------------------------------- InfoFrames

  /** A processing descriptor: its two header bytes, and as many more as bits 7..5 say. */
  predicate Processing(d: seq<Byte>) { |d| >= 2 && |d| == 2 + d[0] / 32 }

  /** A short descriptor: type code in bits 4..0, not 0; one header byte, four for type code 1, and as many
      more as bits 7..5 say. */
  predicate Short(d: seq<Byte>) {
    d != [] && d[0] % 32 != 0 && |d| == (if d[0] % 32 == 1 then 4 else 1) + d[0] / 32
  }

  predicate Shorts(ds: seq<seq<Byte>>) {
    forall i {:trigger ds[i]} :: 0 <= i < |ds| ==> Short(ds[i])
  }

  lemma {:induction false} ShortIs(ds: seq<seq<Byte>>)
    ensures Shorts(ds) <==> AllShort(ds)
  {
    if Shorts(ds) {
      forall i | 0 <= i < |ds| ensures IsShort(ds[i]) { assert Short(ds[i]); }
    }
    if AllShort(ds) {
      forall i {:trigger ds[i]} | 0 <= i < |ds| ensures Short(ds[i]) { assert IsShort(ds[i]); }
    }
  }

  /** The type of a short descriptor: vendor specific with type code 1. */
  predicate FrameTids(subs: seq<SubC>) {
    forall i {:trigger subs[i]} :: 0 <= i < |subs| ==>
      subs[i].bytes != [] && subs[i].tid == Tid(0, 0, 14, if subs[i].bytes[0] % 32 == 1 then 16 else 15, false, false)
  }

  lemma {:induction false} ShortTids(rest: seq<Byte>, edit: bool)
    ensures FrameTids(WalkShort(rest, edit).subs)
    decreases |rest|
  {
    if rest != [] {
      var code := TypeCode(rest[0]);
      var size := SubSize(HeadLen(code), rest);
      if code != 0 && size <= |rest| {
        ShortTids(rest[size..], edit);
        assert rest[..size][0] == rest[0];
      }
    }
  }

  lemma {:induction false} FrameCase(b: seq<Byte>)
    requires ExtTagged(b, 32)
    ensures WholeBlock(b) && StrictInit(b) == Accepted(InitIfdb(b, false))
    ensures |b| >= 4 && StrictInit(b).Some? ==> var w := WalkAll(b[2..], false);
      IsOk(w.rc) && Holds(StrictInit(b).value, Tid(0, 0, 14, 0, false, false), 2, b)
      && StrictInit(b).value.subs == WithUnknown(w.subs, w.rest, NO_PARENT)
  {
    WholeIs(b);
    assert b[2..BlkLen(b[0]) + 1] == b[2..] && b[..|b|] == b;
  }

  lemma {:induction false} FrameSubs(b: seq<Byte>)
    requires ExtTagged(b, 32) && |b| >= 4 && WholeBlock(b) && StrictInit(b).Some?
    ensures var subs := StrictInit(b).value.subs;
            && subs != [] && subs[0].tid == Tid(0, 0, 14, 14, false, true) && FrameTids(subs[1..])
  {
    FrameCase(b);
    AcceptedTiles(b[2..], false);
    var (rest, w) := (b[2..], WalkAll(b[2..], false));
    ShortTids(rest[SubSize(2, rest)..], false);
    assert w.subs[1..] == WalkShort(rest[SubSize(2, rest)..], false).subs;
  }

  /** An InfoFrame block (32) has at least four bytes, and is accepted with the sub-groups ds exactly when
      they are a processing descriptor and short ones, and make up all of it behind the tags. */
  lemma {:induction false} FrameBlock(b: seq<Byte>, ds: seq<seq<Byte>>)
    requires ExtTagged(b, 32)
    ensures WholeBlock(b)
    ensures StrictInit(b).Some? && BytesOf(StrictInit(b).value.subs) == ds
       <==> ds != [] && Processing(ds[0]) && Shorts(ds[1..]) && Concat(ds) == b[2..]
    ensures StrictInit(b).Some? ==>
      var c := StrictInit(b).value;
      Holds(c, Tid(0, 0, 14, 0, false, false), 2, b)
      && c.subs != [] && c.subs[0].tid == Tid(0, 0, 14, 14, false, true) && FrameTids(c.subs[1..])
  {
    FrameCase(b);
    WholeIs(b);
    if ds != [] { ShortIs(ds[1..]); }
    assert b[2..BlkLen(b[0]) + 1] == b[2..];
    if |b| >= 4 {
      IfdbAccepts(b, false, ds);
      if StrictInit(b).Some? { FrameSubs(b); }
    } else if ds != [] {
      assert Concat(ds) == ds[0] + Concat(ds[1..]);
    }
  }

  // ---------------------------------------------------------------- ignoring errors

  /** What is left begins with no complete short descriptor. */
  predicate NoShort(p: seq<Byte>) {
    p != [] ==> p[0] % 32 == 0 || |p| < (if p[0] % 32 == 1 then 4 else 1) + p[0] / 32
  }

  lemma {:induction false} ShortsLeft(p: seq<Byte>)
    ensures var w := WalkShort(p, true);
            Shorts(BytesOf(w.subs)) && Concat(BytesOf(w.subs)) + w.rest == p && NoShort(w.rest) && FrameTids(w.subs)
    decreases |p|
  {
    ShortTids(p, true);
    if p != [] && !NoShort(p) {
      var code := TypeCode(p[0]);
      var size := SubSize(HeadLen(code), p);
      ShortsLeft(p[size..]);
      var w := WalkShort(p[size..], true);
      var s := SubC(SubTid(IFDB, if code == 1 then VSIFD_ID else SIFD_ID), p[..size]);
      BytesCons(s, w.subs);
      ShortInFront(p, size, BytesOf(w.subs), w.rest);
    }
  }

  lemma {:induction false} ShortInFront(p: seq<Byte>, n: nat, ds: seq<seq<Byte>>, rest: seq<Byte>)
    requires n <= |p| && Short(p[..n]) && Shorts(ds) && Concat(ds) + rest == p[n..]
    ensures Shorts([p[..n]] + ds) && Concat([p[..n]] + ds) + rest == p
  {
    assert ([p[..n]] + ds)[1..] == ds;
    Glue(p[..n], Concat(ds), rest);
    Rejoin(p, n);
  }

  /** The sub-groups of an InfoFrame block of at least four bytes with errors ignored: a processing descriptor
      and short ones, as far as they are complete; the rest becomes one part of unknown data, whose type has
      no block in it. */
  predicate FramesLeft(c: GrpC, p: seq<Byte>, n: nat) {
    && n <= |c.subs| && (n > 0 ==> FrameTids(c.subs[1..n]))
    && var ds := BytesOf(c.subs[..n]);
       var rest := if n < |c.subs| then c.subs[n].bytes else [];
       && Concat(ds) + rest == p && |c.subs| == n + (if rest == [] then 0 else 1)
       && (n < |c.subs| ==> c.subs[n].tid == Tid(0, 0, 0, 255, false, false))
       && if n == 0 then |p| < 2 || |p| < 2 + p[0] / 32
          else c.subs[0].tid == Tid(0, 0, 14, 14, false, true) && Processing(ds[0]) && Shorts(ds[1..]) && NoShort(rest)
  }

  lemma {:induction false} WalkLeft(p: seq<Byte>, c: GrpC)
    requires c.subs == WithUnknown(WalkAll(p, true).subs, WalkAll(p, true).rest, NO_PARENT)
    ensures FramesLeft(c, p, |WalkAll(p, true).subs|)
  {
    var w := WalkAll(p, true);
    var n := |w.subs|;
    assert c.subs[..n] == w.subs;
    if n > 0 {
      assert c.subs[1..n] == w.subs[1..];
      var size := SubSize(2, p);
      var v := WalkShort(p[size..], true);
      ShortsLeft(p[size..]);
      BytesCons(SubC(SubTid(IFDB, IFPD_ID).(dbcFixed := true), p[..size]), v.subs);
      assert w.subs[1..] == v.subs && BytesOf(w.subs)[1..] == BytesOf(v.subs);
      Glue(p[..size], Concat(BytesOf(v.subs)), v.rest);
      Rejoin(p, size);
    } else {
      assert BytesOf(c.subs[..0]) == [] && Concat([]) + p == p;
    }
  }

  lemma {:induction false} IgnoringFrames(inst: seq<Byte>)
    requires |inst| >= 32 && inst[0] % 32 >= 3
    ensures Readable(inst, true) && InitIfdb(inst, true).Init?
    ensures var (c, p) := (InitIfdb(inst, true).c, inst[2..inst[0] % 32 + 1]);
            && c.tid == Tid(0, 0, 14, 0, false, false) && c.inst[..inst[0] % 32 + 1] == inst[..inst[0] % 32 + 1]
            && c.hdrSz == 2 && FramesLeft(c, p, |WalkAll(p, true).subs|)
  {
    var p := inst[2..inst[0] % 32 + 1];
    WalkLeft(p, InitIfdb(inst, true).c);
  }
}
