/** Parse, edit, assemble, parse again: when the second parse returns the edited tree. */
module EditRoundTrip {
  import opened Bytes
  import opened GroupTree
  import opened GroupContent
  import opened GroupEdits
  import opened GroupRuns
  import opened BlockSplit
  import opened DataBlocks
  import opened Assembler
  import opened CeaImage
  import opened CeaParser
  import opened CeaTiling
  import opened RoundTrip

  // ---------------------------------------------------------------- blocks edits may leave behind

  predicate AvTid(tid: Tid) { tid == ADB.tid || tid == VDB.tid }

  function KindOf(tid: Tid): (k: Kind)
    ensures k == SAD || k == SVD
  {
    if tid == ADB.tid then SAD else SVD
  }

  /** An audio or video block of well-formed sub-groups, perhaps none, with the right header byte. */
  predicate AvSane(c: GrpC) {
    && AvTid(c.tid) && IsDbc(c) && c.hdrSz == 1 && WellFormedSubs(KindOf(c.tid), c.tid, c.subs)
    && TagCode(c.inst[0]) == (if c.tid == ADB.tid then 1 else 2) && BlkLen(c.inst[0]) == Payload(c)
  }

  predicate Sane(c: GrpC) {
    IsDtd(c) || Reparses(c) || AvSane(c)
  }

  /** An audio or video block whose last sub-group was cut. */
  predicate Emptied(c: GrpC) {
    AvTid(c.tid) && c.subs == []
  }

  lemma {:induction false} AvReparsed(c: GrpC)
    requires AvTid(c.tid) && Reparses(c)
    ensures AvSane(c) && c.subs != []
  {
    var k := KindOf(c.tid);
    assert IsAv(k, c.tid);
    AvHeader(c);
    AvReparses(k, c);
  }

  /** Strict parsing gives an audio or video block a header of one byte. */
  lemma {:induction false} AvHeader(c: GrpC)
    requires AvTid(c.tid) && Reparses(c)
    ensures c.hdrSz == 1
  {
    var b, k := GrpData(c), KindOf(c.tid);
    AcceptedTid(b);
    ClassByTid(TagCode(b[0]), if |b| > 1 then b[1] else 0, k);
    AvInit(k, b);
  }

  /** What the bytes of a sane data block parse to, depending on whether it was emptied. */
  lemma {:induction false} SaneTile(c: GrpC)
    requires Sane(c) && !IsDtd(c)
    ensures IsDbc(c) && WholeBlock(GrpData(c))
    ensures Tile(GrpData(c)) <==> !Emptied(c)
    ensures !Emptied(c) ==> Reparses(c)
  {
    if Reparses(c) {
      if AvTid(c.tid) { AvReparsed(c); }
    } else {
      var k := KindOf(c.tid);
      AvReparses(k, c);
      AvWhole(c);
      AvInit(k, GrpData(c));
    }
  }

  lemma {:induction false} AvWhole(c: GrpC)
    requires AvSane(c)
    ensures WholeBlock(GrpData(c)) && GrpData(c)[0] == c.inst[0] && |GrpData(c)| == 1 + Payload(c)
  {
  }

  // ---------------------------------------------------------------- alike groups

  /** The same type, sizes, sub-groups and bytes. */
  predicate Alike(a: GrpC, b: GrpC) {
    && IsBlock(a) && IsBlock(b) && a.tid == b.tid && a.hdrSz == b.hdrSz && a.flat == b.flat
    && a.subs == b.subs && GrpData(a) == GrpData(b)
  }

  /** The same groups; of the header all but the DTD offset and the checksum. */
  predicate SameGroups(r: Option<Contents>, cs: Contents)
    requires cs != []
  {
    && r.Some? && |r.value| == |cs| && IsHdr(r.value[0]) && |cs[0].inst| == 32
    && (forall k {:trigger cs[0].inst[k]} :: 0 <= k < 4 && k != 2 ==> r.value[0].inst[k] == cs[0].inst[k])
    && forall i {:trigger cs[i]} :: 1 <= i < |cs| ==> Alike(r.value[i], cs[i])
  }

  predicate NoneEmptied(cs: Contents) {
    forall i {:trigger cs[i]} :: 1 <= i < |cs| ==> !Emptied(cs[i])
  }

  /** All DTDs have a pixel clock. */
  predicate Clocked(cs: Contents)
    requires Sound(cs)
  {
    forall i {:trigger cs[i]} :: 1 <= i < |cs| && IsDtd(cs[i]) ==> PixClk(cs[i].inst, 0) != 0
  }

  /** The DTDs at the end of the block are enough for the native ones, and each has a pixel clock;
      no block was emptied.  A lone header needs nothing. */
  predicate Survives(cs: Contents)
    requires Sound(cs)
  {
    |cs| == 1
    || (&& NoneEmptied(cs) && IsDtd(cs[|cs| - 1]) && |cs| - FirstDtd(cs, 1) >= cs[0].inst[3] % 16
        && Clocked(cs))
  }

  predicate HdrOk(c: GrpC) {
    |c.inst| == 32 && c.inst[0] == 2 && 1 <= c.inst[1] <= 3
  }

  /** Every group may be left behind by edits of a parsed block. */
  predicate Ready(cs: Contents) {
    && Good(cs) && HdrOk(cs[0]) && cs[0].lag == 0
    && forall i {:trigger cs[i]} :: 1 <= i < |cs| ==> Sane(cs[i])
  }

  /** The buffer holds the assembled block; the checksum may have been written since. */
  predicate Holds(ext: seq<Byte>, cs: Contents)
    requires Sound(cs)
  {
    IsExt(ext) && ext[..CEA_SPACE] == Image(cs)[..CEA_SPACE]
  }

  // ---------------------------------------------------------------- the assembled block

  lemma {:induction false} HeaderHeld(ext: seq<Byte>, cs: Contents)
    requires Sound(cs) && HdrOk(cs[0]) && Holds(ext, cs)
    ensures HeaderOk(ext) && ext[2] == DtdStart(cs) % 256 && NumDtd(ext) == cs[0].inst[3] % 16
    ensures forall k {:trigger cs[0].inst[k]} :: 0 <= k < 4 && k != 2 ==> HeaderGrp(ext).inst[k] == cs[0].inst[k]
  {
    StartMono(cs, 1, |cs|);
    assert Start(cs, 1) == Start(cs, 0) + Width(cs[0]) == 4;
    DataPrefix(cs, 1, |cs|);
    HeaderPiece(cs);
    var d := Data(cs, |cs|);
    forall k | 0 <= k < 4 ensures d[k] == cs[0].inst[k] {
      assert d[..4][k] == cs[0].inst[..4][k];
    }
    forall k | 0 <= k < 4 ensures ext[k] == Image(cs)[k] && HeaderGrp(ext).inst[k] == ext[k] {
      assert ext[..CEA_SPACE][k] == Image(cs)[..CEA_SPACE][k];
    }
  }

  lemma {:induction false} PrefixSlice(s: seq<Byte>, n: nat, a: nat, b: nat)
    requires a <= b <= n <= |s|
    ensures s[..n][a..b] == s[a..b]
  {
  }

  /** Where a group's bytes are. */
  lemma {:induction false} GroupHeld(ext: seq<Byte>, cs: Contents, i: nat)
    requires Sound(cs) && Holds(ext, cs) && 1 <= i < |cs|
    ensures 4 <= Start(cs, i) && Start(cs, i) + Width(cs[i]) == Start(cs, i + 1) <= CEA_SPACE
    ensures ext[Start(cs, i)..Start(cs, i + 1)] == GrpData(cs[i])
  {
    LandsAtCachedOffset(cs, i);
    assert RenderGrps(cs)[i] == RenderAt(cs, i) && IsBlock(cs[i]);
    DataAt(cs, i);
    var (a, b) := (Start(cs, i), Start(cs, i + 1));
    PrefixSlice(ext, CEA_SPACE, a, b);
    PrefixSlice(Image(cs), CEA_SPACE, a, b);
  }

  lemma {:induction false} PaddingHeld(ext: seq<Byte>, cs: Contents)
    requires Sound(cs) && |cs| > 1 && Holds(ext, cs)
    ensures ZeroFrom(ext, Start(cs, |cs|))
  {
    LandsAtCachedOffset(cs, |cs| - 1);
    assert RenderGrps(cs)[|cs| - 1] == RenderAt(cs, |cs| - 1);
    forall k | Start(cs, |cs|) <= k < CEA_SPACE ensures ext[k] == 0 {
      assert ext[..CEA_SPACE][k] == Image(cs)[..CEA_SPACE][k];
    }
  }

  /** The data blocks of the contents, groups 1 .. f-1, as byte strings. */
  function Strings(cs: Contents, f: nat): (bs: seq<seq<Byte>>)
    requires Sound(cs) && 1 <= f <= |cs|
    ensures |bs| == f - 1
    ensures forall k {:trigger bs[k]} :: 0 <= k < f - 1 ==> IsBlock(cs[k + 1]) && bs[k] == GrpData(cs[k + 1])
    decreases f
  {
    if f == 1 then [] else
      assert IsBlock(cs[f - 1]);
      Strings(cs, f - 1) + [GrpData(cs[f - 1])]
  }

  lemma {:induction false} StringsStep(cs: Contents, f: nat)
    requires Sound(cs) && 2 <= f <= |cs|
    ensures IsBlock(cs[f - 1]) && Concat(Strings(cs, f)) == Concat(Strings(cs, f - 1)) + GrpData(cs[f - 1])
  {
    ConcatAppend(Strings(cs, f - 1), [GrpData(cs[f - 1])]);
    ConcatOne(GrpData(cs[f - 1]));
  }

  lemma {:induction false} HeaderEnd(cs: Contents)
    requires Sound(cs)
    ensures Start(cs, 1) == 4
  {
    assert Start(cs, 1) == Start(cs, 0) + Width(cs[0]);
  }

  lemma {:induction false} Adjoin(ext: seq<Byte>, a: nat, b: nat, x: seq<Byte>, y: seq<Byte>)
    requires 4 <= a <= b <= |ext| && x == ext[4..a] && y == ext[a..b]
    ensures x + y == ext[4..b]
  {
  }

  lemma {:induction false} StringsHeld(ext: seq<Byte>, cs: Contents, f: nat)
    requires Sound(cs) && Holds(ext, cs) && 1 <= f <= |cs|
    ensures 4 <= Start(cs, f) <= CEA_SPACE && Concat(Strings(cs, f)) == ext[4..Start(cs, f)]
  {
    if f == 1 {
      HeaderEnd(cs);
    } else {
      StringsHeld(ext, cs, f - 1);
      StringsNext(ext, cs, f);
    }
  }

  lemma {:induction false} StringsNext(ext: seq<Byte>, cs: Contents, f: nat)
    requires Sound(cs) && Holds(ext, cs) && 2 <= f <= |cs|
    requires 4 <= Start(cs, f - 1) <= CEA_SPACE && Concat(Strings(cs, f - 1)) == ext[4..Start(cs, f - 1)]
    ensures 4 <= Start(cs, f) <= CEA_SPACE && Concat(Strings(cs, f)) == ext[4..Start(cs, f)]
  {
    GroupHeld(ext, cs, f - 1);
    StringsStep(cs, f);
    Adjoin(ext, Start(cs, f - 1), Start(cs, f), Concat(Strings(cs, f - 1)), GrpData(cs[f - 1]));
  }

  // ---------------------------------------------------------------- reading it again

  lemma {:induction false} TileWhole(bs: seq<seq<Byte>>)
    requires Tiles(bs)
    ensures forall k {:trigger bs[k]} :: 0 <= k < |bs| ==> WholeBlock(bs[k])
  {
    forall k {:trigger bs[k]} | 0 <= k < |bs| ensures WholeBlock(bs[k]) { assert Tile(bs[k]); }
  }

  lemma {:induction false} DbcBefore(cs: Contents, i: nat)
    requires Ready(cs) && 1 <= i < FirstDtd(cs, 1)
    ensures IsDbc(cs[i]) && Sane(cs[i]) && !IsDtd(cs[i])
  {
  }

  /** A string is a whole block, and a tile exactly when the block was not emptied. */
  lemma {:induction false} StringTile(cs: Contents, bs: seq<seq<Byte>>, k: nat)
    requires Ready(cs) && bs == Strings(cs, FirstDtd(cs, 1)) && k < |bs|
    ensures WholeBlock(bs[k]) && (Tile(bs[k]) <==> !Emptied(cs[k + 1]))
  {
    DbcBefore(cs, k + 1);
    SaneTile(cs[k + 1]);
  }

  /** DTDs of a good block: exactly the groups from the first one on. */
  lemma {:induction false} DtdsFrom(cs: Contents, i: nat)
    requires Good(cs) && 1 <= i < |cs|
    ensures IsDtd(cs[i]) <==> i >= FirstDtd(cs, 1)
  {
    var f := FirstDtd(cs, 1);
    if f < i { assert IsDtd(cs[f]) ==> IsDtd(cs[i]); }
  }

  lemma {:induction false} TiledNotEmptied(cs: Contents, bs: seq<seq<Byte>>, i: nat)
    requires Ready(cs) && bs == Strings(cs, FirstDtd(cs, 1)) && Tiles(bs) && 1 <= i <= |bs|
    ensures !Emptied(cs[i])
  {
    assert Tile(bs[i - 1]);
    StringTile(cs, bs, i - 1);
  }

  lemma {:induction false} DtdNotEmptied(cs: Contents, i: nat)
    requires Good(cs) && FirstDtd(cs, 1) <= i < |cs|
    ensures !Emptied(cs[i])
  {
    DtdsFrom(cs, i);
  }

  lemma {:induction false} TilesNone(cs: Contents, bs: seq<seq<Byte>>)
    requires Ready(cs) && bs == Strings(cs, FirstDtd(cs, 1))
    ensures Tiles(bs) ==> NoneEmptied(cs)
  {
    if Tiles(bs) {
      forall i {:trigger cs[i]} | 1 <= i < |cs| ensures !Emptied(cs[i]) {
        if i <= |bs| { TiledNotEmptied(cs, bs, i); } else { DtdNotEmptied(cs, i); }
      }
    }
  }

  lemma {:induction false} NoneTiles(cs: Contents, bs: seq<seq<Byte>>)
    requires Ready(cs) && bs == Strings(cs, FirstDtd(cs, 1)) && NoneEmptied(cs)
    ensures Tiles(bs)
  {
    forall k {:trigger bs[k]} | 0 <= k < |bs| ensures Tile(bs[k]) {
      StringTile(cs, bs, k);
      assert !Emptied(cs[k + 1]);
    }
  }

  /** The records at the end have a pixel clock exactly when the DTDs have. */
  lemma {:induction false} TimingHeld(ext: seq<Byte>, cs: Contents, i: nat)
    requires Good(cs) && Holds(ext, cs) && FirstDtd(cs, 1) <= i < |cs|
    ensures Start(cs, i) == Start(cs, FirstDtd(cs, 1)) + 18 * (i - FirstDtd(cs, 1))
    ensures IsDtd(cs[i]) && Start(cs, i) + 18 == Start(cs, i + 1) <= CEA_SPACE
    ensures Timing(ext, Start(cs, i)) <==> PixClk(cs[i].inst, 0) != 0
    ensures ext[Start(cs, i)..Start(cs, i) + 18] == cs[i].inst[..18]
  {
    DtdSteps(cs, i);
    GroupHeld(ext, cs, i);
    DtdBytes(cs[i]);
    SameClock(ext, Start(cs, i), cs[i].inst);
  }

  lemma {:induction false} SameClock(ext: seq<Byte>, at: nat, inst: seq<Byte>)
    requires IsExt(ext) && |inst| == 32 && at + 18 <= CEA_SPACE && ext[at..at + 18] == inst[..18]
    ensures Timing(ext, at) <==> PixClk(inst, 0) != 0
  {
    assert ext[at..at + 18][0] == ext[at] && ext[at..at + 18][1] == ext[at + 1];
    assert inst[..18][0] == inst[0] && inst[..18][1] == inst[1];
  }

  lemma {:induction false} DtdBytes(c: GrpC)
    requires IsDtd(c)
    ensures Width(c) == 18 && GrpData(c) == c.inst[..18]
  {
    assert AllSubData(c.subs) == [];
    assert c.inst[..18] + [] == c.inst[..18];
  }

  /** Behind the DTDs there is no further timing record. */
  lemma {:induction false} RunEnds(ext: seq<Byte>, cs: Contents)
    requires Good(cs) && |cs| > 1 && Holds(ext, cs)
    ensures !Timing(ext, Start(cs, |cs|))
  {
    PaddingHeld(ext, cs);
  }

  lemma {:induction false} OffsetHeld(ext: seq<Byte>, cs: Contents)
    requires Sound(cs) && HdrOk(cs[0]) && Holds(ext, cs)
    ensures var f := FirstDtd(cs, 1);
            if f == |cs| then ext[2] == 0 else 4 <= ext[2] <= CEA_SPACE && ext[2] == Start(cs, f)
  {
    OffsetByte(ext, cs);
    DtdStartRange(cs);
  }

  lemma {:induction false} OffsetByte(ext: seq<Byte>, cs: Contents)
    requires Sound(cs) && HdrOk(cs[0]) && Holds(ext, cs)
    ensures ext[2] == DtdStart(cs) % 256
  {
    HeaderHeld(ext, cs);
  }

  lemma {:induction false} DtdStartRange(cs: Contents)
    requires Sound(cs)
    ensures var f := FirstDtd(cs, 1);
            if f == |cs| then DtdStart(cs) == 0 else 4 <= DtdStart(cs) == Start(cs, f) <= CEA_SPACE
  {
    StartRange(cs, FirstDtd(cs, 1));
  }

  lemma {:induction false} StartRange(cs: Contents, i: nat)
    requires Sound(cs) && 1 <= i <= |cs|
    ensures 4 <= Start(cs, i) <= CEA_SPACE
  {
    HeaderEnd(cs);
    StartMono(cs, 1, i);
    StartMono(cs, i, |cs|);
  }

  lemma {:induction false} WholeStrings(cs: Contents, bs: seq<seq<Byte>>)
    requires Ready(cs) && bs == Strings(cs, FirstDtd(cs, 1))
    ensures forall k {:trigger bs[k]} :: 0 <= k < |bs| ==> WholeBlock(bs[k])
  {
    forall k {:trigger bs[k]} | 0 <= k < |bs| ensures WholeBlock(bs[k]) { StringTile(cs, bs, k); }
  }

  lemma {:induction false} ClockedTiming(ext: seq<Byte>, cs: Contents, j: nat)
    requires Good(cs) && HdrOk(cs[0]) && Holds(ext, cs) && FirstDtd(cs, 1) + j < |cs| && Clocked(cs)
    ensures Timing(ext, ext[2] + 18 * j)
  {
    OffsetHeld(ext, cs);
    TimingHeld(ext, cs, FirstDtd(cs, 1) + j);
  }

  lemma {:induction false} EndHeld(ext: seq<Byte>, cs: Contents)
    requires Good(cs) && HdrOk(cs[0]) && Holds(ext, cs) && FirstDtd(cs, 1) < |cs|
    ensures Start(cs, |cs|) == ext[2] + 18 * (|cs| - FirstDtd(cs, 1)) <= CEA_SPACE
    ensures !Timing(ext, Start(cs, |cs|)) && ZeroFrom(ext, Start(cs, |cs|))
  {
    EndPosition(ext, cs);
    RunEnds(ext, cs);
    PaddingHeld(ext, cs);
  }

  lemma {:induction false} EndPosition(ext: seq<Byte>, cs: Contents)
    requires Good(cs) && HdrOk(cs[0]) && Holds(ext, cs) && FirstDtd(cs, 1) < |cs|
    ensures Start(cs, |cs|) == ext[2] + 18 * (|cs| - FirstDtd(cs, 1)) <= CEA_SPACE
  {
    OffsetHeld(ext, cs);
    LastTiming(ext, cs);
  }

  lemma {:induction false} LastTiming(ext: seq<Byte>, cs: Contents)
    requires Good(cs) && Holds(ext, cs) && FirstDtd(cs, 1) < |cs|
    ensures Start(cs, |cs|) == Start(cs, FirstDtd(cs, 1)) + 18 * (|cs| - FirstDtd(cs, 1)) <= CEA_SPACE
  {
    TimingHeld(ext, cs, |cs| - 1);
  }

  lemma {:induction false} AcceptsHeld(ext: seq<Byte>, cs: Contents)
    requires Ready(cs) && Holds(ext, cs) && |cs| > 1 && Survives(cs)
    ensures var f := FirstDtd(cs, 1);
            f < |cs| && 4 <= ext[2] <= CEA_SPACE && Accepts(ext, Strings(cs, f), |cs| - f)
  {
    var f := FirstDtd(cs, 1);
    var bs := Strings(cs, f);
    DtdsFrom(cs, |cs| - 1);
    OffsetHeld(ext, cs);
    HeaderHeld(ext, cs);
    StringsHeld(ext, cs, f);
    NoneTiles(cs, bs);
    EndHeld(ext, cs);
    assert Clocked(cs);
    forall j | 0 <= j < |cs| - f ensures Timing(ext, ext[2] + 18 * j) { ClockedTiming(ext, cs, j); }
  }

  lemma {:induction false} DbcAlike(c: GrpC)
    requires Sane(c) && !IsDtd(c) && Tile(GrpData(c))
    ensures Alike(Content(GrpData(c)), c)
  {
    SaneTile(c);
    StrictKeepsBytes(GrpData(c));
  }

  lemma {:induction false} DtdAlike(ext: seq<Byte>, c: GrpC, at: nat)
    requires IsExt(ext) && IsDtd(c) && at + 18 <= CEA_SPACE && ext[at..at + 18] == c.inst[..18]
    ensures Alike(DtdAt(ext, at), c)
  {
    DtdData(ext, at);
    DtdBytes(c);
  }

  lemma {:induction false} DbcAlikeHeld(cs: Contents, bs: seq<seq<Byte>>, i: nat)
    requires Ready(cs) && bs == Strings(cs, FirstDtd(cs, 1)) && Tiles(bs) && 1 <= i < FirstDtd(cs, 1)
    ensures Alike(Inits(bs)[i - 1], cs[i])
  {
    assert Tile(bs[i - 1]);
    DbcBefore(cs, i);
    DbcAlike(cs[i]);
  }

  lemma {:induction false} DtdAlikeHeld(ext: seq<Byte>, cs: Contents, i: nat)
    requires Good(cs) && HdrOk(cs[0]) && Holds(ext, cs) && FirstDtd(cs, 1) <= i < |cs|
    ensures ext[2] + 18 * (i - FirstDtd(cs, 1)) + 18 <= CEA_SPACE
    ensures Alike(DtdAt(ext, ext[2] + 18 * (i - FirstDtd(cs, 1))), cs[i])
  {
    OffsetHeld(ext, cs);
    TimingHeld(ext, cs, i);
    DtdAlike(ext, cs[i], Start(cs, i));
  }

  lemma {:induction false} ParsedAt(ext: seq<Byte>, bs: seq<seq<Byte>>, k: nat, i: nat)
    requires IsExt(ext) && Tiles(bs) && ext[2] + 18 * k <= CEA_SPACE && 1 <= i < 1 + |bs| + k
    ensures Parsed(ext, bs, k)[i]
         == if i <= |bs| then Inits(bs)[i - 1] else DtdAt(ext, ext[2] + 18 * (i - 1 - |bs|))
  {
    if i > |bs| { assert Parsed(ext, bs, k)[i] == Records(ext, ext[2], k)[i - 1 - |bs|]; }
  }

  lemma {:induction false} AlikeHeld(ext: seq<Byte>, cs: Contents, bs: seq<seq<Byte>>, i: nat)
    requires Ready(cs) && Holds(ext, cs) && FirstDtd(cs, 1) < |cs| && 1 <= i < |cs|
    requires bs == Strings(cs, FirstDtd(cs, 1)) && Tiles(bs)
    requires ext[2] + 18 * (|cs| - FirstDtd(cs, 1)) <= CEA_SPACE
    ensures Alike(Parsed(ext, bs, |cs| - FirstDtd(cs, 1))[i], cs[i])
  {
    ParsedAt(ext, bs, |cs| - FirstDtd(cs, 1), i);
    if i < FirstDtd(cs, 1) { DbcAlikeHeld(cs, bs, i); } else { DtdAlikeHeld(ext, cs, i); }
  }

  lemma {:induction false} SurvivorsReparse(ext: seq<Byte>, cs: Contents)
    requires Ready(cs) && Holds(ext, cs) && Survives(cs)
    ensures SameGroups(ParseCea(ext), cs)
  {
    HeaderHeld(ext, cs);
    if |cs| == 1 {
      OffsetHeld(ext, cs);
    } else {
      var f := FirstDtd(cs, 1);
      var bs := Strings(cs, f);
      AcceptsHeld(ext, cs);
      TiledIsAccepted(ext, bs, |cs| - f);
      forall i {:trigger cs[i]} | 1 <= i < |cs| ensures Alike(Parsed(ext, bs, |cs| - f)[i], cs[i]) {
        AlikeHeld(ext, cs, bs, i);
      }
    }
  }

  lemma {:induction false} TimingClock(ext: seq<Byte>, cs: Contents, i: nat)
    requires Good(cs) && HdrOk(cs[0]) && Holds(ext, cs) && 1 <= i < |cs| && IsDtd(cs[i])
    requires Timing(ext, ext[2] + 18 * (i - FirstDtd(cs, 1)))
    ensures PixClk(cs[i].inst, 0) != 0
  {
    DtdsFrom(cs, i);
    OffsetHeld(ext, cs);
    TimingHeld(ext, cs, i);
  }

  /** As many groups come back only if they all do. */
  lemma {:induction false} ReparsedSurvives(ext: seq<Byte>, cs: Contents)
    requires Ready(cs) && Holds(ext, cs) && ParseCea(ext).Some? && |ParseCea(ext).value| == |cs|
    ensures Survives(cs)
  {
    OffsetHeld(ext, cs);
    if |cs| > 1 {
      var bs, k := AcceptedIsTiled(ext);
      ReparsedTiles(ext, cs, bs, k);
      ReparsedRest(ext, cs, bs, k);
    }
  }

  lemma {:induction false} ReparsedRest(ext: seq<Byte>, cs: Contents, bs: seq<seq<Byte>>, k: nat)
    requires Ready(cs) && Holds(ext, cs) && FirstDtd(cs, 1) < |cs| && bs == Strings(cs, FirstDtd(cs, 1))
    requires 4 <= ext[2] <= CEA_SPACE && Accepts(ext, bs, k) && k == |cs| - FirstDtd(cs, 1)
    ensures Survives(cs)
  {
    AcceptedTiles(ext, cs, bs, k);
    ReparsedClocks(ext, cs, bs, k);
    EnoughDtds(ext, cs, k);
  }

  lemma {:induction false} AcceptedTiles(ext: seq<Byte>, cs: Contents, bs: seq<seq<Byte>>, k: nat)
    requires Ready(cs) && bs == Strings(cs, FirstDtd(cs, 1)) && IsExt(ext) && 4 <= ext[2] && Accepts(ext, bs, k)
    ensures NoneEmptied(cs) && k >= NumDtd(ext)
  {
    TilesNone(cs, bs);
  }

  lemma {:induction false} EnoughDtds(ext: seq<Byte>, cs: Contents, k: nat)
    requires Good(cs) && HdrOk(cs[0]) && Holds(ext, cs) && FirstDtd(cs, 1) < |cs| && k == |cs| - FirstDtd(cs, 1)
    requires NoneEmptied(cs) && Clocked(cs) && k >= NumDtd(ext)
    ensures Survives(cs)
  {
    DtdsFrom(cs, |cs| - 1);
    NativeHeld(ext, cs);
  }

  lemma {:induction false} NativeHeld(ext: seq<Byte>, cs: Contents)
    requires Sound(cs) && HdrOk(cs[0]) && Holds(ext, cs)
    ensures NumDtd(ext) == cs[0].inst[3] % 16
  {
    HeaderHeld(ext, cs);
  }

  lemma {:induction false} ReparsedTiles(ext: seq<Byte>, cs: Contents, bs: seq<seq<Byte>>, k: nat)
    requires Ready(cs) && Holds(ext, cs) && FirstDtd(cs, 1) < |cs|
    requires 4 <= ext[2] <= CEA_SPACE && Accepts(ext, bs, k)
    ensures bs == Strings(cs, FirstDtd(cs, 1))
  {
    var f := FirstDtd(cs, 1);
    StringsHeld(ext, cs, f);
    OffsetHeld(ext, cs);
    WholeStrings(cs, Strings(cs, f));
    TileWhole(bs);
    TilingUnique(bs, Strings(cs, f));
  }

  lemma {:induction false} ReparsedClocks(ext: seq<Byte>, cs: Contents, bs: seq<seq<Byte>>, k: nat)
    requires Good(cs) && HdrOk(cs[0]) && Holds(ext, cs) && 4 <= ext[2] <= CEA_SPACE
    requires Accepts(ext, bs, k) && k == |cs| - FirstDtd(cs, 1)
    ensures Clocked(cs)
  {
    forall i {:trigger cs[i]} | 1 <= i < |cs| && IsDtd(cs[i]) ensures PixClk(cs[i].inst, 0) != 0 {
      DtdsFrom(cs, i);
      assert Timing(ext, ext[2] + 18 * (i - FirstDtd(cs, 1)));
      TimingClock(ext, cs, i);
    }
  }

  /** An assembled block reads back as the groups it was made of exactly when it holds only its
      header, or no block was emptied and its DTDs are at least one, at least the native ones, and
      all with a pixel clock. */
  lemma {:induction false} AssembledReparses(ext: seq<Byte>, cs: Contents)
    requires Ready(cs) && Holds(ext, cs)
    ensures SameGroups(ParseCea(ext), cs) <==> Survives(cs)
  {
    if Survives(cs) { SurvivorsReparse(ext, cs); } else if SameGroups(ParseCea(ext), cs) { ReparsedSurvives(ext, cs); }
  }

  // ---------------------------------------------------------------- any good contents

  predicate Writable(cs: Contents) { Good(cs) && HdrOk(cs[0]) && cs[0].lag == 0 }

  /** Every data block parses by itself. */
  predicate AllReparse(cs: Contents) {
    forall i {:trigger cs[i]} :: 1 <= i < |cs| ==> IsDtd(cs[i]) || Reparses(cs[i])
  }

  /** The header alone; or every data block parses by itself, and the DTDs are at least one, at least the
      native ones, and all with a pixel clock. */
  predicate Rereads(cs: Contents)
    requires Sound(cs)
  {
    |cs| == 1
    || (&& AllReparse(cs) && IsDtd(cs[|cs| - 1]) && |cs| - FirstDtd(cs, 1) >= cs[0].inst[3] % 16 && Clocked(cs))
  }

  lemma {:induction false} AlikeReparses(a: GrpC, b: GrpC)
    requires Alike(a, b) && (IsDtd(a) || Reparses(a))
    ensures IsDtd(b) || Reparses(b)
  {
  }

  lemma {:induction false} ReparsedNotEmptied(c: GrpC)
    requires IsDtd(c) || Reparses(c)
    ensures Sane(c) && !Emptied(c)
  {
    if !IsDtd(c) { SaneTile(c); }
  }

  lemma {:induction false} ReparsingSurvives(cs: Contents)
    requires Writable(cs) && AllReparse(cs)
    ensures Ready(cs) && (Survives(cs) <==> Rereads(cs))
  {
    forall i {:trigger cs[i]} | 1 <= i < |cs| ensures Sane(cs[i]) && !Emptied(cs[i]) { ReparsedNotEmptied(cs[i]); }
  }

  /** Blocks of accepted bytes parse by themselves. */
  lemma {:induction false} ParsedReparse(ext: seq<Byte>, cs: Contents)
    requires IsExt(ext) && 4 <= ext[2] <= CEA_SPACE && ParseCea(ext) == Some(cs)
    ensures AllReparse(cs)
  {
    var k := ParsedFacts(ext, cs);
    var bs, n := AcceptedIsTiled(ext);
    forall i {:trigger cs[i]} | 1 <= i < |cs| ensures IsDtd(cs[i]) || Reparses(cs[i]) {
      ParsedAt(ext, bs, n, i);
      if i <= |bs| {
        assert Tile(bs[i - 1]);
        AcceptedReparses(bs[i - 1]);
      }
    }
  }

  lemma {:induction false} SameReparse(ext: seq<Byte>, cs: Contents)
    requires Writable(cs) && Holds(ext, cs) && |cs| > 1 && SameGroups(ParseCea(ext), cs)
    ensures AllReparse(cs)
  {
    OffsetHeld(ext, cs);
    var r := ParseCea(ext).value;
    ParsedReparse(ext, r);
    forall i {:trigger cs[i]} | 1 <= i < |cs| ensures IsDtd(cs[i]) || Reparses(cs[i]) {
      assert Alike(r[i], cs[i]);
      AlikeReparses(r[i], cs[i]);
    }
  }

  lemma {:induction false} LoneRereads(cs: Contents)
    requires Writable(cs) && |cs| == 1
    ensures Ready(cs) && Survives(cs) && Rereads(cs)
  {
  }

  /** Whatever good contents are assembled, blocks that do not parse by themselves included: they read
      back as the same groups exactly if they are rereadable. */
  lemma {:induction false} AssembledRereads(ext: seq<Byte>, cs: Contents)
    requires Writable(cs) && Holds(ext, cs)
    ensures SameGroups(ParseCea(ext), cs) <==> Rereads(cs)
  {
    if |cs| == 1 {
      LoneRereads(cs);
      SurvivorsReparse(ext, cs);
    } else {
      if SameGroups(ParseCea(ext), cs) {
        SameReparse(ext, cs);
        ReparsingSurvives(cs);
        ReparsedSurvives(ext, cs);
      }
      if Rereads(cs) {
        ReparsingSurvives(cs);
        SurvivorsReparse(ext, cs);
      }
    }
  }

  /** For contents that edits of a parsed block leave behind both conditions are the same. */
  lemma {:induction false} SurvivesIsRereads(cs: Contents)
    requires Ready(cs)
    ensures Survives(cs) <==> Rereads(cs)
  {
    if |cs| > 1 && NoneEmptied(cs) {
      forall i {:trigger cs[i]} | 1 <= i < |cs| ensures IsDtd(cs[i]) || Reparses(cs[i]) {
        if !IsDtd(cs[i]) { SaneTile(cs[i]); }
      }
    }
    if |cs| > 1 && AllReparse(cs) {
      forall i {:trigger cs[i]} | 1 <= i < |cs| ensures !Emptied(cs[i]) { ReparsedNotEmptied(cs[i]); }
    }
  }

  /** A block whose stored length does not span it is no whole block. */
  lemma {:induction false} ShortLength(c: GrpC)
    requires IsDbc(c) && 1 + BlkLen(c.inst[0]) != Total(c)
    ensures !WholeBlock(GrpData(c)) && !Reparses(c)
  {
    BlockWidth(c);
    assert GrpData(c)[0] == c.inst[0];
  }
}
