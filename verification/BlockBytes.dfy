/** Strict parsing of one data block, said in its bytes: which blocks each class accepts, and what their
    groups hold. */
module BlockBytes {
  import opened Bytes
  import opened GroupTree
  import opened GroupContent
  import opened BlockSplit
  import opened FlatSplit
  import opened InfoFrames
  import opened DataBlocks

  /** A block by itself: bits 4..0 of its first byte are the number of bytes behind it. */
  predicate Whole(b: seq<Byte>) { |b| >= 1 && |b| == 1 + b[0] % 32 }

  /** Bits 7..5 of the first byte are the tag; tag 7 has a second byte with the extended tag. */
  predicate Tagged(b: seq<Byte>, tag: nat) { Whole(b) && b[0] / 32 == tag }
  predicate ExtTagged(b: seq<Byte>, etag: nat) { Tagged(b, 7) && |b| >= 2 && b[1] == etag }

  /** The contents of block b: its type, its bytes, and a header part of hdrSz bytes. */
  predicate Holds(c: GrpC, tid: Tid, hdrSz: nat, b: seq<Byte>) {
    c.tid == tid && |b| <= 32 && c.inst == b + Zeros(32 - |b|) && c.hdrSz == hdrSz && c.flat == 0 && c.lag == 0
  }

  lemma {:induction false} WholeIs(b: seq<Byte>)
    requires Whole(b)
    ensures WholeBlock(b) && TagCode(b[0]) == b[0] / 32 && BlkLen(b[0]) == b[0] % 32 == |b| - 1 && |b| <= 32
  {
  }

  lemma {:induction false} RootCase(b: seq<Byte>, d: RootDsc)
    requires WholeBlock(b) && RootShape(d) && 1 <= d.hdrSz <= 2 && (TagCode(b[0]) == 7 ==> |b| >= 2)
    requires ClassOf(TagCode(b[0]), if |b| > 1 then b[1] else 0) == Root(d)
    ensures StrictInit(b) == Accepted(InitRoot(b, d, false))
  {
  }

  /** Strict mode on a block with sub-groups: long enough, not too long, and a walk without fault. */
  lemma {:induction false} RootAccepted(b: seq<Byte>, d: RootDsc)
    requires WholeBlock(b) && |b| <= 32 && 1 <= d.hdrSz <= 2 && d.hdrSz <= |b|
    ensures var w := Walk(d.subs, 0, 0, b[d.hdrSz..], d.tid, Ok);
            && (Accepted(InitRoot(b, d, false)).Some? <==> d.minLen <= |b| - 1 <= d.maxLen && IsOk(w.rc))
            && (Accepted(InitRoot(b, d, false)).Some? ==>
                  var c := Accepted(InitRoot(b, d, false)).value;
                  Holds(c, d.tid, d.hdrSz, b) && c.subs == WithUnknown(w.subs, w.rest, d.tid))
  {
    assert b[d.hdrSz..BlkLen(b[0]) + 1] == b[d.hdrSz..];
    assert b[..|b|] == b;
  }

  // ---------------------------------------------------------------- sub-groups of one size

  /** Sub-groups of n bytes each, one after another. */
  predicate Sliced(subs: seq<SubC>, tid: Tid, p: seq<Byte>, n: nat) {
    && |p| == n * |subs|
    && forall i {:trigger subs[i]} :: 0 <= i < |subs| ==> n * i + n <= |p| && subs[i] == SubC(tid, p[n * i..n * i + n])
  }

  lemma {:induction false} SlicedCons(subs: seq<SubC>, tid: Tid, p: seq<Byte>, n: nat)
    requires (n == 1 || n == 3) && |p| >= n && Sliced(subs, tid, p[n..], n)
    ensures Sliced([SubC(tid, p[..n])] + subs, tid, p, n)
  {
    var all := [SubC(tid, p[..n])] + subs;
    forall i {:trigger all[i]} | 0 <= i < |all| ensures n * i + n <= |p| && all[i] == SubC(tid, p[n * i..n * i + n]) {
      SliceAt(subs, tid, p, n, i);
    }
    if n == 1 {} else {}
  }

  lemma {:induction false} SliceAt(subs: seq<SubC>, tid: Tid, p: seq<Byte>, n: nat, i: nat)
    requires (n == 1 || n == 3) && |p| >= n && Sliced(subs, tid, p[n..], n) && i <= |subs|
    ensures n * i + n <= |p| && ([SubC(tid, p[..n])] + subs)[i] == SubC(tid, p[n * i..n * i + n])
  {
    if i > 0 {
      var q := p[n..];
      assert subs[i - 1] == SubC(tid, q[n * (i - 1)..n * (i - 1) + n]);
      if n == 1 { SliceOfRest(p, 1, i - 1, i); } else { SliceOfRest(p, 3, 3 * (i - 1), 3 * i); }
    }
  }

  lemma {:induction false} SliceOfRest(p: seq<Byte>, n: nat, a: nat, b: nat)
    requires n <= |p| && a <= b <= |p| - n
    ensures p[n..][a..b] == p[a + n..b + n]
  {
  }

  /** The sub-group classes of one size, by size and type. */
  predicate Plain(k: Kind, n: nat, id: nat) {
    (k == SVD && n == 1 && id == 2) || (k == SVR && n == 1 && id == 8)
  }

  /** One-byte sub-groups take every byte. */
  lemma {:induction false} WalkPlain(k: Kind, n: nat, id: nat, p: seq<Byte>, done: nat, tid: Tid, rc: Rcode)
    requires Plain(k, n, id) && done + |p| < UNTIL_END
    ensures var w := Walk([SubDsc(k, UNTIL_END)], 0, done, p, tid, rc);
            w.rest == [] && Sliced(w.subs, tid.(sub := id), p, n) && w.rc == if p == [] then rc else Ok
    decreases |p|
  {
    if p != [] {
      WalkPlain(k, n, id, p[1..], done + 1, tid, Ok);
      var w := Walk([SubDsc(k, UNTIL_END)], 0, done + 1, p[1..], tid, Ok);
      SlicedCons(w.subs, tid.(sub := id), p, 1);
    }
  }

  /** Three bytes each, with an audio format code in bits 6..3 of the first. */
  predicate Formats(p: seq<Byte>) {
    |p| % 3 == 0 && forall i {:trigger p[3 * i]} :: 0 <= i < |p| / 3 ==> p[3 * i] / 8 % 16 != 0
  }

  lemma {:induction false} FormatsCons(p: seq<Byte>)
    requires |p| >= 3
    ensures Formats(p) <==> p[0] / 8 % 16 != 0 && Formats(p[3..])
  {
    var q := p[3..];
    if p[0] / 8 % 16 != 0 && Formats(q) {
      forall i {:trigger p[3 * i]} | 0 <= i < |p| / 3 ensures p[3 * i] / 8 % 16 != 0 {
        if i > 0 { assert q[3 * (i - 1)] == p[3 * i]; }
      }
    }
    if Formats(p) {
      assert p[3 * 0] == p[0];
      forall i {:trigger q[3 * i]} | 0 <= i < |q| / 3 ensures q[3 * i] / 8 % 16 != 0 {
        assert q[3 * i] == p[3 * (i + 1)];
      }
    }
  }

  lemma {:induction false} WalkAudio(p: seq<Byte>, done: nat, tid: Tid, rc: Rcode)
    requires done + |p| < UNTIL_END
    ensures var w := Walk([SubDsc(SAD, UNTIL_END)], 0, done, p, tid, rc);
            if Formats(p)
              then w.rest == [] && Sliced(w.subs, tid.(sub := 1), p, 3) && w.rc == (if p == [] then rc else Ok)
              else w.rc == FaultMsg
    decreases |p|
  {
    if |p| >= 3 {
      FormatsCons(p);
      if p[0] / 8 % 16 != 0 {
        WalkAudio(p[3..], done + 1, tid, Ok);
        var w := Walk([SubDsc(SAD, UNTIL_END)], 0, done + 1, p[3..], tid, Ok);
        if Formats(p) { SlicedCons(w.subs, tid.(sub := 1), p, 3); }
      }
    }
  }

  /** A video block takes any payload but an empty one, one sub-group for each byte. */
  lemma {:induction false} VideoBlock(b: seq<Byte>)
    requires Tagged(b, 2)
    ensures WholeBlock(b) && (StrictInit(b).Some? <==> |b| >= 2)
    ensures |b| >= 2 ==>
      var c := StrictInit(b).value;
      Holds(c, Tid(0, 3, 0, 0, false, false), 1, b) && |c.subs| == |b| - 1
      && forall i {:trigger c.subs[i]} :: 0 <= i < |c.subs| ==>
        c.subs[i] == SubC(Tid(0, 3, 0, 2, false, false), [b[1 + i]])
  {
    WholeIs(b);
    Shapes();
    RootCase(b, VDB);
    RootAccepted(b, VDB);
    WalkPlain(SVD, 1, 2, b[1..], 0, VDB.tid, Ok);
    SlicedBytes(Walk(VDB.subs, 0, 0, b[1..], VDB.tid, Ok).subs, Tid(0, 3, 0, 2, false, false), b, 1);
  }

  lemma {:induction false} SlicedBytes(subs: seq<SubC>, tid: Tid, b: seq<Byte>, h: nat)
    requires h <= |b| && Sliced(subs, tid, b[h..], 1)
    ensures |subs| == |b| - h
    ensures forall i {:trigger subs[i]} :: 0 <= i < |subs| ==> subs[i] == SubC(tid, [b[h + i]])
  {
    forall i {:trigger subs[i]} | 0 <= i < |subs| ensures subs[i] == SubC(tid, [b[h + i]]) {
      assert b[h..][i..i + 1] == [b[h + i]];
    }
  }

  /** An audio block takes whole three-byte descriptors with a format code each, at least one. */
  lemma {:induction false} AudioBlock(b: seq<Byte>)
    requires Tagged(b, 1)
    ensures WholeBlock(b) && (StrictInit(b).Some? <==> |b| >= 4 && Formats(b[1..]))
    ensures StrictInit(b).Some? ==>
      var c := StrictInit(b).value;
      Holds(c, Tid(0, 2, 0, 0, false, false), 1, b) && Sliced(c.subs, Tid(0, 2, 0, 1, false, false), b[1..], 3)
  {
    WholeIs(b);
    Shapes();
    RootCase(b, ADB);
    RootAccepted(b, ADB);
    WalkAudio(b[1..], 0, ADB.tid, Ok);
  }

  /** Video formats preferred (13) and 4:2:0 video (14): one sub-group for each byte behind the tags. */
  lemma {:induction false} ExtVideoBlock(b: seq<Byte>, etag: nat)
    requires etag in {13, 14} && ExtTagged(b, etag)
    ensures WholeBlock(b) && (StrictInit(b).Some? <==> |b| >= 3)
    ensures |b| >= 3 ==>
      var (c, ext, id) := (StrictInit(b).value, if etag == 13 then 9 else 10, if etag == 13 then 8 else 2);
      Holds(c, Tid(0, 0, ext, 0, false, false), 2, b) && |c.subs| == |b| - 2
      && forall i {:trigger c.subs[i]} :: 0 <= i < |c.subs| ==>
        c.subs[i] == SubC(Tid(0, 0, ext, id, false, false), [b[2 + i]])
  {
    WholeIs(b);
    ExtShapes();
    var d := if etag == 13 then VFPD else Y42V;
    var (k, id) := (if etag == 13 then SVR else SVD, if etag == 13 then 8 else 2);
    RootCase(b, d);
    RootAccepted(b, d);
    WalkPlain(k, 1, id, b[2..], 0, d.tid, Ok);
    SlicedBytes(Walk(d.subs, 0, 0, b[2..], d.tid, Ok).subs, d.tid.(sub := id), b, 2);
  }

  // ---------------------------------------------------------------- room configuration

  /** A descriptor that occurs once. */
  lemma {:induction false} WalkOnce(ds: seq<SubDsc>, d: nat, n: nat, id: nat, p: seq<Byte>, tid: Tid, rc: Rcode)
    requires d < |ds| && ds[d].cnt == 1 && |p| >= n
    requires (ds[d].kind == DHDR && n == 1 && id == 9) || (ds[d].kind == SPM && n == 3 && id == 10)
        || (ds[d].kind == SPKD && n == 3 && id == 11) || (ds[d].kind == DSPC && n == 3 && id == 12)
    ensures var w := Walk(ds, d + 1, 0, p[n..], tid, Ok);
            Walk(ds, d, 0, p, tid, rc) == w.(subs := [SubC(tid.(sub := id), p[..n])] + w.subs)
  {
    assert Walk(ds, d, 1, p[n..], tid, Ok) == Walk(ds, d + 1, 0, p[n..], tid, Ok);
  }

  lemma {:induction false} WalkRoom(p: seq<Byte>, tid: Tid)
    requires |p| == 10 && tid == RMCD.tid
    ensures Walk(RMCD.subs, 0, 0, p, tid, Ok)
         == Walked([SubC(tid.(sub := 9), p[..1]), SubC(tid.(sub := 10), p[1..4]), SubC(tid.(sub := 11), p[4..7]),
                    SubC(tid.(sub := 12), p[7..10])], [], Ok)
  {
    var ds := RMCD.subs;
    WalkOnce(ds, 0, 1, 9, p, tid, Ok);
    WalkOnce(ds, 1, 3, 10, p[1..], tid, Ok);
    assert p[1..][3..] == p[4..] && p[1..][..3] == p[1..4];
    WalkOnce(ds, 2, 3, 11, p[4..], tid, Ok);
    assert p[4..][3..] == p[7..] && p[4..][..3] == p[4..7];
    WalkOnce(ds, 3, 3, 12, p[7..], tid, Ok);
    assert p[7..][3..] == [] && p[7..][..3] == p[7..10];
  }

  /** A room configuration block (19) has twelve bytes: 1, 3, 3 and 3 behind the tags. */
  lemma {:induction false} RoomBlock(b: seq<Byte>)
    requires ExtTagged(b, 19)
    ensures WholeBlock(b) && (StrictInit(b).Some? <==> |b| == 12)
    ensures |b| == 12 ==>
      var (c, tid) := (StrictInit(b).value, Tid(0, 0, 12, 0, false, false));
      Holds(c, tid, 2, b)
      && c.subs == [SubC(tid.(sub := 9), b[2..3]), SubC(tid.(sub := 10), b[3..6]), SubC(tid.(sub := 11), b[6..9]),
                    SubC(tid.(sub := 12), b[9..12])]
  {
    WholeIs(b);
    ExtShapes();
    RootCase(b, RMCD);
    RootAccepted(b, RMCD);
    if |b| == 12 {
      var p := b[2..];
      WalkRoom(p, RMCD.tid);
      assert p[..1] == b[2..3] && p[1..4] == b[3..6] && p[4..7] == b[6..9] && p[7..10] == b[9..12];
    }
  }

  // ---------------------------------------------------------------- sub-groups of several sizes

  predicate AllOf(subs: seq<SubC>, tid: Tid) {
    forall i {:trigger subs[i]} :: 0 <= i < |subs| ==> subs[i].tid == tid
  }

  /** A speaker location: two bytes, or five if bit 6 of the first says that it has coordinates. */
  predicate Location(d: seq<Byte>) { d != [] && |d| == if d[0] / 64 % 2 == 0 then 2 else 5 }

  predicate Locations(ds: seq<seq<Byte>>) {
    forall i {:trigger ds[i]} :: 0 <= i < |ds| ==> Location(ds[i])
  }

  function WalkLoc(p: seq<Byte>, done: nat, tid: Tid, rc: Rcode): Walked {
    Walk([SubDsc(SLOCD, UNTIL_END)], 0, done, p, tid, rc)
  }

  /** A walk without fault cuts the payload into locations. */
  lemma {:induction false} WalkedLocations(p: seq<Byte>, done: nat, tid: Tid, rc: Rcode)
    requires done + |p| < UNTIL_END && WalkLoc(p, done, tid, rc).rc == Ok
    ensures var w := WalkLoc(p, done, tid, rc);
            w.rest == [] && Locations(BytesOf(w.subs)) && Concat(BytesOf(w.subs)) == p && AllOf(w.subs, tid.(sub := 13))
    decreases |p|
  {
    if p != [] {
      var size := if p[0] / 64 % 2 == 0 then 2 else 5;
      LocationFits(p, done, tid, rc);
      WalkedLocations(p[size..], done + 1, tid, Ok);
      var w := WalkLoc(p[size..], done + 1, tid, Ok);
      BytesCons(SubC(tid.(sub := 13), p[..size]), w.subs);
      Rejoin(p, size);
    }
  }

  lemma {:induction false} LocationFits(p: seq<Byte>, done: nat, tid: Tid, rc: Rcode)
    requires done + |p| < UNTIL_END && p != [] && WalkLoc(p, done, tid, rc).rc == Ok
    ensures var size := if p[0] / 64 % 2 == 0 then 2 else 5;
            && size <= |p| && WalkLoc(p[size..], done + 1, tid, Ok).rc == Ok
            && var w := WalkLoc(p[size..], done + 1, tid, Ok);
               WalkLoc(p, done, tid, rc) == w.(subs := [SubC(tid.(sub := 13), p[..size])] + w.subs)
  {
    assert p[|p|..] == [];
    WalkNothing(SLOCD, done + 1, tid, FaultMsg);
  }

  lemma {:induction false} WalkNothing(k: Kind, done: nat, tid: Tid, rc: Rcode)
    requires done < UNTIL_END
    ensures Walk([SubDsc(k, UNTIL_END)], 0, done, [], tid, rc) == Walked([], [], rc)
  {
  }

  lemma {:induction false} LocationsWalk(ds: seq<seq<Byte>>, p: seq<Byte>, done: nat, tid: Tid, rc: Rcode)
    requires Locations(ds) && Concat(ds) == p && done + |p| < UNTIL_END && IsOk(rc)
    ensures var w := WalkLoc(p, done, tid, rc);
            w.rest == [] && IsOk(w.rc) && (ds != [] ==> w.rc == Ok) && BytesOf(w.subs) == ds
    decreases |ds|
  {
    if ds != [] {
      var d := ds[0];
      assert Location(d);
      CutFirst(p, d, Concat(ds[1..]));
      LocationsWalk(ds[1..], p[|d|..], done + 1, tid, Ok);
      LocationTaken(d, p, done, tid, rc);
      BytesCons(SubC(tid.(sub := 13), d), WalkLoc(p[|d|..], done + 1, tid, Ok).subs);
      assert [d] + ds[1..] == ds;
    }
  }

  lemma {:induction false} LocationTaken(d: seq<Byte>, p: seq<Byte>, done: nat, tid: Tid, rc: Rcode)
    requires Location(d) && |d| <= |p| && p[..|d|] == d && p[0] == d[0] && done + |p| < UNTIL_END
    ensures var w := WalkLoc(p[|d|..], done + 1, tid, Ok);
            WalkLoc(p, done, tid, rc) == w.(subs := [SubC(tid.(sub := 13), d)] + w.subs)
  {
  }

  /** A speaker location block (20) is accepted with the sub-groups ds exactly when they are locations and
      make up all of it behind the tags. */
  lemma {:induction false} LocationBlock(b: seq<Byte>, ds: seq<seq<Byte>>)
    requires ExtTagged(b, 20)
    ensures WholeBlock(b)
    ensures StrictInit(b).Some? && BytesOf(StrictInit(b).value.subs) == ds
       <==> ds != [] && Locations(ds) && Concat(ds) == b[2..]
    ensures StrictInit(b).Some? ==>
      var c := StrictInit(b).value;
      Holds(c, Tid(0, 0, 13, 0, false, false), 2, b) && AllOf(c.subs, Tid(0, 0, 13, 13, false, false))
  {
    WholeIs(b);
    ExtShapes();
    RootCase(b, SLDB);
    RootAccepted(b, SLDB);
    LocationsCut(b[2..], SLDB.tid, ds);
  }

  lemma {:induction false} LocationsCut(p: seq<Byte>, tid: Tid, ds: seq<seq<Byte>>)
    requires |p| < 32
    ensures var w := WalkLoc(p, 0, tid, Ok);
            && (IsOk(w.rc) && |p| >= 2 && BytesOf(w.subs) == ds <==> ds != [] && Locations(ds) && Concat(ds) == p)
            && (IsOk(w.rc) ==> w.rest == [] && AllOf(w.subs, tid.(sub := 13)))
  {
    var w := WalkLoc(p, 0, tid, Ok);
    LocCode(p, 0, tid, Ok);
    if IsOk(w.rc) { WalkedLocations(p, 0, tid, Ok); }
    if ds != [] && Locations(ds) && Concat(ds) == p {
      assert Location(ds[0]) && p == ds[0] + Concat(ds[1..]);
      LocationsWalk(ds, p, 0, tid, Ok);
    }
  }

  lemma {:induction false} LocCode(p: seq<Byte>, done: nat, tid: Tid, rc: Rcode)
    requires rc != True && done + |p| < UNTIL_END
    ensures WalkLoc(p, done, tid, rc).rc != True
    decreases |p|
  {
    if |p| >= 2 {
      var init := InitSub(SLOCD, p);
      LocCode(p[init.size..], done + 1, tid, init.rc);
    }
  }

  // ---------------------------------------------------------------- dynamic metadata

  /** Metadata before the last of a block: the declared length, at least 2, and one byte for it, cut to
      29 bytes; whether the length suits the type is not looked at. */
  predicate Inner(d: seq<Byte>) {
    && |d| >= 3
    && |d| == var n: nat := if d[0] < 2 then 3 else d[0] as int + 1; if n <= 29 then n else 29
  }

  /** The last: the declared length fits the type (2 for type 3, else at least 4), and the block may end
      before it is complete. */
  predicate Final(d: seq<Byte>) {
    3 <= |d| <= 29 && |d| - 1 <= d[0] && if d[1] == 3 && d[2] == 0 then d[0] == 2 else d[0] >= 4
  }

  predicate Metadata(ds: seq<seq<Byte>>) {
    && ds != [] && Final(ds[|ds| - 1])
    && forall i {:trigger ds[i]} :: 0 <= i < |ds| - 1 ==> Inner(ds[i])
  }

  lemma {:induction false} MetadataCons(d: seq<Byte>, ds: seq<seq<Byte>>)
    requires ds != []
    ensures Metadata([d] + ds) <==> Inner(d) && Metadata(ds)
  {
    var all := [d] + ds;
    assert all[|all| - 1] == ds[|ds| - 1];
    if Metadata(all) {
      assert all[0] == d;
      forall i {:trigger ds[i]} | 0 <= i < |ds| - 1 ensures Inner(ds[i]) { assert all[i + 1] == ds[i]; }
    }
    if Inner(d) && Metadata(ds) {
      forall i {:trigger all[i]} | 0 <= i < |all| - 1 ensures Inner(all[i]) {
        if i > 0 { assert all[i] == ds[i - 1]; }
      }
    }
  }

  function WalkMtd(p: seq<Byte>, done: nat, tid: Tid, rc: Rcode): Walked {
    Walk([SubDsc(MTD, UNTIL_END)], 0, done, p, tid, rc)
  }

  lemma {:induction false} MtdStep(p: seq<Byte>, done: nat, tid: Tid, rc: Rcode)
    requires done + |p| < UNTIL_END && |p| >= 3
    ensures var i := InitMtd(p);
            && 3 <= i.size <= |p| && (i.size < |p| ==> Inner(p[..i.size]))
            && (i.size == |p| ==> (i.rc == Ok <==> Final(p))) && (i.rc == Ok || i.rc == FaultMsg)
            && var w := WalkMtd(p[i.size..], done + 1, tid, i.rc);
               WalkMtd(p, done, tid, rc) == w.(subs := [SubC(tid.(sub := 8), p[..i.size])] + w.subs)
  {
    var size := InitMtd(p).size;
    assert p[..size][0] == p[0];
  }

  /** A walk without fault cuts the payload into metadata. */
  lemma {:induction false} WalkedMetadata(p: seq<Byte>, done: nat, tid: Tid, rc: Rcode)
    requires done + |p| < UNTIL_END && |p| <= 30 && p != [] && WalkMtd(p, done, tid, rc).rc == Ok
    ensures var w := WalkMtd(p, done, tid, rc);
            w.rest == [] && Metadata(BytesOf(w.subs)) && Concat(BytesOf(w.subs)) == p && AllOf(w.subs, tid.(sub := 8))
    decreases |p|
  {
    if |p| >= 3 {
      MtdStep(p, done, tid, rc);
      var (n, rc2) := (InitMtd(p).size, InitMtd(p).rc);
      var w := WalkMtd(p[n..], done + 1, tid, rc2);
      if n < |p| {
        WalkedMetadata(p[n..], done + 1, tid, rc2);
        InnerMetadata(p, n, w.subs, tid.(sub := 8));
      } else {
        WalkNothing(MTD, done + 1, tid, rc2);
        LastMetadata(p, tid.(sub := 8));
      }
    }
  }

  lemma {:induction false} InnerMetadata(p: seq<Byte>, n: nat, subs: seq<SubC>, tid: Tid)
    requires n <= |p| && Inner(p[..n]) && Metadata(BytesOf(subs)) && Concat(BytesOf(subs)) == p[n..] && AllOf(subs, tid)
    ensures var all := [SubC(tid, p[..n])] + subs;
            Metadata(BytesOf(all)) && Concat(BytesOf(all)) == p && AllOf(all, tid)
  {
    BytesCons(SubC(tid, p[..n]), subs);
    MetadataCons(p[..n], BytesOf(subs));
    Rejoin(p, n);
  }

  lemma {:induction false} LastMetadata(p: seq<Byte>, tid: Tid)
    requires Final(p)
    ensures var all := [SubC(tid, p[..|p|])] + [];
            Metadata(BytesOf(all)) && Concat(BytesOf(all)) == p && AllOf(all, tid)
  {
    assert p[..|p|] == p && BytesOf([SubC(tid, p)] + []) == [p];
    ConcatOne(p);
  }

  lemma {:induction false} MetadataWalk(ds: seq<seq<Byte>>, p: seq<Byte>, done: nat, tid: Tid, rc: Rcode)
    requires Metadata(ds) && Concat(ds) == p && done + |p| < UNTIL_END
    ensures var w := WalkMtd(p, done, tid, rc);
            w.rest == [] && w.rc == Ok && BytesOf(w.subs) == ds
    decreases |ds|
  {
    var d := ds[0];
    CutFirst(p, d, Concat(ds[1..]));
    MtdStep(p, done, tid, rc);
    if |ds| == 1 {
      assert Concat(ds[1..]) == [] && p == d && p[..|p|] == p;
      WalkNothing(MTD, done + 1, tid, Ok);
      assert BytesOf([SubC(tid.(sub := 8), d)]) == ds;
    } else {
      assert [d] + ds[1..] == ds;
      MetadataCons(d, ds[1..]);
      InnerSize(p, d, ds[1..]);
      var rc2 := InitMtd(p).rc;
      MetadataWalk(ds[1..], p[|d|..], done + 1, tid, rc2);
      BytesCons(SubC(tid.(sub := 8), d), WalkMtd(p[|d|..], done + 1, tid, rc2).subs);
    }
  }

  lemma {:induction false} InnerSize(p: seq<Byte>, d: seq<Byte>, rest: seq<seq<Byte>>)
    requires Inner(d) && Metadata(rest) && p == d + Concat(rest)
    ensures |p| >= 3 && InitMtd(p).size == |d|
  {
    assert p[0] == d[0];
  }

  /** A dynamic metadata block (7) has at least six bytes, and is accepted with the sub-groups ds exactly
      when they are metadata and make up all of it behind the tags. */
  lemma {:induction false} MetadataBlock(b: seq<Byte>, ds: seq<seq<Byte>>)
    requires ExtTagged(b, 7)
    ensures WholeBlock(b)
    ensures StrictInit(b).Some? && BytesOf(StrictInit(b).value.subs) == ds
       <==> |b| >= 6 && Metadata(ds) && Concat(ds) == b[2..]
    ensures StrictInit(b).Some? ==>
      var c := StrictInit(b).value;
      Holds(c, Tid(0, 0, 8, 0, false, false), 2, b) && AllOf(c.subs, Tid(0, 0, 8, 8, false, false))
  {
    WholeIs(b);
    ExtShapes();
    RootCase(b, HDRD);
    RootAccepted(b, HDRD);
    if |b| >= 6 { MetadataCut(b[2..], HDRD.tid, ds); }
  }

  lemma {:induction false} MetadataCut(p: seq<Byte>, tid: Tid, ds: seq<seq<Byte>>)
    requires 1 <= |p| <= 30
    ensures var w := WalkMtd(p, 0, tid, Ok);
            && (IsOk(w.rc) && BytesOf(w.subs) == ds <==> Metadata(ds) && Concat(ds) == p)
            && (IsOk(w.rc) ==> w.rest == [] && AllOf(w.subs, tid.(sub := 8)))
  {
    MtdCode(p, 0, tid, Ok);
    if IsOk(WalkMtd(p, 0, tid, Ok).rc) { WalkedMetadata(p, 0, tid, Ok); }
    if Metadata(ds) && Concat(ds) == p { MetadataWalk(ds, p, 0, tid, Ok); }
  }

  lemma {:induction false} MtdCode(p: seq<Byte>, done: nat, tid: Tid, rc: Rcode)
    requires rc != True && done + |p| < UNTIL_END
    ensures WalkMtd(p, done, tid, rc).rc != True
    decreases |p|
  {
    if |p| >= 3 {
      MtdStep(p, done, tid, rc);
      MtdCode(p[InitMtd(p).size..], done + 1, tid, InitMtd(p).rc);
    }
  }

  // ---------------------------------------------------------------- ignoring errors

  /** How many three-byte descriptors with a format code the payload begins with. */
  function Leading(p: seq<Byte>): (n: nat)
    ensures 3 * n <= |p|
  {
    if |p| >= 3 && p[0] / 8 % 16 != 0 then 1 + Leading(p[3..]) else 0
  }

  lemma {:induction false} LeadingWalk(p: seq<Byte>, done: nat, tid: Tid, rc: Rcode)
    requires done + |p| < UNTIL_END
    ensures var (n, w) := (Leading(p), Walk([SubDsc(SAD, UNTIL_END)], 0, done, p, tid, rc));
            Sliced(w.subs, tid.(sub := 1), p[..3 * n], 3) && w.rest == p[3 * n..]
    decreases |p|
  {
    if |p| >= 3 && p[0] / 8 % 16 != 0 {
      var n := Leading(p[3..]);
      LeadingWalk(p[3..], done + 1, tid, Ok);
      var w := Walk([SubDsc(SAD, UNTIL_END)], 0, done + 1, p[3..], tid, Ok);
      var q := p[..3 * n + 3];
      assert q[3..] == p[3..][..3 * n] && q[..3] == p[..3];
      SlicedCons(w.subs, tid.(sub := 1), q, 3);
      assert p[3..][3 * n..] == p[3 * n + 3..];
    } else {
      assert p[..0] == [];
    }
  }

  /** With errors ignored an audio block keeps all 32 bytes read and the descriptors it begins with; the rest
      of its payload, if there is any, becomes one part of unknown data. */
  lemma {:induction false} IgnoringAudio(inst: seq<Byte>)
    requires |inst| >= 32 && inst[0] / 32 == 1
    ensures Readable(inst, true) && InitRoot(inst, ADB, true).Init?
    ensures var (c, p) := (InitRoot(inst, ADB, true).c, inst[1..inst[0] % 32 + 1]);
            var n := Leading(p);
            && c.tid == Tid(0, 2, 0, 0, false, false) && c.inst == inst[..32] && c.hdrSz == 1
            && |c.subs| == n + (if 3 * n < |p| then 1 else 0)
            && Sliced(c.subs[..n], Tid(0, 2, 0, 1, false, false), p[..3 * n], 3)
            && (3 * n < |p| ==> c.subs[n] == SubC(Tid(0, 2, 0, 255, false, false), p[3 * n..]))
  {
    var p := inst[1..inst[0] % 32 + 1];
    LeadingWalk(p, 0, ADB.tid, StartCode(inst, ADB));
    var w := Walk(ADB.subs, 0, 0, p, ADB.tid, StartCode(inst, ADB));
    assert inst[..32] + Zeros(0) == inst[..32];
    assert |w.subs| == Leading(p);
    assert WithUnknown(w.subs, w.rest, ADB.tid)[..|w.subs|] == w.subs;
  }
}
