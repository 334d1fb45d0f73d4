/** Which class a data block gets from its tag codes (EDID_cl::ParseDBC_TAG), the descriptors of
    those classes, and what strict parsing of one block yields. */
module DataBlocks {
  import opened Bytes
  import opened GroupTree
  import opened GroupContent
  import opened BlockSplit
  import opened FlatSplit
  import opened InfoFrames

  // ---------------------------------------------------------------- descriptors

  function Plain(cea: nat): Tid { Tid(0, cea, 0, 0, false, false) }
  function Ext(ext: nat): Tid { Tid(0, 0, ext, 0, false, false) }

  const ADB := RootDsc(Plain(2), 3, 31, 1, [SubDsc(SAD, UNTIL_END)])
  const VDB := RootDsc(Plain(3), 1, 31, 1, [SubDsc(SVD, UNTIL_END)])
  const HDRD := RootDsc(Ext(8), 5, 31, 2, [SubDsc(MTD, UNTIL_END)])
  const VFPD := RootDsc(Ext(9), 2, 31, 2, [SubDsc(SVR, UNTIL_END)])
  const Y42V := RootDsc(Ext(10), 2, 31, 2, [SubDsc(SVD, UNTIL_END)])
  const RMCD := RootDsc(Ext(12), 11, 11, 2, [SubDsc(DHDR, 1), SubDsc(SPM, 1), SubDsc(SPKD, 1), SubDsc(DSPC, 1)])
  const SLDB := RootDsc(Ext(13), 3, 31, 2, [SubDsc(SLOCD, UNTIL_END)])

  function Fixed1(fcount: nat, datSz: nat): FldGrp { FldGrp(false, false, fcount, datSz, 1, []) }
  function Flex(flexLen: bool, datSz: nat, sizes: seq<nat>): FldGrp { FldGrp(true, flexLen, |sizes|, datSz, 1, sizes) }

  const VSD := FlatDsc(Plain(4), true, 3, 31, 1, 2,
    [Flex(false, 5, [3, 2]), Fixed1(8, 1), Fixed1(1, 1), Fixed1(3, 1), Flex(true, 4, [1, 1, 1, 1])])
  const SAB := FlatDsc(Plain(5), false, 3, 3, 1, 2, [Fixed1(24, 3)])
  const VDTC := FlatDsc(Plain(6), false, 1, 1, 1, 2, [Fixed1(1, 1)])
  const VCDB := FlatDsc(Ext(1), false, 2, 2, 2, 3, [Fixed1(5, 1)])
  const VSVD := FlatDsc(Ext(2), false, 4, 31, 2, 3, [Fixed1(1, 3)])
  const VSAD := FlatDsc(Ext(3), false, 4, 31, 2, 3, [Fixed1(1, 3)])
  const CLDB := FlatDsc(Ext(6), false, 3, 3, 2, 3, [Fixed1(11, 2)])
  const HDRS := FlatDsc(Ext(7), false, 3, 6, 2, 3, [Fixed1(9, 2), Flex(true, 3, [1, 1, 1])])

  const VDDD := Ext(4)
  const Y42C := Ext(11)

  /** The class of a block.  The tag codes 0 and 6, the extended ones without a class and the one
      for a VESA timing extension are faults in strict mode. */
  datatype Class = Root(r: RootDsc) | Flat(f: FlatDsc) | Vddd | Y42c | Ifdb | NoClass

  function ClassOf(tag: nat, etag: nat): Class {
    match tag
    case 1 => Root(ADB) case 2 => Root(VDB) case 3 => Flat(VSD) case 4 => Flat(SAB) case 5 => Flat(VDTC)
    case 7 => ExtClass(etag)
    case _ => NoClass
  }

  function ExtClass(etag: nat): Class {
    match etag
    case 0 => Flat(VCDB) case 1 => Flat(VSVD) case 2 => Vddd case 5 => Flat(CLDB) case 6 => Flat(HDRS)
    case 7 => Root(HDRD) case 13 => Root(VFPD) case 14 => Root(Y42V) case 15 => Y42c case 17 => Flat(VSAD)
    case 19 => Root(RMCD) case 20 => Root(SLDB) case 32 => Ifdb
    case _ => NoClass
  }

  predicate RootShape(d: RootDsc) {
    DbcType(d.tid) && d.hdrSz == 32 - Cap(d.tid) && d.minLen >= 1 && d.minLen + 1 >= d.hdrSz
  }

  predicate FlatShape(d: FlatDsc) {
    DbcType(d.tid) && d.hdrSz == 32 - Cap(d.tid) && d.minLen >= 1
  }

  predicate Shaped(c: Class) {
    match c case Root(d) => RootShape(d) case Flat(d) => FlatShape(d) case _ => true
  }

  lemma {:induction false} Shapes()
    ensures RootShape(ADB) && RootShape(VDB) && FlatShape(VSD) && FlatShape(SAB) && FlatShape(VDTC)
  {
  }

  lemma {:induction false} ExtShapes()
    ensures FlatShape(VCDB) && FlatShape(VSVD) && FlatShape(CLDB) && FlatShape(HDRS) && FlatShape(VSAD)
    ensures RootShape(HDRD) && RootShape(VFPD) && RootShape(Y42V) && RootShape(RMCD) && RootShape(SLDB)
  {
  }

  lemma {:induction false} ClassShape(tag: nat, etag: nat)
    ensures Shaped(ClassOf(tag, etag))
  {
    if tag == 7 { ExtShapes(); } else { Shapes(); }
  }

  /** The type id of the groups of a class. */
  function ClassTid(c: Class): Tid
    requires c != NoClass
  {
    match c case Root(d) => d.tid case Flat(d) => d.tid case Vddd => VDDD case Y42c => Y42C case Ifdb => IFDB
  }

  lemma {:induction false} ExtTid(etag: nat)
    requires ExtClass(etag) != NoClass
    ensures ClassTid(ExtClass(etag)).cea == 0
  {
  }

  // ---------------------------------------------------------------- strict parsing of a block

  /** A block by itself: as long as its header byte says. */
  predicate WholeBlock(b: seq<Byte>) {
    b != [] && |b| == 1 + BlkLen(b[0])
  }

  function FlatContent(tid: Tid, b: seq<Byte>): GrpC
    requires |b| <= 32
  {
    GrpC(tid, Local(b, |b|), 0, |b|, [], 0)
  }

  /** The five sub-groups of a VDDD share its data: they hold no bytes of their own. */
  function VdddSubs(): seq<SubC> {
    seq(5, k requires 0 <= k < 5 => SubC(VDDD.(sub := 3 + k, dbcFixed := true), []))
  }

  function Accepted(i: Init): Option<GrpC> {
    if i.Init? && IsOk(i.rc) then Some(i.c) else None
  }

  /** The contents of a block strict mode accepts. */
  function StrictInit(b: seq<Byte>): Option<GrpC>
    requires WholeBlock(b)
  {
    if TagCode(b[0]) == 7 && |b| < 2 then None
    else
      var etag := if |b| > 1 then b[1] else 0;
      ClassShape(TagCode(b[0]), etag);
      match ClassOf(TagCode(b[0]), etag)
      case Root(d) => Accepted(InitRoot(b, d, false))
      case Flat(d) =>
        var r := InitFlat(|b| - 1, d, false);
        if r.FlatInit? && IsOk(r.rc) then Some(FlatContent(d.tid, b)) else None
      case Vddd => if |b| == 32 then Some(FlatContent(VDDD, b).(subs := VdddSubs())) else None
      case Y42c => if |b| >= 3 then Some(FlatContent(Y42C, b)) else None
      case Ifdb => Accepted(InitIfdb(b, false))
      case NoClass => None
  }

  /** The bytes a group contributes to the assembled block. */
  function GrpData(c: GrpC): (d: seq<Byte>)
    requires IsHdr(c) || IsBlock(c)
    ensures |d| == Width(c)
  {
    c.inst[..if c.hdrSz == 0 then c.flat else c.hdrSz] + AllSubData(c.subs)
  }

  lemma {:induction false} EmptySubs(n: nat)
    requires n <= 5
    ensures SubData(VdddSubs(), n) == []
  {
    if n > 0 { EmptySubs(n - 1); }
  }

  /** An accepted block becomes a data block that holds exactly its bytes. */
  lemma {:induction false} StrictKeepsBytes(b: seq<Byte>)
    requires WholeBlock(b) && StrictInit(b).Some?
    ensures var c := StrictInit(b).value;
            IsDbc(c) && c.lag == 0 && GrpData(c) == b && Width(c) == |b|
  {
    var c := StrictInit(b).value;
    ClassShape(TagCode(b[0]), if |b| > 1 then b[1] else 0);
    match ClassOf(TagCode(b[0]), if |b| > 1 then b[1] else 0)
    case Root(d) =>
      RootConserves(b, d, false);
      assert b[..BlkLen(b[0]) + 1] == b;
    case Flat(d) => assert c.inst[..|b|] + [] == b;
    case Vddd => EmptySubs(5); assert c.inst[..32] + [] == b;
    case Y42c => assert c.inst[..|b|] + [] == b;
    case Ifdb =>
      IfdbConserves(b, false);
      assert b[..BlkLen(b[0]) + 1] == b;
    case NoClass =>
  }

  // ---------------------------------------------------------------- the init methods by class

  lemma {:induction false} FlatRenders(tid: Tid, b: seq<Byte>, at: nat)
    requires 1 <= |b| <= 32
    ensures RenderGrp(FlatContent(tid, b), at, 0)
         == Grp(tid, Local(b, |b|), 0, |b|, BLOCK_SIZE + at, at, 0, [], 0, Cap(tid))
  {
    assert RenderSubs(FlatContent(tid, b), BLOCK_SIZE + at) == [];
  }

  /** cea_vddd_cl::init with its five parts, all at the offset of the block. */
  method InitVddd(b: seq<Byte>, at: nat) returns (g: Grp)
    requires |b| == 32
    ensures g == RenderGrp(FlatContent(VDDD, b).(subs := VdddSubs()), at, 0)
  {
    var abs, subs := BLOCK_SIZE + at, [];
    ghost var c := FlatContent(VDDD, b).(subs := VdddSubs());
    for k := 0 to 5
      invariant subs == RenderSubs(c, abs)[..k]
    {
      EmptySubs(k);
      subs := subs + [Sub(VDDD.(sub := 3 + k, dbcFixed := true), [], abs, 0, k)];
    }
    EmptySubs(5);
    return Grp(VDDD, Local(b, 32), 0, 32, abs, at, 0, subs, 0, Cap(VDDD));
  }

  /** The group of a block without sub-groups. */
  method FlatBlock(tid: Tid, b: seq<Byte>, at: nat) returns (g: Option<Grp>)
    requires 1 <= |b| <= 32
    ensures g == Some(RenderGrp(FlatContent(tid, b), at, 0))
  {
    FlatRenders(tid, b, at);
    g := Some(Grp(tid, Local(b, |b|), 0, |b|, BLOCK_SIZE + at, at, 0, [], 0, Cap(tid)));
  }

  /** ParseDBC_TAG and init() of the class found, in strict mode, for the block at offset `at`. */
  method InitBlock(b: seq<Byte>, at: nat) returns (g: Option<Grp>)
    requires WholeBlock(b)
    ensures g == match StrictInit(b) case None => None case Some(c) => Some(RenderGrp(c, at, 0))
  {
    if TagCode(b[0]) == 7 && |b| < 2 { return None; }
    var tag, etag := TagCode(b[0]), if |b| > 1 then b[1] else 0;
    ClassShape(tag, etag);
    match ClassOf(tag, etag) {
      case Root(d) =>
        var r := InitRootGrp(b, d, false, at);
        g := if r.Built? && IsOk(r.rc) then Some(r.g) else None;
      case Flat(d) =>
        var r, dynFcnt := InitFlatGrp(|b| - 1, d, false);
        if r.FlatInit? && IsOk(r.rc) { g := FlatBlock(d.tid, b, at); } else { g := None; }
      case Vddd =>
        if |b| != 32 { return None; }
        var v := InitVddd(b, at);
        g := Some(v);
      case Y42c =>
        if |b| < 3 { g := None; } else { g := FlatBlock(Y42C, b, at); }
      case Ifdb =>
        var r := InitIfdbGrp(b, false, at);
        g := if r.Built? && IsOk(r.rc) then Some(r.g) else None;
      case NoClass => g := None;
    }
  }

  // ---------------------------------------------------------------- audio and video blocks

  /** Sub-groups an audio or video block is made of. */
  predicate WellFormedSub(k: Kind, tid: Tid, s: SubC) {
    && |s.bytes| == MinLen(k) && s.tid == SubTid(tid, KindId(k))
    && (k == SAD ==> s.bytes[0] / 8 % 16 != 0)
  }

  predicate WellFormedSubs(k: Kind, tid: Tid, subs: seq<SubC>) {
    forall i {:trigger subs[i]} :: 0 <= i < |subs| ==> WellFormedSub(k, tid, subs[i])
  }

  /** Walking a block of one kind of fixed-size sub-groups to its end yields well-formed ones. */
  lemma {:induction false} WalkWellFormed(k: Kind, tid: Tid, n: nat, rest: seq<Byte>, rc: Rcode)
    requires k == SAD || k == SVD
    requires n + |rest| < UNTIL_END
    requires var w := Walk([SubDsc(k, UNTIL_END)], 0, n, rest, tid, rc);
             IsOk(w.rc)
    ensures var w := Walk([SubDsc(k, UNTIL_END)], 0, n, rest, tid, rc);
            w.rest == [] && WellFormedSubs(k, tid, w.subs)
    decreases |rest|
  {
    if |rest| >= MinLen(k) && InitSub(k, rest).rc != Fault {
      WalkWellFormed(k, tid, n + 1, rest[MinLen(k)..], Ok);
      var w := Walk([SubDsc(k, UNTIL_END)], 0, n + 1, rest[MinLen(k)..], tid, Ok);
      var v := Walk([SubDsc(k, UNTIL_END)], 0, n, rest, tid, rc);
      assert v.subs == [SubC(SubTid(tid, KindId(k)), rest[..MinLen(k)])] + w.subs;
    }
  }

  /** Well-formed sub-groups one after another are cut again at the same places. */
  lemma {:induction false} WellFormedWalks(k: Kind, tid: Tid, n: nat, subs: seq<SubC>, rc: Rcode)
    requires k == SAD || k == SVD
    requires WellFormedSubs(k, tid, subs) && n + |subs| < UNTIL_END && IsOk(rc)
    ensures var w := Walk([SubDsc(k, UNTIL_END)], 0, n, AllSubData(subs), tid, rc);
            IsOk(w.rc) && w.rest == [] && w.subs == subs
    decreases |subs|
  {
    if subs != [] {
      var s, d := subs[0], AllSubData(subs);
      assert WellFormedSub(k, tid, s);
      assert subs == [s] + subs[1..];
      SubDataCons(s, subs[1..]);
      assert d[..|s.bytes|] == s.bytes && d[0] == s.bytes[0] && d[|s.bytes|..] == AllSubData(subs[1..]);
      WellFormedWalks(k, tid, n + 1, subs[1..], Ok);
    }
  }

  /** Audio (1) and video (2) blocks by their sub-group kind. */
  function AvBlock(k: Kind): RootDsc
    requires k == SAD || k == SVD
  {
    if k == SAD then ADB else VDB
  }

  predicate IsAv(k: Kind, tid: Tid) {
    (k == SAD || k == SVD) && tid == AvBlock(k).tid
  }

  /** A block that strict parsing of its own bytes gives back. */
  predicate Reparses(c: GrpC) {
    && IsDbc(c) && var b := GrpData(c);
       WholeBlock(b) && StrictInit(b).Some?
       && var r := StrictInit(b).value; r.tid == c.tid && r.hdrSz == c.hdrSz && r.subs == c.subs
  }

  /** Whatever strict parsing accepts reparses. */
  lemma {:induction false} AcceptedReparses(b: seq<Byte>)
    requires WholeBlock(b) && StrictInit(b).Some?
    ensures Reparses(StrictInit(b).value)
  {
    StrictKeepsBytes(b);
  }

  /** Strict parsing of an audio or video block, spelled out. */
  lemma {:induction false} AvInit(k: Kind, b: seq<Byte>)
    requires (k == SAD || k == SVD) && WholeBlock(b) && TagCode(b[0]) == (if k == SAD then 1 else 2)
    ensures var tid := AvBlock(k).tid;
            var w := Walk([SubDsc(k, UNTIL_END)], 0, 0, b[1..], tid, Ok);
            if |b| - 1 < MinLen(k) || !IsOk(w.rc) then StrictInit(b) == None
            else StrictInit(b) == Some(GrpC(tid, Local(b, |b|), 1, 0, WithUnknown(w.subs, w.rest, tid), 0))
  {
    assert b[1..BlkLen(b[0]) + 1] == b[1..];
  }

  /** An audio or video block reparses exactly when it has sub-groups, all well-formed, and its header
      byte holds their tag code and length. */
  lemma {:induction false} AvReparses(k: Kind, c: GrpC)
    requires IsAv(k, c.tid) && IsDbc(c) && c.hdrSz == 1
    ensures Reparses(c) <==>
      c.subs != [] && WellFormedSubs(k, c.tid, c.subs)
      && TagCode(c.inst[0]) == (if k == SAD then 1 else 2) && BlkLen(c.inst[0]) == Payload(c)
  {
    var b, d := GrpData(c), AvBlock(k);
    assert b[0] == c.inst[0] && b[1..] == AllSubData(c.subs);
    if Reparses(c) {
      AvAccepted(k, c);
    }
    if c.subs != [] && WellFormedSubs(k, c.tid, c.subs)
       && TagCode(c.inst[0]) == (if k == SAD then 1 else 2) && BlkLen(c.inst[0]) == Payload(c) {
      SubCount(k, c.tid, c.subs, |c.subs|);
      WellFormedWalks(k, c.tid, 0, c.subs, Ok);
      assert WellFormedSub(k, c.tid, c.subs[0]);
      AvInit(k, b);
    }
  }

  lemma {:induction false} SubCount(k: Kind, tid: Tid, subs: seq<SubC>, n: nat)
    requires WellFormedSubs(k, tid, subs) && n <= |subs|
    ensures SubStart(subs, n) == MinLen(k) * n
  {
    if n > 0 {
      SubCount(k, tid, subs, n - 1);
      assert WellFormedSub(k, tid, subs[n - 1]);
    }
  }

  lemma {:induction false} AvAccepted(k: Kind, c: GrpC)
    requires IsAv(k, c.tid) && IsDbc(c) && c.hdrSz == 1 && Reparses(c)
    ensures c.subs != [] && WellFormedSubs(k, c.tid, c.subs)
    ensures TagCode(c.inst[0]) == (if k == SAD then 1 else 2) && BlkLen(c.inst[0]) == Payload(c)
  {
    var b, d := GrpData(c), AvBlock(k);
    AcceptedTid(b);
    ClassByTid(TagCode(b[0]), if |b| > 1 then b[1] else 0, k);
    AvInit(k, b);
    WalkWellFormed(k, d.tid, 0, b[1..], Ok);
  }

  /** Only tag codes 1 and 2 give audio and video blocks. */
  lemma {:induction false} ClassByTid(tag: nat, etag: nat, k: Kind)
    requires (k == SAD || k == SVD) && ClassOf(tag, etag) != NoClass && ClassTid(ClassOf(tag, etag)) == AvBlock(k).tid
    ensures tag == (if k == SAD then 1 else 2) && ClassOf(tag, etag) == Root(AvBlock(k))
  {
    if tag == 7 { ExtTid(etag); }
  }

  /** The type id of an accepted block is that of its class. */
  lemma {:induction false} AcceptedTid(b: seq<Byte>)
    requires WholeBlock(b) && StrictInit(b).Some?
    ensures var c := ClassOf(TagCode(b[0]), if |b| > 1 then b[1] else 0);
            c != NoClass && StrictInit(b).value.tid == ClassTid(c)
  {
  }
}
