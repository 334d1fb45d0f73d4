/** Cutting a data block into sub-groups (src/CEA_class.cpp, src/CEA_EXT_class.cpp). */
module BlockSplit {
  import opened Bytes
  import opened GroupTree
  import opened GroupContent

  /** rcode; a plain fault makes the caller drop the group, a fault with a message keeps it. */
  datatype Rcode = Ok | True | Fault | FaultMsg

  predicate IsOk(rc: Rcode) { rc == Ok || rc == True }

  // ---------------------------------------------------------------- sub-groups of a block

  /** The sub-groups of a block one after another. */
  function SubData(subs: seq<SubC>, n: nat): (d: seq<Byte>)
    requires n <= |subs|
    ensures |d| == SubStart(subs, n)
  {
    if n == 0 then [] else SubData(subs, n - 1) + subs[n - 1].bytes
  }

  function AllSubData(subs: seq<SubC>): seq<Byte> { SubData(subs, |subs|) }

  lemma {:induction false} SubDataPrefix(a: seq<SubC>, b: seq<SubC>, n: nat)
    requires n <= |a|
    ensures SubData(a + b, n) == SubData(a, n)
  {
    if n > 0 { SubDataPrefix(a, b, n - 1); }
  }

  lemma {:induction false} SubDataSnoc(subs: seq<SubC>, s: SubC)
    ensures AllSubData(subs + [s]) == AllSubData(subs) + s.bytes
  {
    SubDataPrefix(subs, [s], |subs|);
  }

  lemma {:induction false} SubDataCons(s: SubC, subs: seq<SubC>)
    ensures AllSubData([s] + subs) == s.bytes + AllSubData(subs)
  {
    if subs == [] {
      SubDataSnoc([], s);
      assert [s] + [] == [] + [s];
      assert [] + s.bytes == s.bytes + [];
    } else {
      var init, last := subs[..|subs| - 1], subs[|subs| - 1];
      SubDataCons(s, init);
      SubDataSnoc(init, last);
      SubDataSnoc([s] + init, last);
      Regroup(s, init, last, subs);
      Glue(s.bytes, AllSubData(init), last.bytes);
    }
  }

  lemma {:induction false} Regroup(s: SubC, init: seq<SubC>, last: SubC, subs: seq<SubC>)
    requires subs != [] && init == subs[..|subs| - 1] && last == subs[|subs| - 1]
    ensures subs == init + [last] && ([s] + init) + [last] == [s] + subs
  {
  }

  /** The sub-group classes a root descriptor can name. */
  datatype Kind = SAD | SVD | SVR | MTD | DHDR | SPM | SPKD | DSPC | SLOCD

  /** min_len of the sub-group descriptor. */
  function MinLen(k: Kind): (n: nat)
    ensures n >= 1
  {
    match k
    case SAD | MTD | SPM | SPKD | DSPC => 3
    case SVD | SVR | DHDR => 1
    case SLOCD => 2
  }

  function KindId(k: Kind): nat {
    match k
    case SAD => 1 case SVD => 2 case MTD | SVR => 8
    case DHDR => 9 case SPM => 10 case SPKD => 11 case DSPC => 12 case SLOCD => 13
  }

  const UDAT := 0xFF

  /** init() of a sub-group over the rest of its block: its return code and, unless dropped, its size. */
  datatype SubInit = SubInit(rc: Rcode, size: nat)

  /** HDRD metadata: the declared length, at least 2, cut to the block and to 29 bytes. */
  function InitMtd(rest: seq<Byte>): SubInit
    requires |rest| >= 3
  {
    var len: nat, kind3 := rest[0], rest[1] == 3 && rest[2] == 0;
    var want: nat := if len < 2 then 3 else len + 1;
    var size := if want <= |rest| then want else |rest|;
    var size := if size <= 29 then size else 29;
    var bad := (if kind3 then len != 2 else len < 4) || (size > 3 && kind3);
    SubInit(if bad then FaultMsg else Ok, size)
  }

  /** SLDB speaker location: 2 bytes, or 5 with coordinates; fewer are kept with a message. */
  function InitSlocd(rest: seq<Byte>): SubInit
    requires |rest| >= 2
  {
    if rest[0] / 64 % 2 == 0 then SubInit(Ok, 2)
    else if |rest| < 5 then SubInit(FaultMsg, |rest|)
    else SubInit(Ok, 5)
  }

  /** The layout table of a SAD refuses audio format code 0 only: its tests for the extension codes
      assign, so any code passes. */
  function InitSub(k: Kind, rest: seq<Byte>): (r: SubInit)
    requires |rest| >= MinLen(k)
    ensures 1 <= r.size <= |rest| && r.rc != True
    ensures k in {SVD, SVR, DHDR} ==> r == SubInit(Ok, 1)
    ensures k in {SPM, SPKD, DSPC} ==> r == SubInit(Ok, 3)
    ensures k == SAD ==> r.size == 3 && (r.rc == Ok <==> rest[0] / 8 % 16 != 0)
    ensures k == SLOCD && r.rc == Ok ==> r.size == if rest[0] / 64 % 2 == 0 then 2 else 5
    ensures k == MTD && 2 <= rest[0] < |rest| && rest[0] <= 28 ==> r.size == rest[0] + 1
  {
    match k
    case SAD => SubInit(if rest[0] / 8 % 16 == 0 then Fault else Ok, 3)
    case MTD => InitMtd(rest)
    case SLOCD => InitSlocd(rest)
    case _ => SubInit(Ok, MinLen(k))
  }

  // ---------------------------------------------------------------- blocks with sub-groups

  /** A sub-group descriptor: its class and how often it may occur, -1 cast to 32 bits meaning to
      the end of the data. */
  datatype SubDsc = SubDsc(kind: Kind, cnt: nat)

  const UNTIL_END := 0xFFFF_FFFF

  datatype RootDsc = RootDsc(tid: Tid, minLen: nat, maxLen: nat, hdrSz: nat, subs: seq<SubDsc>)

  datatype Walked = Walked(subs: seq<SubC>, rest: seq<Byte>, rc: Rcode)

  function SubTid(parent: Tid, id: nat): Tid { parent.(sub := id) }

  /** The sub-groups from descriptor d (already k instances of it) on, up to the payload step. */
  function Walk(ds: seq<SubDsc>, d: nat, k: nat, rest: seq<Byte>, tid: Tid, rc: Rcode): Walked
    requires d <= |ds|
    decreases |ds| - d, |rest|, if d < |ds| && ds[d].cnt > k then ds[d].cnt - k else 0
  {
    if d == |ds| then Walked([], rest, rc)
    else if k >= ds[d].cnt then Walk(ds, d + 1, 0, rest, tid, rc)
    else if |rest| < MinLen(ds[d].kind) then Walked([], rest, if |rest| > 0 then FaultMsg else rc)
    else
      var init := InitSub(ds[d].kind, rest);
      if init.rc == Fault then Walked([], rest, FaultMsg)
      else
        var w := Walk(ds, d, k + 1, rest[init.size..], tid, init.rc);
        w.(subs := [SubC(SubTid(tid, KindId(ds[d].kind)), rest[..init.size])] + w.subs)
  }

  /** A sub-group in front of what conserves the rest of the bytes. */
  lemma {:induction false} PrependConserves(rest: seq<Byte>, s: SubC, w: Walked)
    requires |s.bytes| <= |rest| && s.bytes == rest[..|s.bytes|]
    requires AllSubData(w.subs) + w.rest == rest[|s.bytes|..]
    ensures AllSubData([s] + w.subs) + w.rest == rest
  {
    SubDataCons(s, w.subs);
    Glue(s.bytes, AllSubData(w.subs), w.rest);
  }

  /** No byte is lost or duplicated on the way, whatever faults occur. */
  lemma {:induction false} WalkConserves(ds: seq<SubDsc>, d: nat, k: nat, rest: seq<Byte>, tid: Tid, rc: Rcode)
    requires d <= |ds|
    ensures var w := Walk(ds, d, k, rest, tid, rc);
            AllSubData(w.subs) + w.rest == rest
    decreases |ds| - d, |rest|, if d < |ds| && ds[d].cnt > k then ds[d].cnt - k else 0
  {
    if d == |ds| {
    } else if k >= ds[d].cnt {
      WalkConserves(ds, d + 1, 0, rest, tid, rc);
    } else if |rest| >= MinLen(ds[d].kind) {
      var init := InitSub(ds[d].kind, rest);
      if init.rc != Fault {
        WalkConserves(ds, d, k + 1, rest[init.size..], tid, init.rc);
        var w := Walk(ds, d, k + 1, rest[init.size..], tid, init.rc);
        PrependConserves(rest, SubC(SubTid(tid, KindId(ds[d].kind)), rest[..init.size]), w);
      }
    }
  }

  datatype Init = Rejected | Init(rc: Rcode, c: GrpC)

  /** inst_data after the copy, its tail still cleared. */
  function Local(inst: seq<Byte>, n: nat): (d: seq<Byte>)
    requires n <= |inst| && n <= 32
    ensures |d| == 32
  {
    inst[..n] + Zeros(32 - n)
  }

  predicate Readable(inst: seq<Byte>, edit: bool) {
    |inst| >= 1 && |inst| >= (if edit then 32 else 1 + BlkLen(inst[0]))
  }

  function WithUnknown(subs: seq<SubC>, rest: seq<Byte>, tid: Tid): seq<SubC> {
    if rest == [] then subs else subs + [SubC(SubTid(tid, UDAT), rest)]
  }

  /** The payload of a block, if its length reaches it. */
  function Behind(inst: seq<Byte>, d: RootDsc): seq<Byte>
    requires Readable(inst, false) && 1 <= d.hdrSz <= 2
  {
    if BlkLen(inst[0]) + 1 < d.hdrSz then [] else inst[d.hdrSz..BlkLen(inst[0]) + 1]
  }

  function StartCode(inst: seq<Byte>, d: RootDsc): Rcode
    requires inst != []
  {
    if BlkLen(inst[0]) < d.minLen then FaultMsg else Ok
  }

  /** The group made of a walk: what is left over becomes one unknown sub-group. */
  function RootOf(inst: seq<Byte>, d: RootDsc, edit: bool, w: Walked): Init
    requires Readable(inst, edit) && Readable(inst, false) && 1 <= d.hdrSz <= 2
  {
    var len := BlkLen(inst[0]);
    Init(if len > d.maxLen then FaultMsg else w.rc,
         GrpC(d.tid, Local(inst, if edit then 32 else len + 1), d.hdrSz, 0, WithUnknown(w.subs, w.rest, d.tid), 0))
  }

  /** base_DBC_Init_RootGrp: in strict mode a block below its minimal length is rejected; otherwise
      the walk and what it leaves over. */
  function InitRoot(inst: seq<Byte>, d: RootDsc, edit: bool): Init
    requires Readable(inst, edit) && 1 <= d.hdrSz <= 2
  {
    if BlkLen(inst[0]) < d.minLen && !edit then Rejected
    else RootOf(inst, d, edit, Walk(d.subs, 0, 0, Behind(inst, d), d.tid, StartCode(inst, d)))
  }

  lemma {:induction false} HeadAndRest(inst: seq<Byte>, h: nat, n: nat, m: nat)
    requires h <= n <= m <= |inst| && m <= 32
    ensures Local(inst, m)[..h] + inst[h..n] == inst[..n]
  {
    assert Local(inst, m)[..h] == inst[..h];
  }

  /** Header bytes and sub-groups in order are the block, in both modes and whatever faults occur. */
  lemma {:induction false} RootConserves(inst: seq<Byte>, d: RootDsc, edit: bool)
    requires Readable(inst, edit) && 1 <= d.hdrSz <= BlkLen(inst[0]) + 1 && d.hdrSz <= 2
    requires InitRoot(inst, d, edit) != Rejected
    ensures var c := InitRoot(inst, d, edit).c;
            c.inst[..d.hdrSz] + AllSubData(c.subs) == inst[..BlkLen(inst[0]) + 1]
            && Payload(c) == BlkLen(inst[0]) + 1 - d.hdrSz
  {
    WalkConserves(d.subs, 0, 0, Behind(inst, d), d.tid, StartCode(inst, d));
    RootOfConserves(inst, d, edit, Walk(d.subs, 0, 0, Behind(inst, d), d.tid, StartCode(inst, d)));
  }

  lemma {:induction false} RootOfConserves(inst: seq<Byte>, d: RootDsc, edit: bool, w: Walked)
    requires Readable(inst, edit) && 1 <= d.hdrSz <= BlkLen(inst[0]) + 1 && d.hdrSz <= 2
    requires AllSubData(w.subs) + w.rest == Behind(inst, d)
    ensures var c := RootOf(inst, d, edit, w).c;
            c.inst[..d.hdrSz] + AllSubData(c.subs) == inst[..BlkLen(inst[0]) + 1]
            && Payload(c) == BlkLen(inst[0]) + 1 - d.hdrSz
  {
    var len := BlkLen(inst[0]);
    UnknownConserves(w.subs, w.rest, d.tid);
    HeadAndRest(inst, d.hdrSz, len + 1, if edit then 32 else len + 1);
  }

  lemma {:induction false} UnknownConserves(subs: seq<SubC>, rest: seq<Byte>, tid: Tid)
    ensures AllSubData(WithUnknown(subs, rest, tid)) == AllSubData(subs) + rest
  {
    if rest != [] { SubDataSnoc(subs, SubC(SubTid(tid, UDAT), rest)); }
  }

  /** The sub-group array of a block under construction. */
  function Spawned(hdrSz: nat, subs: seq<SubC>, base: int): seq<Sub> {
    RenderSubs(GrpC(CHD, [], hdrSz, 0, subs, 0), base)
  }

  /** Append at the running offset. */
  lemma {:induction false} SpawnedSnoc(hdrSz: nat, subs: seq<SubC>, s: SubC, base: int)
    ensures var offs := hdrSz + SubStart(subs, |subs|);
            Spawned(hdrSz, subs + [s], base)
            == Spawned(hdrSz, subs, base) + [Sub(s.tid, s.bytes, base + offs, offs, |subs|)]
    ensures SubStart(subs + [s], |subs| + 1) == SubStart(subs, |subs|) + |s.bytes|
    ensures |Spawned(hdrSz, subs, base)| == |subs|
  {
    var d := subs + [s];
    forall k | 0 <= k <= |subs| ensures SubStart(d, k) == SubStart(subs, k) {
      SubStartSame(d, subs, k);
    }
  }

  /** What is left to do at descriptor i after k instances of it, put behind what was done. */
  predicate WalkFrom(whole: Walked, ds: seq<SubDsc>, i: nat, k: nat, done: seq<SubC>, rest: seq<Byte>, tid: Tid,
      rc: Rcode) {
    i <= |ds| && var w := Walk(ds, i, k, rest, tid, rc); whole == w.(subs := done + w.subs)
  }

  lemma {:induction false} WalkStep(whole: Walked, ds: seq<SubDsc>, i: nat, k: nat, done: seq<SubC>, rest: seq<Byte>,
      tid: Tid, rc: Rcode)
    requires WalkFrom(whole, ds, i, k, done, rest, tid, rc) && i < |ds|
    ensures k >= ds[i].cnt ==> WalkFrom(whole, ds, i + 1, 0, done, rest, tid, rc)
    ensures k < ds[i].cnt && |rest| < MinLen(ds[i].kind) ==>
              whole == Walked(done, rest, if |rest| > 0 then FaultMsg else rc)
    ensures k < ds[i].cnt && |rest| >= MinLen(ds[i].kind) ==>
              var init := InitSub(ds[i].kind, rest);
              if init.rc == Fault then whole == Walked(done, rest, FaultMsg)
              else WalkFrom(whole, ds, i, k + 1, done + [SubC(SubTid(tid, KindId(ds[i].kind)), rest[..init.size])],
                            rest[init.size..], tid, init.rc)
  {
    if k < ds[i].cnt {
      if |rest| < MinLen(ds[i].kind) || InitSub(ds[i].kind, rest).rc == Fault {
        assert done + [] == done;
      } else {
        var init := InitSub(ds[i].kind, rest);
        var s := SubC(SubTid(tid, KindId(ds[i].kind)), rest[..init.size]);
        var w := Walk(ds, i, k + 1, rest[init.size..], tid, init.rc);
        assert done + ([s] + w.subs) == (done + [s]) + w.subs;
      }
    }
  }

  /** The two nested loops over descriptors and instances. */
  method SpawnSubGroups(d: RootDsc, inst: seq<Byte>, abs: int, rc: Rcode)
    returns (subs: seq<Sub>, rest: seq<Byte>, offs: nat, retU2: Rcode)
    ensures var w := Walk(d.subs, 0, 0, inst, d.tid, rc);
            subs == Spawned(d.hdrSz, w.subs, abs) && rest == w.rest && retU2 == w.rc
            && offs == d.hdrSz + SubStart(w.subs, |w.subs|)
  {
    subs, rest, offs, retU2 := [], inst, d.hdrSz, rc;
    ghost var whole, done: seq<SubC> := Walk(d.subs, 0, 0, inst, d.tid, rc), [];
    assert [] + whole.subs == whole.subs;
    var grIdx := 0;
    while grIdx < |d.subs|
      invariant grIdx <= |d.subs| && WalkFrom(whole, d.subs, grIdx, 0, done, rest, d.tid, retU2)
      invariant subs == Spawned(d.hdrSz, done, abs) && offs == d.hdrSz + SubStart(done, |done|)
    {
      var kind, k := d.subs[grIdx].kind, 0;
      while k < d.subs[grIdx].cnt
        invariant k <= d.subs[grIdx].cnt && WalkFrom(whole, d.subs, grIdx, k, done, rest, d.tid, retU2)
        invariant subs == Spawned(d.hdrSz, done, abs) && offs == d.hdrSz + SubStart(done, |done|)
        decreases |rest|
      {
        WalkStep(whole, d.subs, grIdx, k, done, rest, d.tid, retU2);
        var dlen := |rest|;
        if dlen < MinLen(kind) {
          if dlen > 0 { retU2 := FaultMsg; }
          return;
        }
        var init := InitSub(kind, rest);
        if init.rc == Fault {
          retU2 := FaultMsg;
          return;
        }
        retU2 := init.rc;
        var tid := SubTid(d.tid, KindId(kind));
        SpawnedSnoc(d.hdrSz, done, SubC(tid, rest[..init.size]), abs);
        done := done + [SubC(tid, rest[..init.size])];
        subs := subs + [Sub(tid, rest[..init.size], abs + offs, offs, |subs|)];
        offs := offs + init.size;
        rest := rest[init.size..];
        k := k + 1;
      }
      WalkStep(whole, d.subs, grIdx, k, done, rest, d.tid, retU2);
      grIdx := grIdx + 1;
    }
    assert done + [] == done;
  }

  /** Append_UNK_DAT, when bytes are left. */
  method AppendUnkDat(d: RootDsc, subs: seq<Sub>, rest: seq<Byte>, offs: nat, abs: int, ghost done: seq<SubC>)
    returns (r: seq<Sub>)
    requires subs == Spawned(d.hdrSz, done, abs) && offs == d.hdrSz + SubStart(done, |done|)
    ensures r == Spawned(d.hdrSz, WithUnknown(done, rest, d.tid), abs)
  {
    r := subs;
    if |rest| > 0 {
      SpawnedSnoc(d.hdrSz, done, SubC(SubTid(d.tid, UDAT), rest), abs);
      r := subs + [Sub(SubTid(d.tid, UDAT), rest, abs + offs, offs, |subs|)];
    }
  }

  datatype Built = Refused | Built(rc: Rcode, g: Grp)

  /** The sub-groups of a block and what is left over as one more. */
  method SpawnAll(d: RootDsc, pinst: seq<Byte>, abs: int, maxed: bool, rc: Rcode) returns (subs: seq<Sub>, retU2: Rcode)
    ensures var w := Walk(d.subs, 0, 0, pinst, d.tid, rc);
            subs == Spawned(d.hdrSz, WithUnknown(w.subs, w.rest, d.tid), abs)
            && retU2 == if maxed then FaultMsg else w.rc
  {
    var rest, offs;
    subs, rest, offs, retU2 := SpawnSubGroups(d, pinst, abs, rc);
    ghost var done := Walk(d.subs, 0, 0, pinst, d.tid, rc).subs;
    if maxed { retU2 := FaultMsg; }
    subs := AppendUnkDat(d, subs, rest, offs, abs, done);
  }

  /** base_DBC_Init_RootGrp: the group it fills is the rendering, at the offset of the block, of what
      InitRoot says, with the total size the header byte gives; they agree unless the block ends inside
      its header. */
  method InitRootGrp(inst: seq<Byte>, d: RootDsc, edit: bool, at: nat) returns (r: Built)
    requires Readable(inst, edit) && 1 <= d.hdrSz <= 2 && d.tid != CHD
    ensures match InitRoot(inst, d, edit)
      case Rejected => r == Refused
      case Init(rc, c) =>
        r == Built(rc, RenderGrp(c, at, 0).(datSz := BlkLen(inst[0]) + 1))
        && (d.hdrSz <= BlkLen(inst[0]) + 1 ==> Total(c) == BlkLen(inst[0]) + 1)
  {
    var retU2 := Ok;
    if BlkLen(inst[0]) < d.minLen {
      retU2 := FaultMsg;
      if !edit { return Refused; }
    }
    r := FillRootGrp(inst, d, edit, at, retU2);
    if d.hdrSz <= BlkLen(inst[0]) + 1 { RootConserves(inst, d, edit); }
  }

  method FillRootGrp(inst: seq<Byte>, d: RootDsc, edit: bool, at: nat, rc: Rcode) returns (r: Built)
    requires Readable(inst, edit) && Readable(inst, false) && 1 <= d.hdrSz <= 2
    ensures var i := RootOf(inst, d, edit, Walk(d.subs, 0, 0, Behind(inst, d), d.tid, rc));
            r == Built(i.rc, RenderGrp(i.c, at, 0).(datSz := BlkLen(inst[0]) + 1))
  {
    var dlen := BlkLen(inst[0]) + 1;
    var data := Local(inst, if edit then 32 else dlen);
    var pinst := if dlen >= d.hdrSz then inst[d.hdrSz..dlen] else [];
    ghost var w := Walk(d.subs, 0, 0, pinst, d.tid, rc);
    var subs, retU2 := SpawnAll(d, pinst, BLOCK_SIZE + at, dlen - 1 > d.maxLen, rc);
    var used := SubBytes(subs, |subs|);
    RootRendered(inst, d, edit, w, at, subs);
    return Built(retU2, Grp(d.tid, data, d.hdrSz, dlen, BLOCK_SIZE + at, at, 0, subs, used, Cap(d.tid) - used));
  }

  lemma {:induction false} RootRendered(inst: seq<Byte>, d: RootDsc, edit: bool, w: Walked, at: nat, subs: seq<Sub>)
    requires Readable(inst, edit) && Readable(inst, false) && 1 <= d.hdrSz <= 2
    requires subs == Spawned(d.hdrSz, WithUnknown(w.subs, w.rest, d.tid), BLOCK_SIZE + at)
    ensures var (i, dlen, used) := (RootOf(inst, d, edit, w), BlkLen(inst[0]) + 1, SubBytes(subs, |subs|));
            RenderGrp(i.c, at, 0).(datSz := dlen)
            == Grp(d.tid, Local(inst, if edit then 32 else dlen), d.hdrSz, dlen, BLOCK_SIZE + at, at, 0, subs, used,
                   Cap(d.tid) - used)
  {
    BlockRendered(RootOf(inst, d, edit, w).c, at, BlkLen(inst[0]) + 1, subs);
  }

  /** A group of this total size with the sub-groups of the contents. */
  lemma {:induction false} BlockRendered(c: GrpC, at: nat, size: int, subs: seq<Sub>)
    requires c.lag == 0 && subs == Spawned(c.hdrSz, c.subs, BLOCK_SIZE + at)
    ensures var used := SubBytes(subs, |subs|);
            RenderGrp(c, at, 0).(datSz := size)
            == Grp(c.tid, c.inst, c.hdrSz, size, BLOCK_SIZE + at, at, 0, subs, used, Cap(c.tid) - used)
  {
    assert subs == RenderSubs(c, BLOCK_SIZE + at);
    SubBytesIsStart(subs, c, |subs|);
  }
}
