/** The walk over an InfoFrame data block (src/CEA_EXT_class.cpp): a processing descriptor, then
    short descriptors to the end of the block. */
module InfoFrames {
  import opened Bytes
  import opened GroupTree
  import opened GroupContent
  import opened BlockSplit

  const IFDB := Tid(0, 0, 14, 0, false, false)
  const IFPD_ID := 14
  const SIFD_ID := 15
  const VSIFD_ID := 16

  /** Bits 4..0 of a descriptor header: the InfoFrame type code. */
  function TypeCode(b: Byte): nat { b % 32 }

  /** Bits 7..5: the number of bytes behind the header. */
  function Extra(b: Byte): nat { b / 32 }

  /** Header bytes of a short descriptor: 4 with the vendor id of type code 1, else 1. */
  function HeadLen(code: nat): (n: nat)
    ensures n >= 1
  {
    if code == 1 then 4 else 1
  }

  /** IFDB_Init_SubGrp: the sub-group size, unless it overruns the block; then strict mode drops it
      and the other mode reports it, and the caller keeps the bytes as unknown either way. */
  function SubSize(head: nat, rest: seq<Byte>): (n: nat)
    requires rest != []
    ensures n >= head
  {
    head + Extra(rest[0])
  }

  function Overrun(edit: bool): Rcode { if edit then FaultMsg else Fault }

  /** The short descriptors of the rest of the block. */
  function WalkShort(rest: seq<Byte>, edit: bool): Walked
    decreases |rest|
  {
    if rest == [] then Walked([], [], Ok)
    else
      var code := TypeCode(rest[0]);
      var size := SubSize(HeadLen(code), rest);
      if code == 0 then Walked([], rest, FaultMsg)
      else if size > |rest| then Walked([], rest, Overrun(edit))
      else
        var w := WalkShort(rest[size..], edit);
        w.(subs := [SubC(SubTid(IFDB, if code == 1 then VSIFD_ID else SIFD_ID), rest[..size])] + w.subs)
  }

  function WalkAll(rest: seq<Byte>, edit: bool): Walked {
    if |rest| < 2 then Walked([], rest, FaultMsg)
    else
      var size := SubSize(2, rest);
      if size > |rest| then Walked([], rest, Overrun(edit))
      else
        var w := WalkShort(rest[size..], edit);
        w.(subs := [SubC(SubTid(IFDB, IFPD_ID).(dbcFixed := true), rest[..size])] + w.subs)
  }

  /** Leftover bytes get a type of their own, without the parent's bits. */
  const NO_PARENT := Tid(0, 0, 0, 0, false, false)

  /** cea_ifdb_cl::init: strict mode rejects a block below 3 payload bytes and stops at a bad type code;
      the other mode keeps a short block with its payload unknown. */
  function InitIfdb(inst: seq<Byte>, edit: bool): Init
    requires Readable(inst, edit)
  {
    var len := BlkLen(inst[0]);
    if len < 3 && !edit then Rejected
    else if len < 3 then
      Init(FaultMsg, GrpC(IFDB, Local(inst, 32), 2, 0,
                          WithUnknown([], if len < 2 then [] else inst[2..len + 1], NO_PARENT), 0))
    else
      var w := WalkAll(inst[2..len + 1], edit);
      var subs := if w.rc == FaultMsg && !edit then w.subs else WithUnknown(w.subs, w.rest, NO_PARENT);
      Init(w.rc, GrpC(IFDB, Local(inst, len + 1), 2, 0, subs, 0))
  }

  // ---------------------------------------------------------------- tiling

  /** A short descriptor by itself. */
  predicate IsShort(d: seq<Byte>) {
    d != [] && TypeCode(d[0]) != 0 && |d| == HeadLen(TypeCode(d[0])) + Extra(d[0])
  }

  /** A processing descriptor by itself. */
  predicate IsProcessing(d: seq<Byte>) {
    |d| >= 2 && |d| == 2 + Extra(d[0])
  }

  predicate AllShort(ds: seq<seq<Byte>>) {
    forall i :: 0 <= i < |ds| ==> IsShort(ds[i])
  }

  function BytesOf(subs: seq<SubC>): (r: seq<seq<Byte>>)
    ensures |r| == |subs| && forall i :: 0 <= i < |r| ==> r[i] == subs[i].bytes
  {
    seq(|subs|, i requires 0 <= i < |subs| => subs[i].bytes)
  }

  lemma {:induction false} BytesCons(s: SubC, subs: seq<SubC>)
    ensures BytesOf([s] + subs) == [s.bytes] + BytesOf(subs)
    ensures Concat(BytesOf([s] + subs)) == s.bytes + Concat(BytesOf(subs))
  {
    assert BytesOf([s] + subs)[1..] == BytesOf(subs);
  }

  /** Success of the walk: the sub-groups are short descriptors that tile the rest. */
  lemma {:induction false} ShortTiles(rest: seq<Byte>, edit: bool)
    requires WalkShort(rest, edit).rc == Ok
    ensures var w := WalkShort(rest, edit);
            w.rest == [] && AllShort(BytesOf(w.subs)) && Concat(BytesOf(w.subs)) == rest
    decreases |rest|
  {
    if rest != [] {
      var code := TypeCode(rest[0]);
      var size := SubSize(HeadLen(code), rest);
      ShortTiles(rest[size..], edit);
      BytesCons(SubC(SubTid(IFDB, if code == 1 then VSIFD_ID else SIFD_ID), rest[..size]),
          WalkShort(rest[size..], edit).subs);
      Rejoin(rest, size);
    }
  }

  /** Conversely any tiling by short descriptors is the one the walk finds. */
  lemma {:induction false} TilingWalks(ds: seq<seq<Byte>>, edit: bool)
    requires AllShort(ds)
    ensures WalkShort(Concat(ds), edit).rc == Ok && BytesOf(WalkShort(Concat(ds), edit).subs) == ds
    decreases |ds|
  {
    if ds != [] {
      var d, rest := ds[0], Concat(ds);
      assert IsShort(d);
      CutFirst(rest, d, Concat(ds[1..]));
      TilingWalks(ds[1..], edit);
      var w := WalkShort(rest[|d|..], edit);
      BytesCons(SubC(SubTid(IFDB, if TypeCode(rest[0]) == 1 then VSIFD_ID else SIFD_ID), d), w.subs);
      assert [d] + ds[1..] == ds;
    }
  }

  /** A block is accepted exactly when a processing descriptor and short descriptors tile all of it
      behind the two header bytes; they are its sub-groups. */
  lemma {:induction false} IfdbAccepts(inst: seq<Byte>, edit: bool, ds: seq<seq<Byte>>)
    requires Readable(inst, edit) && BlkLen(inst[0]) >= 3
    ensures var (r, rest) := (InitIfdb(inst, edit), inst[2..BlkLen(inst[0]) + 1]);
            (IsOk(r.rc) && BytesOf(r.c.subs) == ds)
            <==> (|ds| >= 1 && IsProcessing(ds[0]) && AllShort(ds[1..]) && Concat(ds) == rest)
  {
    var (r, rest) := (InitIfdb(inst, edit), inst[2..BlkLen(inst[0]) + 1]);
    if IsOk(r.rc) { AcceptedTiles(rest, edit); }
    if |ds| >= 1 && IsProcessing(ds[0]) && AllShort(ds[1..]) && Concat(ds) == rest { TilesAccepted(rest, edit, ds); }
  }

  lemma {:induction false} TilesAccepted(rest: seq<Byte>, edit: bool, ds: seq<seq<Byte>>)
    requires |ds| >= 1 && IsProcessing(ds[0]) && AllShort(ds[1..]) && Concat(ds) == rest
    ensures var w := WalkAll(rest, edit);
            w.rc == Ok && w.rest == [] && BytesOf(w.subs) == ds
  {
    var size := |ds[0]|;
    CutFirst(rest, ds[0], Concat(ds[1..]));
    TilingWalks(ds[1..], edit);
    ShortTiles(rest[size..], edit);
    var w := WalkShort(rest[size..], edit);
    BytesCons(SubC(SubTid(IFDB, IFPD_ID).(dbcFixed := true), ds[0]), w.subs);
  }

  lemma {:induction false} AcceptedTiles(rest: seq<Byte>, edit: bool)
    requires IsOk(WalkAll(rest, edit).rc)
    ensures var w := WalkAll(rest, edit);
            var ds := BytesOf(w.subs);
            w.rest == [] && |ds| >= 1 && IsProcessing(ds[0]) && AllShort(ds[1..]) && Concat(ds) == rest
  {
    var size := SubSize(2, rest);
    WalkRc(rest[size..], edit);
    ShortTiles(rest[size..], edit);
    HeadTiles(SubC(SubTid(IFDB, IFPD_ID).(dbcFixed := true), rest[..size]), WalkShort(rest[size..], edit).subs);
    Rejoin(rest, size);
  }

  lemma {:induction false} HeadTiles(s: SubC, subs: seq<SubC>)
    requires IsProcessing(s.bytes) && AllShort(BytesOf(subs))
    ensures var ds := BytesOf([s] + subs);
            |ds| >= 1 && IsProcessing(ds[0]) && AllShort(ds[1..]) && Concat(ds) == s.bytes + Concat(BytesOf(subs))
  {
    BytesCons(s, subs);
    assert BytesOf([s] + subs)[1..] == BytesOf(subs);
  }

  lemma {:induction false} WalkRc(rest: seq<Byte>, edit: bool)
    ensures WalkShort(rest, edit).rc != True
    decreases |rest|
  {
    if rest != [] {
      var size := SubSize(HeadLen(TypeCode(rest[0])), rest);
      if TypeCode(rest[0]) != 0 && size <= |rest| { WalkRc(rest[size..], edit); }
    }
  }

  // ---------------------------------------------------------------- conservation

  lemma {:induction false} ShortConserves(rest: seq<Byte>, edit: bool)
    ensures var w := WalkShort(rest, edit);
            AllSubData(w.subs) + w.rest == rest
    decreases |rest|
  {
    if rest != [] {
      var code := TypeCode(rest[0]);
      var size := SubSize(HeadLen(code), rest);
      if code != 0 && size <= |rest| {
        ShortConserves(rest[size..], edit);
        PrependConserves(rest, SubC(SubTid(IFDB, if code == 1 then VSIFD_ID else SIFD_ID), rest[..size]),
                         WalkShort(rest[size..], edit));
      }
    }
  }

  lemma {:induction false} AllConserves(rest: seq<Byte>, edit: bool)
    ensures var w := WalkAll(rest, edit);
            AllSubData(w.subs) + w.rest == rest
  {
    if |rest| >= 2 && SubSize(2, rest) <= |rest| {
      var size := SubSize(2, rest);
      ShortConserves(rest[size..], edit);
      PrependConserves(rest, SubC(SubTid(IFDB, IFPD_ID).(dbcFixed := true), rest[..size]),
          WalkShort(rest[size..], edit));
    }
  }

  /** In both modes the two header bytes and the sub-groups, unknown bytes included, are the block,
      except where strict mode stops at a bad type code. */
  lemma {:induction false} IfdbConserves(inst: seq<Byte>, edit: bool)
    requires Readable(inst, edit) && BlkLen(inst[0]) >= 1 && InitIfdb(inst, edit) != Rejected
    requires edit || InitIfdb(inst, edit).rc != FaultMsg
    ensures var c := InitIfdb(inst, edit).c;
            c.inst[..2] + AllSubData(c.subs) == inst[..BlkLen(inst[0]) + 1]
            && Payload(c) == BlkLen(inst[0]) - 1
  {
    var len := BlkLen(inst[0]);
    if len < 3 {
      UnknownConserves([], if len < 2 then [] else inst[2..len + 1], NO_PARENT);
      HeadAndRest(inst, 2, len + 1, 32);
    } else {
      var rest := inst[2..len + 1];
      AllConserves(rest, edit);
      var w := WalkAll(rest, edit);
      UnknownConserves(w.subs, w.rest, NO_PARENT);
      HeadAndRest(inst, 2, len + 1, len + 1);
    }
  }

  // ---------------------------------------------------------------- the loop

  /** What is left of the walk over the short descriptors, put behind what was done. */
  predicate ShortFrom(whole: Walked, done: seq<SubC>, rest: seq<Byte>, edit: bool) {
    var w := WalkShort(rest, edit); whole == w.(subs := done + w.subs)
  }

  lemma {:induction false} ShortStep(whole: Walked, done: seq<SubC>, rest: seq<Byte>, edit: bool)
    requires ShortFrom(whole, done, rest, edit) && rest != []
    ensures var code := TypeCode(rest[0]);
            var size := SubSize(HeadLen(code), rest);
            if code == 0 then whole == Walked(done, rest, FaultMsg)
            else if size > |rest| then whole == Walked(done, rest, Overrun(edit))
            else ShortFrom(whole, done + [SubC(SubTid(IFDB, if code == 1 then VSIFD_ID else SIFD_ID), rest[..size])],
                           rest[size..], edit)
  {
    var code := TypeCode(rest[0]);
    var size := SubSize(HeadLen(code), rest);
    if code == 0 || size > |rest| {
      assert done + [] == done;
    } else {
      var s := SubC(SubTid(IFDB, if code == 1 then VSIFD_ID else SIFD_ID), rest[..size]);
      var w := WalkShort(rest[size..], edit);
      assert done + ([s] + w.subs) == (done + [s]) + w.subs;
    }
  }

  lemma {:induction false} HeadStep(payload: seq<Byte>, edit: bool, abs: int)
    requires |payload| >= 2 && SubSize(2, payload) <= |payload|
    ensures var s := SubC(SubTid(IFDB, IFPD_ID).(dbcFixed := true), payload[..SubSize(2, payload)]);
            ShortFrom(WalkAll(payload, edit), [s], payload[SubSize(2, payload)..], edit)
            && Spawned(2, [s], abs) == [Sub(s.tid, s.bytes, abs + 2, 2, 0)]
            && SubStart([s], 1) == SubSize(2, payload)
  {
    var s := SubC(SubTid(IFDB, IFPD_ID).(dbcFixed := true), payload[..SubSize(2, payload)]);
    SpawnedSnoc(2, [], s, abs);
    assert [] + [s] == [s];
  }

  /** The while loop of cea_ifdb_cl::init: relo + the bytes left stays the block length, and the bytes
      left strictly fall. */
  method WalkIfdb(payload: seq<Byte>, edit: bool, abs: int) returns (subs: seq<Sub>, rest: seq<Byte>, relo: nat,
      retU2: Rcode)
    ensures var w := WalkAll(payload, edit);
            subs == Spawned(2, w.subs, abs) && rest == w.rest && retU2 == w.rc
            && relo == 2 + SubStart(w.subs, |w.subs|) && relo + |rest| == 2 + |payload|
  {
    subs, rest, relo, retU2 := [], payload, 2, Ok;
    if |rest| < 2 { return subs, rest, relo, FaultMsg; }
    var size := SubSize(2, rest);
    if size > |rest| { return subs, rest, relo, Overrun(edit); }
    HeadStep(payload, edit, abs);
    var tid := SubTid(IFDB, IFPD_ID).(dbcFixed := true);
    ghost var done := [SubC(tid, rest[..size])];
    ghost var whole := WalkAll(payload, edit);
    subs := [Sub(tid, rest[..size], abs + relo, relo, 0)];
    relo := relo + size;
    rest := rest[size..];
    subs, rest, relo, retU2 := WalkShortGrps(subs, rest, relo, edit, abs, whole, done);
  }

  method WalkShortGrps(subs0: seq<Sub>, rest0: seq<Byte>, relo0: nat, edit: bool, abs: int, ghost whole: Walked,
      ghost done0: seq<SubC>)
    returns (subs: seq<Sub>, rest: seq<Byte>, relo: nat, retU2: Rcode)
    requires ShortFrom(whole, done0, rest0, edit) && subs0 == Spawned(2, done0, abs)
    requires relo0 == 2 + SubStart(done0, |done0|)
    ensures subs == Spawned(2, whole.subs, abs) && rest == whole.rest && retU2 == whole.rc
    ensures relo == 2 + SubStart(whole.subs, |whole.subs|) && relo + |rest| == relo0 + |rest0|
  {
    subs, rest, relo, retU2 := subs0, rest0, relo0, Ok;
    ghost var done := done0;
    while |rest| > 0
      invariant ShortFrom(whole, done, rest, edit) && retU2 == Ok
      invariant subs == Spawned(2, done, abs) && relo == 2 + SubStart(done, |done|) && relo + |rest| == relo0 + |rest0|
      decreases |rest|
    {
      ShortStep(whole, done, rest, edit);
      var code := TypeCode(rest[0]);
      if code == 0 { return subs, rest, relo, FaultMsg; }
      var size := SubSize(HeadLen(code), rest);
      if size > |rest| { return subs, rest, relo, Overrun(edit); }
      var tid := SubTid(IFDB, if code == 1 then VSIFD_ID else SIFD_ID);
      SpawnedSnoc(2, done, SubC(tid, rest[..size]), abs);
      done := done + [SubC(tid, rest[..size])];
      subs := subs + [Sub(tid, rest[..size], abs + relo, relo, |subs|)];
      relo := relo + size;
      rest := rest[size..];
    }
    assert done + [] == done;
  }

  /** The group left behind: a short block counts all 32 bytes copied, and where strict mode stops the
      counters of the sub-group array are still 0. */
  function IfdbGrp(c: GrpC, at: nat, len: nat, stopped: bool): Grp {
    var g := RenderGrp(c, at, 0).(datSz := if len < 3 then 32 else len + 1);
    if stopped then g.(used := 0, free := 0) else g
  }

  /** cea_ifdb_cl::init. */
  method InitIfdbGrp(inst: seq<Byte>, edit: bool, at: nat) returns (r: Built)
    requires Readable(inst, edit)
    ensures match InitIfdb(inst, edit)
      case Rejected => r == Refused
      case Init(rc, c) =>
        r == Built(rc, IfdbGrp(c, at, BlkLen(inst[0]), rc == FaultMsg && !edit))
        && (IsOk(rc) ==> r.g == RenderGrp(c, at, 0))
  {
    var dlen := BlkLen(inst[0]) + 1;
    if dlen < 4 {
      if !edit { return Refused; }
      r := ShortIfdbGrp(inst, at);
      return;
    }
    r := LongIfdbGrp(inst, edit, at);
    if edit || r.rc != FaultMsg { IfdbConserves(inst, edit); }
  }

  method LongIfdbGrp(inst: seq<Byte>, edit: bool, at: nat) returns (r: Built)
    requires Readable(inst, edit) && BlkLen(inst[0]) >= 3
    ensures var i := InitIfdb(inst, edit);
            i.Init? && r == Built(i.rc, IfdbGrp(i.c, at, BlkLen(inst[0]), i.rc == FaultMsg && !edit))
  {
    var dlen, abs := BlkLen(inst[0]) + 1, BLOCK_SIZE + at;
    var subs, rest, relo, retU2 := WalkIfdb(inst[2..dlen], edit, abs);
    ghost var w := WalkAll(inst[2..dlen], edit);
    ghost var c := InitIfdb(inst, edit).c;
    if retU2 == FaultMsg && !edit {
      BlockRendered(c, at, dlen, subs);
      return Built(retU2, Grp(IFDB, Local(inst, dlen), 2, dlen, abs, at, 0, subs, 0, 0));
    }
    subs := AppendUnkDat(RootDsc(NO_PARENT, 0, 0, 2, []), subs, rest, relo, abs, w.subs);
    var used := SubBytes(subs, |subs|);
    BlockRendered(c, at, dlen, subs);
    return Built(retU2, Grp(IFDB, Local(inst, dlen), 2, dlen, abs, at, 0, subs, used, Cap(IFDB) - used));
  }

  /** A short block, whose payload of at most one byte is unknown. */
  method ShortIfdbGrp(inst: seq<Byte>, at: nat) returns (r: Built)
    requires Readable(inst, true) && BlkLen(inst[0]) < 3
    ensures r == Built(FaultMsg, IfdbGrp(InitIfdb(inst, true).c, at, BlkLen(inst[0]), false))
  {
    var dlen, abs := BlkLen(inst[0]) + 1, BLOCK_SIZE + at;
    var rest: seq<Byte> := if dlen > 2 then inst[2..dlen] else [];
    assert Spawned(2, [], abs) == [];
    var subs := AppendUnkDat(RootDsc(NO_PARENT, 0, 0, 2, []), [], rest, 2, abs, []);
    var used := SubBytes(subs, |subs|);
    BlockRendered(InitIfdb(inst, true).c, at, 32, subs);
    return Built(FaultMsg, Grp(IFDB, Local(inst, 32), 2, 32, abs, at, 0, subs, used, Cap(IFDB) - used));
  }
}
