/** The two-level tree of groups (src/EDID_shared.h, src/grpar.h) as values: every group carries
    cached sizes, offsets and its index, every array its used and free space.  This module says
    what each guard answers and what each edit of src/grpar.cpp leaves behind; the classes of
    module GroupArrays do the same in place. */
module GroupTree {
  import opened Bytes

  /** The 32-bit type id by its masks: base EDID type, tag code, extended tag code, sub-group type
      and the two "fixed" flags. */
  datatype Tid = Tid(edid: nat, cea: nat, ext: nat, sub: nat, edidFixed: bool, dbcFixed: bool)

  const ID_DTD := 8
  const CHD := Tid(0, 1, 0, 0, true, false)
  const DTD := Tid(ID_DTD, 0, 0, 0, false, false)

  /** A sub-group: its header size is 0, so data size and total size are |bytes|. */
  datatype Sub = Sub(tid: Tid, bytes: seq<Byte>, abs: int, rel: int, idx: int)

  /** A top-level group with its sub-group array. */
  datatype Grp = Grp(tid: Tid, inst: seq<Byte>, hdrSz: nat, datSz: int, abs: int, rel: int, idx: int,
                     subs: seq<Sub>, used: int, free: int)

  /** The group array of the CEA block. */
  datatype Tree = Tree(grps: seq<Grp>, used: int, free: int)

  const BLOCK_SIZE := 128
  const CEA_SPACE := 127

  function DataSize(g: Grp): int {
    if g.hdrSz == 0 then g.datSz else g.hdrSz
  }

  /** Room for the payload of a data block: 5-bit length, less the extended tag. */
  function Cap(tid: Tid): int {
    32 - if tid.ext != 0 then 2 else 1
  }

  // ---------------------------------------------------------------- updating offsets

  /** UpdateRelOffs, from sub-group i on. */
  function UpdRel(subs: seq<Sub>, i: nat, abs: int, rel: int): (r: seq<Sub>)
    ensures |r| == |subs|
    decreases |subs| - i
  {
    if i >= |subs| then subs
    else
      var n := |subs[i].bytes|;
      UpdRel(subs[i := subs[i].(abs := abs, rel := rel, idx := i)], i + 1, abs + n, rel + n)
  }

  /** One group of UpdateAbsOffs. */
  function Moved(g: Grp, abs: int, rel: int, i: nat, soffs: bool): Grp {
    var subs := if soffs && g.subs != [] then UpdRel(g.subs, 0, abs + g.subs[0].rel, g.subs[0].rel)
                else g.subs;
    g.(subs := subs, abs := abs, rel := rel, idx := i)
  }

  function UpdFrom(grps: seq<Grp>, i: nat, abs: int, rel: int, soffs: bool): (r: seq<Grp>)
    ensures |r| == |grps|
    decreases |grps| - i
  {
    if i >= |grps| then grps
    else UpdFrom(grps[i := Moved(grps[i], abs, rel, i, soffs)], i + 1,
                 abs + grps[i].datSz, rel + grps[i].datSz, soffs)
  }

  /** UpdateAbsOffs, from group i on. */
  function UpdAbs(grps: seq<Grp>, i: nat, abs: int, soffs: bool): seq<Grp> {
    UpdFrom(grps, i, abs, abs % BLOCK_SIZE, soffs)
  }

  // ---------------------------------------------------------------- sizes

  /** Bytes of the first n sub-groups. */
  function SubBytes(subs: seq<Sub>, n: nat): nat
    requires n <= |subs|
  {
    if n == 0 then 0 else SubBytes(subs, n - 1) + |subs[n - 1].bytes|
  }

  /** Bytes of the first n groups, as base_CalcDataSZ counts them. */
  function GrpBytes(grps: seq<Grp>, n: nat): int
    requires n <= |grps|
  {
    if n == 0 then 0
    else GrpBytes(grps, n - 1) + DataSize(grps[n - 1]) + SubBytes(grps[n - 1].subs, |grps[n - 1].subs|)
  }

  /** The bytes of one group as base_CalcDataSZ counts them. */
  function Own(g: Grp): int { DataSize(g) + SubBytes(g.subs, |g.subs|) }

  /** CalcDataSZ of the CEA array. */
  function Calc(grps: seq<Grp>): Tree {
    var used := GrpBytes(grps, |grps|);
    Tree(grps, used, CEA_SPACE - used)
  }

  /** New sub-groups: CalcDataSZ of their array, and setDataSize of the block, which stores the
      payload length in the 5-bit length field. */
  function WithSubs(g: Grp, subs: seq<Sub>): Grp
    requires |g.inst| == 32
  {
    var used := SubBytes(subs, |subs|);
    g.(subs := subs, used := used, free := Cap(g.tid) - used,
       inst := g.inst[0 := TagCode(g.inst[0]) * 32 + used % 32], datSz := g.hdrSz + used)
  }

  // ---------------------------------------------------------------- guards

  predicate Fixed(tid: Tid) { tid.edidFixed || tid.dbcFixed }
  predicate IsDtdType(tid: Tid) { tid.edid == ID_DTD }

  predicate CanMoveUp(t: Tree, i: nat) {
    && 0 < i < |t.grps| && !Fixed(t.grps[i].tid) && !Fixed(t.grps[i - 1].tid)
    && (IsDtdType(t.grps[i].tid) ==> IsDtdType(t.grps[i - 1].tid))
  }

  predicate CanMoveDn(t: Tree, i: nat) {
    && i + 1 < |t.grps| && !Fixed(t.grps[i].tid) && !Fixed(t.grps[i + 1].tid)
    && (IsDtdType(t.grps[i].tid) || !IsDtdType(t.grps[i + 1].tid))
  }

  /** Block types allowed for insertion: plain tag codes and DTDs. */
  predicate Insertable(tid: Tid) {
    (2 <= tid.cea <= 7 && tid.sub == 0) || IsDtdType(tid)
  }

  predicate CanInsertUp(t: Tree, i: nat, g: Grp) {
    && i < |t.grps| && g.datSz <= t.free && Insertable(g.tid)
    && var at := t.grps[i].tid;
       if IsDtdType(g.tid) then IsDtdType(at)
       else !at.edidFixed && (at.ext != 0 || at.cea != 0) && i > 0 && !IsDtdType(t.grps[i - 1].tid)
  }

  predicate CanInsertDn(t: Tree, i: nat, g: Grp) {
    && i < |t.grps| && g.datSz <= t.free && Insertable(g.tid)
    && var at := t.grps[i].tid;
       if IsDtdType(g.tid) then IsDtdType(at) || i + 1 >= |t.grps| || IsDtdType(t.grps[i + 1].tid)
       else !IsDtdType(at) && (at.ext != 0 || at.cea != 0)
  }

  predicate CanPaste(t: Tree, i: nat, g: Grp) {
    && i < |t.grps| && t.grps[i].tid == g.tid
    && (g.datSz > t.grps[i].datSz ==> g.datSz - t.grps[i].datSz <= t.free)
  }

  predicate CanCut(t: Tree, i: nat) {
    i < |t.grps| && !Fixed(t.grps[i].tid)
  }

  predicate SubFits(t: Tree, p: nat, s: Sub)
    requires p < |t.grps|
  {
    |s.bytes| <= t.grps[p].free && |s.bytes| <= t.free
  }

  predicate SubAt(t: Tree, p: nat, k: nat) {
    p < |t.grps| && k < |t.grps[p].subs|
  }

  predicate SameParent(a: Tid, b: Tid) { a.cea == b.cea && a.ext == b.ext }

  predicate SubCanInsertUp(t: Tree, p: nat, k: nat, s: Sub) {
    && SubAt(t, p, k) && SubFits(t, p, s)
    && !t.grps[p].subs[k].tid.dbcFixed && SameParent(s.tid, t.grps[p].subs[k].tid)
  }

  predicate SubCanInsertDn(t: Tree, p: nat, k: nat, s: Sub) {
    && SubAt(t, p, k) && SubFits(t, p, s)
    && var subs := t.grps[p].subs;
       var at := if k + 1 < |subs| then k + 1 else k;
       (k + 1 < |subs| ==> !subs[k + 1].tid.dbcFixed) && SameParent(s.tid, subs[at].tid)
  }

  predicate SubCanMoveDn(t: Tree, p: nat, k: nat) {
    SubAt(t, p, k) && SubAt(t, p, k + 1) && !Fixed(t.grps[p].subs[k].tid) && !Fixed(t.grps[p].subs[k + 1].tid)
  }

  predicate SubCanMoveUp(t: Tree, p: nat, k: nat) {
    k > 0 && SubCanMoveDn(t, p, k - 1)
  }

  predicate SubCanCut(t: Tree, p: nat, k: nat) {
    SubAt(t, p, k) && !Fixed(t.grps[p].subs[k].tid)
  }

  // ---------------------------------------------------------------- top-level edits

  function InsertAt<T>(s: seq<T>, i: nat, x: T): seq<T>
    requires i <= |s|
  {
    s[..i] + [x] + s[i..]
  }

  function RemoveAt<T>(s: seq<T>, i: nat): seq<T>
    requires i < |s|
  {
    s[..i] + s[i + 1..]
  }

  function SwapAt<T>(s: seq<T>, i: nat): seq<T>
    requires i + 1 < |s|
  {
    s[i := s[i + 1]][i + 1 := s[i]]
  }

  /** The end of an edit: update the offsets from group i on, if there is one, and the sizes. */
  function Settled(grps: seq<Grp>, i: nat, abs: int): Tree {
    Calc(if i < |grps| then UpdAbs(grps, i, abs, true) else grps)
  }

  /** base_Cut and base_Delete. */
  function Cut(t: Tree, i: nat): Tree
    requires i < |t.grps|
  {
    Settled(RemoveAt(t.grps, i), i, t.grps[i].abs)
  }

  function Paste(t: Tree, i: nat, g: Grp): Tree
    requires i < |t.grps|
  {
    Settled(t.grps[i := g], i, t.grps[i].abs)
  }

  function MoveDn(t: Tree, i: nat): Tree
    requires i + 1 < |t.grps|
  {
    t.(grps := UpdAbs(SwapAt(t.grps, i), i, t.grps[i].abs, true))
  }

  function MoveUp(t: Tree, i: nat): Tree
    requires 0 < i < |t.grps|
  {
    MoveDn(t, i - 1)
  }

  function InsertUp(t: Tree, i: nat, g: Grp): Tree
    requires i < |t.grps|
  {
    Settled(InsertAt(t.grps, i, g), i, t.grps[i].abs)
  }

  /** Behind the last group: insert above it, then move the new group down. */
  function InsertDn(t: Tree, i: nat, g: Grp): Tree
    requires i < |t.grps|
  {
    if i + 1 < |t.grps| then InsertUp(t, i + 1, g)
    else
      MoveDn(InsertUp(t, i, g), i)
  }

  // ---------------------------------------------------------------- sub-group edits of block p

  /** The block changed size: the blocks from it on move, their sub-groups do not. */
  function Propagate(t: Tree, p: nat, g: Grp, abs: int, soffs: bool): Tree
    requires p < |t.grps|
  {
    Calc(UpdAbs(t.grps[p := g], p, abs, soffs))
  }

  predicate Editable(t: Tree, p: nat, k: nat) {
    SubAt(t, p, k) && |t.grps[p].inst| == 32
  }

  /** Cut and Delete. */
  function SubCut(t: Tree, p: nat, k: nat): Tree
    requires Editable(t, p, k)
  {
    var (g, s) := (t.grps[p], t.grps[p].subs[k]);
    var subs := UpdRel(RemoveAt(g.subs, k), k, s.abs, s.rel);
    Propagate(t, p, WithSubs(g, subs), g.abs, false)
  }

  function SubInsertUp(t: Tree, p: nat, k: nat, s: Sub): Tree
    requires Editable(t, p, k)
  {
    var (g, at) := (t.grps[p], t.grps[p].subs[k]);
    var subs := UpdRel(InsertAt(g.subs, k, s), k, at.abs, at.rel);
    Propagate(t, p, WithSubs(g, subs), g.abs, false)
  }

  function SubMoveDn(t: Tree, p: nat, k: nat): Tree
    requires SubAt(t, p, k + 1)
  {
    var (g, s) := (t.grps[p], t.grps[p].subs[k]);
    t.(grps := t.grps[p := g.(subs := UpdRel(SwapAt(g.subs, k), k, s.abs, s.rel))])
  }

  function SubMoveUp(t: Tree, p: nat, k: nat): Tree
    requires SubAt(t, p, k) && k > 0
  {
    SubMoveDn(t, p, k - 1)
  }

  function SubInsertDn(t: Tree, p: nat, k: nat, s: Sub): Tree
    requires Editable(t, p, k)
  {
    if k + 1 < |t.grps[p].subs| then SubInsertUp(t, p, k + 1, s)
    else
      SubInsertUpShape(t, p, k, s);
      SubMoveDn(SubInsertUp(t, p, k, s), p, k)
  }

  lemma {:induction false} SubInsertUpShape(t: Tree, p: nat, k: nat, s: Sub)
    requires Editable(t, p, k)
    ensures SubAt(SubInsertUp(t, p, k, s), p, k + 1)
  {
    var (g, at) := (t.grps[p], t.grps[p].subs[k]);
    var subs := UpdRel(InsertAt(g.subs, k, s), k, at.abs, at.rel);
    var grps := t.grps[p := WithSubs(g, subs)];
    UpdFromKeepsSubCount(grps, p, g.abs, g.abs % BLOCK_SIZE, false);
  }

  lemma {:induction false} UpdFromKeepsSubCount(grps: seq<Grp>, i: nat, abs: int, rel: int, soffs: bool)
    ensures var r := UpdFrom(grps, i, abs, rel, soffs);
            |r| == |grps| && forall k :: 0 <= k < |grps| ==> |r[k].subs| == |grps[k].subs|
    decreases |grps| - i
  {
    if i < |grps| {
      var g := Moved(grps[i], abs, rel, i, soffs);
      UpdFromKeepsSubCount(grps[i := g], i + 1, abs + grps[i].datSz, rel + grps[i].datSz, soffs);
    }
  }

  /** Paste of a sub-group hands the replaced sub-group's own absolute offset to the parent update. */
  function SubPaste(t: Tree, p: nat, k: nat, s: Sub): Tree
    requires Editable(t, p, k)
  {
    var (g, at) := (t.grps[p], t.grps[p].subs[k]);
    var subs := g.subs[k := s.(abs := at.abs, rel := at.rel, idx := k)];
    Propagate(t, p, WithSubs(g, subs), at.abs, true)
  }
}
