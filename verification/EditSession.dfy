/** A whole session: parse a block, edit it, assemble it, parse the result. */
module EditSession {
  import opened Bytes
  import opened GroupTree
  import opened GroupContent
  import opened GroupEdits
  import opened GroupRuns
  import opened GroupShift
  import opened BlockSplit
  import opened DataBlocks
  import opened Assembler
  import opened CeaImage
  import opened CeaParser
  import opened CeaTiling
  import opened RoundTrip
  import opened EditRoundTrip

  /** Inserted groups parse by themselves; sub-groups are edited in audio and video blocks only, and
      inserted ones are well-formed. */
  predicate Fitting(t: Tree, op: Op) {
    && (op.InsertAbove? || op.InsertBelow? || op.PasteOver? ==> op.g.datSz >= 0 && Sane(Strip(op.g)))
    && (IsSubOp(op) ==> op.p < |t.grps| && AvTid(t.grps[op.p].tid))
    && (op.SubInsertAbove? || op.SubInsertBelow? ==>
          var tid := t.grps[op.p].tid; WellFormedSub(KindOf(tid), tid, StripSub(op.s)))
  }

  predicate AllSane(cs: Contents) {
    forall i {:trigger cs[i]} :: 1 <= i < |cs| ==> Sane(cs[i])
  }

  lemma {:induction false} LagKeepsSane(c: GrpC, lag: int)
    requires Sane(c)
    ensures Sane(c.(lag := lag))
  {
    var d := c.(lag := lag);
    if Reparses(c) {
      assert GrpData(d) == GrpData(c);
    }
  }

  // ---------------------------------------------------------------- top-level edits

  lemma {:induction false} FreshSane(cs: Contents, i: nat)
    requires AllSane(cs)
    ensures AllSane(Fresh(cs, i))
    ensures cs != [] && i >= 1 ==> Fresh(cs, i)[0] == cs[0]
  {
    var r := Fresh(cs, i);
    forall k {:trigger r[k]} | 1 <= k < |r| ensures Sane(r[k]) {
      assert Sane(cs[k]);
      LagKeepsSane(cs[k], 0);
    }
  }

  lemma {:induction false} InsertSane(cs: Contents, i: nat, c: GrpC)
    requires AllSane(cs) && Sane(c) && 1 <= i <= |cs|
    ensures AllSane(InsertAt(cs, i, c)) && InsertAt(cs, i, c)[0] == cs[0]
  {
    var r := InsertAt(cs, i, c);
    forall k {:trigger r[k]} | 1 <= k < |r| ensures Sane(r[k]) {
      if k != i { assert Sane(cs[if k < i then k else k - 1]); }
    }
  }

  lemma {:induction false} RemoveSane(cs: Contents, i: nat)
    requires AllSane(cs) && 1 <= i < |cs|
    ensures AllSane(RemoveAt(cs, i)) && RemoveAt(cs, i)[0] == cs[0]
  {
    var r := RemoveAt(cs, i);
    forall k {:trigger r[k]} | 1 <= k < |r| ensures Sane(r[k]) {
      assert Sane(cs[if k < i then k else k + 1]);
    }
  }

  lemma {:induction false} SwapSane(cs: Contents, i: nat)
    requires AllSane(cs) && 1 <= i && i + 1 < |cs|
    ensures AllSane(SwapAt(cs, i)) && SwapAt(cs, i)[0] == cs[0]
  {
    assert Sane(cs[i]) && Sane(cs[i + 1]);
  }

  lemma {:induction false} ReplaceSane(cs: Contents, p: nat, c: GrpC)
    requires AllSane(cs) && 1 <= p < |cs| && Sane(c)
    ensures AllSane(ListReplace(cs, p, c)) && ListReplace(cs, p, c)[0] == cs[0]
  {
    var r := ListReplace(cs, p, c);
    forall k {:trigger r[k]} | 1 <= k < |r| ensures Sane(r[k]) {
      if k != p { LagKeepsSane(cs[k], r[k].lag); }
    }
  }

  // ---------------------------------------------------------------- sub-group edits

  lemma {:induction false} AvBlockIsSane(c: GrpC)
    requires AvTid(c.tid) && Sane(c)
    ensures AvSane(c)
  {
    if Reparses(c) { AvReparsed(c); }
  }

  lemma {:induction false} WithSubsSane(c: GrpC, subs: seq<SubC>)
    requires AvSane(c) && WellFormedSubs(KindOf(c.tid), c.tid, subs) && IsDbc(WithSubsC(c, subs))
    ensures AvSane(WithSubsC(c, subs))
  {
    HeaderByte(TagCode(c.inst[0]), SubStart(subs, |subs|));
  }

  lemma {:induction false} InsertFormed(k: Kind, tid: Tid, subs: seq<SubC>, i: nat, s: SubC)
    requires WellFormedSubs(k, tid, subs) && WellFormedSub(k, tid, s) && i <= |subs|
    ensures WellFormedSubs(k, tid, InsertAt(subs, i, s))
  {
  }

  lemma {:induction false} RemoveFormed(k: Kind, tid: Tid, subs: seq<SubC>, i: nat)
    requires WellFormedSubs(k, tid, subs) && i < |subs|
    ensures WellFormedSubs(k, tid, RemoveAt(subs, i))
  {
  }

  lemma {:induction false} SwapSubsSane(c: GrpC, i: nat)
    requires AvSane(c) && i + 1 < |c.subs|
    ensures AvSane(c.(subs := SwapAt(c.subs, i)))
  {
    PayloadSwap(c.subs, i, |c.subs|);
  }

  /** The contents of the block an edit of its sub-groups leaves behind. */
  lemma {:induction false} ReplacedBlock(cs: Contents, p: nat, c: GrpC)
    requires 1 <= p < |cs| && Sound(ListReplace(cs, p, c)) && AvTid(c.tid)
    ensures IsDbc(c)
  {
    assert ListReplace(cs, p, c)[p] == c && IsBlock(c);
  }

  lemma {:induction false} SubInsertKeeps(cs: Contents, p: nat, k: nat, s: SubC)
    requires AllSane(cs) && 1 <= p < |cs| && HasHeader(cs[p]) && k <= |cs[p].subs| && AvTid(cs[p].tid)
    requires WellFormedSub(KindOf(cs[p].tid), cs[p].tid, s) && Sound(ListSubInsert(cs, p, k, s))
    ensures AllSane(ListSubInsert(cs, p, k, s)) && ListSubInsert(cs, p, k, s)[0] == cs[0]
  {
    var subs := InsertAt(cs[p].subs, k, s);
    assert Sane(cs[p]);
    AvBlockIsSane(cs[p]);
    InsertFormed(KindOf(cs[p].tid), cs[p].tid, cs[p].subs, k, s);
    ReplacedBlock(cs, p, WithSubsC(cs[p], subs));
    WithSubsSane(cs[p], subs);
    ReplaceSane(cs, p, WithSubsC(cs[p], subs));
  }

  lemma {:induction false} SubCutKeeps(cs: Contents, p: nat, k: nat)
    requires AllSane(cs) && SubIn(cs, p, k) && AvTid(cs[p].tid) && Sound(ListSubCut(cs, p, k))
    ensures AllSane(ListSubCut(cs, p, k)) && ListSubCut(cs, p, k)[0] == cs[0]
  {
    var subs := RemoveAt(cs[p].subs, k);
    assert Sane(cs[p]);
    AvBlockIsSane(cs[p]);
    RemoveFormed(KindOf(cs[p].tid), cs[p].tid, cs[p].subs, k);
    ReplacedBlock(cs, p, WithSubsC(cs[p], subs));
    WithSubsSane(cs[p], subs);
    ReplaceSane(cs, p, WithSubsC(cs[p], subs));
  }

  lemma {:induction false} SubMoveKeeps(cs: Contents, p: nat, k: nat)
    requires AllSane(cs) && SubIn(cs, p, k + 1) && AvTid(cs[p].tid)
    ensures AllSane(ListSubMoveDn(cs, p, k)) && ListSubMoveDn(cs, p, k)[0] == cs[0]
  {
    assert Sane(cs[p]);
    AvBlockIsSane(cs[p]);
    SwapSubsSane(cs[p], k);
  }

  // ---------------------------------------------------------------- one edit, then runs

  lemma {:induction false} InsUpKeeps(cs: Contents, op: Op)
    requires Good(cs) && AllSane(cs) && Allowed(Render(cs), op) && Fitting(Render(cs), op) && op.InsertAbove?
    ensures ListAllowed(cs, op) && AllSane(ListApply(cs, op))
    ensures ListApply(cs, op) != [] && ListApply(cs, op)[0] == cs[0]
  {
    InsUpStep(cs, op.i, op.g);
    InsertSane(cs, op.i, Strip(op.g));
    FreshSane(InsertAt(cs, op.i, Strip(op.g)), op.i);
  }

  lemma {:induction false} InsDnKeeps(cs: Contents, op: Op)
    requires Good(cs) && AllSane(cs) && Allowed(Render(cs), op) && Fitting(Render(cs), op) && op.InsertBelow?
    ensures ListAllowed(cs, op) && AllSane(ListApply(cs, op))
    ensures ListApply(cs, op) != [] && ListApply(cs, op)[0] == cs[0]
  {
    InsDnStep(cs, op.i, op.g);
    InsertSane(cs, op.i + 1, Strip(op.g));
    FreshSane(InsertAt(cs, op.i + 1, Strip(op.g)), if op.i + 1 < |cs| then op.i + 1 else op.i);
  }

  lemma {:induction false} PasteKeeps(cs: Contents, op: Op)
    requires Good(cs) && AllSane(cs) && Allowed(Render(cs), op) && Fitting(Render(cs), op) && op.PasteOver?
    ensures ListAllowed(cs, op) && AllSane(ListApply(cs, op))
    ensures ListApply(cs, op) != [] && ListApply(cs, op)[0] == cs[0]
  {
    PasteStep(cs, op.i, op.g);
    FreshSane(cs[op.i := Strip(op.g)], op.i);
  }

  lemma {:induction false} CutKeeps(cs: Contents, op: Op)
    requires Good(cs) && AllSane(cs) && Allowed(Render(cs), op) && Fitting(Render(cs), op) && op.Remove?
    ensures ListAllowed(cs, op) && AllSane(ListApply(cs, op))
    ensures ListApply(cs, op) != [] && ListApply(cs, op)[0] == cs[0]
  {
    CutStep(cs, op.i);
    RemoveSane(cs, op.i);
    FreshSane(RemoveAt(cs, op.i), op.i);
  }

  lemma {:induction false} MoveDnSane(cs: Contents, i: nat)
    requires AllSane(cs) && 1 <= i && i + 1 < |cs|
    ensures AllSane(ListMoveDn(cs, i)) && ListMoveDn(cs, i)[0] == cs[0]
  {
    SwapSane(cs, i);
    FreshSane(SwapAt(cs, i), i);
  }

  lemma {:induction false} MoveKeeps(cs: Contents, i: nat)
    requires Good(cs) && AllSane(cs) && (CanMoveDn(Render(cs), i) || CanMoveUp(Render(cs), i + 1))
    ensures i + 1 < |cs| && AllSane(ListMoveDn(cs, i)) && ListMoveDn(cs, i)[0] == cs[0]
  {
    MoveGuards(cs, i);
    MoveDnSane(cs, i);
  }

  lemma {:induction false} SubInsKeeps(cs: Contents, op: Op)
    requires Good(cs) && AllSane(cs) && Allowed(Render(cs), op) && Fitting(Render(cs), op)
        && (op.SubInsertAbove? || op.SubInsertBelow?)
    ensures ListAllowed(cs, op) && AllSane(ListApply(cs, op))
    ensures ListApply(cs, op) != [] && ListApply(cs, op)[0] == cs[0]
  {
    SubInsStep(cs, op.p, op.k, op.s, op.SubInsertAbove?);
    KindByType(cs, op.p);
    SubInsertKeeps(cs, op.p, if op.SubInsertAbove? then op.k else op.k + 1, StripSub(op.s));
  }

  lemma {:induction false} SubCutKept(cs: Contents, op: Op)
    requires Good(cs) && AllSane(cs) && Allowed(Render(cs), op) && Fitting(Render(cs), op) && op.SubRemove?
    ensures ListAllowed(cs, op) && AllSane(ListApply(cs, op))
    ensures ListApply(cs, op) != [] && ListApply(cs, op)[0] == cs[0]
  {
    SubCutStep(cs, op.p, op.k);
    KindByType(cs, op.p);
    SubCutKeeps(cs, op.p, op.k);
  }

  lemma {:induction false} SubMoveKept(cs: Contents, op: Op)
    requires Good(cs) && AllSane(cs) && Allowed(Render(cs), op) && Fitting(Render(cs), op)
        && (op.SubRaise? || op.SubLower?)
    ensures ListAllowed(cs, op) && AllSane(ListApply(cs, op))
    ensures ListApply(cs, op) != [] && ListApply(cs, op)[0] == cs[0]
  {
    var k := if op.SubRaise? then op.k - 1 else op.k;
    SubMoveStep(cs, op.p, k);
    KindByType(cs, op.p);
    SubMoveKeeps(cs, op.p, k);
  }

  /** Every edit of the session is guarded, with a consistent source, and fitting. */
  predicate FittingRun(t: Tree, ops: seq<Op>)
    decreases |ops|
  {
    ops == [] || (Possible(t, ops[0]) && Fitting(t, ops[0]) && FittingRun(Apply(t, ops[0]), ops[1..]))
  }

  lemma {:induction false} FittingLooks(t: Tree, op: Op)
    ensures Fitting(Shift(t), op) <==> Fitting(t, op)
  {
    ShiftLooks(t);
  }

  /** Audio and video blocks have a header part. */
  lemma {:induction false} FittingInScope(cs: Contents, op: Op)
    requires Ready(cs) && Possible(Render(cs), op) && Fitting(Render(cs), op) && IsSubOp(op)
    ensures InScope(Render(cs), op)
  {
    KindByType(cs, op.p);
    assert Sane(cs[op.p]);
    AvBlockIsSane(cs[op.p]);
  }

  lemma {:induction false} LoneReady(cs: Contents, op: Op)
    requires Ready(cs) && |cs| == 1 && Possible(Render(cs), op) && Fitting(Render(cs), op)
    ensures ListAllowed(cs, op) && Ready(ListApply(cs, op)) && ListApply(cs, op)[0] == cs[0]
  {
    LoneOnlyInserts(cs, op);
    InsertDnGuardExact(cs, 0, op.g);
    LoneGood(cs, Strip(op.g));
    LagKeepsSane(Strip(op.g), 0);
  }

  lemma {:induction false} StepKeeps(cs: Contents, op: Op)
    requires Ready(cs) && Allowed(Render(cs), op) && Fitting(Render(cs), op)
    ensures ListAllowed(cs, op) && Ready(ListApply(cs, op)) && ListApply(cs, op)[0] == cs[0]
  {
    StepRefines(cs, op);
    if op.InsertAbove? { InsUpKeeps(cs, op); }
    else if op.InsertBelow? { InsDnKeeps(cs, op); }
    else if op.PasteOver? { PasteKeeps(cs, op); }
    else if op.Remove? { CutKeeps(cs, op); }
    else if op.Lower? { MoveKeeps(cs, op.i); }
    else if op.Raise? { MoveKeeps(cs, op.i - 1); }
    else if op.SubRemove? { SubCutKept(cs, op); }
    else if op.SubRaise? || op.SubLower? { SubMoveKept(cs, op); }
    else { SubInsKeeps(cs, op); }
  }

  lemma {:induction false} StepReady(cs: Contents, op: Op, shifted: bool)
    requires Ready(cs) && Possible(ShiftIf(shifted, Render(cs)), op) && Fitting(ShiftIf(shifted, Render(cs)), op)
    ensures ListAllowed(cs, op) && Ready(ListApply(cs, op)) && ListApply(cs, op)[0] == cs[0]
    ensures Apply(ShiftIf(shifted, Render(cs)), op) == ShiftIf(shifted || |cs| == 1, Render(ListApply(cs, op)))
  {
    PossibleShifts(Render(cs), op);
    FittingLooks(Render(cs), op);
    if IsSubOp(op) { FittingInScope(cs, op); }
    if |cs| == 1 { LoneReady(cs, op); } else { StepKeeps(cs, op); }
    StepShifts(cs, op, shifted);
  }

  /** A session keeps the header and leaves only groups that can be read again, or emptied blocks; the
      tree is shifted once the header stood alone before an edit. */
  lemma {:induction false} SessionReady(cs: Contents, ops: seq<Op>, shifted: bool)
    requires Ready(cs) && FittingRun(ShiftIf(shifted, Render(cs)), ops)
    ensures PossibleRun(ShiftIf(shifted, Render(cs)), ops) && ListAllowedRun(cs, ops) && Ready(ListRun(cs, ops))
    ensures ListRun(cs, ops)[0] == cs[0]
    ensures Run(ShiftIf(shifted, Render(cs)), ops) == ShiftIf(shifted || EverLone(cs, ops), Render(ListRun(cs, ops)))
    decreases |ops|
  {
    if ops != [] {
      StepReady(cs, ops[0], shifted);
      SessionReady(ListApply(cs, ops[0]), ops[1..], shifted || |cs| == 1);
    }
  }

  // ---------------------------------------------------------------- the session

  lemma {:induction false} ParsedReady(ext: seq<Byte>, cs: Contents)
    requires IsExt(ext) && 4 <= ext[2] <= CEA_SPACE && ParseCea(ext) == Some(cs)
    ensures Ready(cs)
  {
    var k := ParsedFacts(ext, cs);
    ParsedReparse(ext, cs);
    ReparsingSurvives(cs);
  }

  lemma {:induction false} WrittenHolds(buf: seq<Byte>, cs: Contents, chk: Byte)
    requires |buf| == BUFFER_SIZE && Sound(cs)
    ensures Holds(Write(buf, BLOCK_SIZE, Image(cs))[BLOCK_SIZE + 127 := chk][BLOCK_SIZE..], cs)
  {
    var w := Write(buf, BLOCK_SIZE, Image(cs))[BLOCK_SIZE + 127 := chk][BLOCK_SIZE..];
    assert w[..CEA_SPACE] == Image(cs)[..CEA_SPACE];
  }

  /** The same type, index, offsets, sizes, sub-groups and data; only the absolute offsets of
      sub-groups are left out, which lag behind in an edited tree. */
  predicate SameGroup(a: Grp, b: Grp) {
    && a.tid == b.tid && a.idx == b.idx && a.abs == b.abs && a.rel == b.rel && a.hdrSz == b.hdrSz && a.datSz == b.datSz
    && a.used == b.used && a.free == b.free && |a.subs| == |b.subs|
    && forall k {:trigger b.subs[k]} :: 0 <= k < |b.subs| ==> a.subs[k].(abs := b.subs[k].abs) == b.subs[k]
  }

  predicate SameData(a: Grp, b: Grp) {
    && |a.inst| == |b.inst| == 32 && 0 <= DataSize(a) == DataSize(b) <= 32
    && forall k {:trigger b.inst[k]} :: 0 <= k < DataSize(a) && (a.tid == CHD ==> k != 2) ==> a.inst[k] == b.inst[k]
  }

  /** The same groups with the same data, of the header all bytes but the DTD offset; and the same
      counters, which parsing leaves alone if the header is all there is. */
  predicate SameTree(r: Tree, t: Tree) {
    && |r.grps| == |t.grps| && (|t.grps| > 1 ==> r.used == t.used && r.free == t.free)
    && forall i {:trigger t.grps[i]} :: 0 <= i < |t.grps| ==>
      SameGroup(r.grps[i], t.grps[i]) && SameData(r.grps[i], t.grps[i])
  }

  lemma {:induction false} AlikeWidth(a: GrpC, b: GrpC)
    requires Alike(a, b)
    ensures Width(a) == Width(b) && Total(a) == Total(b) && Payload(a) == Payload(b)
  {
  }

  lemma {:induction false} AlikeStarts(r: Contents, cs: Contents, n: nat)
    requires Sound(cs) && SameGroups(Some(r), cs) && n <= |cs|
    ensures Start(r, n) == Start(cs, n)
  {
    if n > 0 {
      AlikeStarts(r, cs, n - 1);
      if n > 1 { AlikeWidth(r[n - 1], cs[n - 1]); }
    }
  }

  lemma {:induction false} AlikeRendered(a: GrpC, b: GrpC, at: nat, i: nat)
    requires Alike(a, b)
    ensures SameGroup(RenderGrp(a, at, i), RenderGrp(b, at, i)) && SameData(RenderGrp(a, at, i), RenderGrp(b, at, i))
  {
    AlikeWidth(a, b);
    var n := if a.hdrSz == 0 then a.flat else a.hdrSz;
    assert GrpData(a)[..n] == a.inst[..n] && GrpData(b)[..n] == b.inst[..n];
    forall k {:trigger b.inst[k]} | 0 <= k < n ensures a.inst[k] == b.inst[k] {
      assert a.inst[..n][k] == b.inst[..n][k];
    }
  }

  lemma {:induction false} SameRendered(r: Contents, cs: Contents)
    requires Sound(cs) && SameGroups(Some(r), cs)
    ensures SameTree(Render(r), Render(cs))
  {
    var (a, b) := (RenderGrps(r), RenderGrps(cs));
    AlikeStarts(r, cs, |cs|);
    forall i {:trigger b[i]} | 0 <= i < |cs| ensures SameGroup(a[i], b[i]) && SameData(a[i], b[i]) {
      assert a[i] == RenderAt(r, i) && b[i] == RenderAt(cs, i);
      AlikeStarts(r, cs, i);
      if i > 0 { AlikeRendered(r[i], cs[i], Start(cs, i), i); }
    }
  }

  /** What comes back after assembly of t. */
  predicate Restored(buf: seq<Byte>, t: Tree, survives: bool, chk: Byte, stale: Tree)
    requires |buf| == BUFFER_SIZE && Assemblable(t.grps)
  {
    var r := AssembleCea(buf, t.grps);
    && (survives ==> r.0)
    && (r.0 ==> var b := ParsedTree(r.1[BLOCK_SIZE + 127 := chk][BLOCK_SIZE..], stale);
                survives <==> b.Some? && SameTree(b.value, t))
  }

  lemma {:induction false} ComesBack(ext: seq<Byte>, cs: Contents, stale: Tree)
    requires Ready(cs) && Holds(ext, cs) && Survives(cs)
    ensures ParsedTree(ext, stale).Some? && SameTree(ParsedTree(ext, stale).value, Render(cs))
  {
    SurvivorsReparse(ext, cs);
    var r := ParseCea(ext).value;
    SameRendered(r, cs);
    AlikeStarts(r, cs, |cs|);
    ParsedNear(ext, stale);
    OffsetHeld(ext, cs);
    if |cs| > 1 { DtdsFrom(cs, |cs| - 1); }
  }
}
