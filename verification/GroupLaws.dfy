/** Laws that relate several edits: what undoes what, which cached offsets go stale, and what a
    sub-group paste does to its parent. */
module GroupLaws {
  import opened Bytes
  import opened GroupTree
  import opened GroupContent
  import opened GroupEdits
  import opened GroupRuns
  import opened GroupShift

  /** The absolute offsets of the sub-groups agree with their group's. */
  predicate InStep(g: Grp) {
    forall k {:trigger g.subs[k]} :: 0 <= k < |g.subs| ==> g.subs[k].abs == g.abs + g.subs[k].rel
  }

  predicate InStepFrom(t: Tree, i: nat) {
    forall k {:trigger t.grps[k]} :: i <= k < |t.grps| ==> InStep(t.grps[k])
  }

  lemma {:induction false} InStepIsNoLag(c: GrpC, at: nat, i: nat)
    ensures InStep(RenderGrp(c, at, i)) <==> c.subs == [] || c.lag == 0
  {
    var g := RenderGrp(c, at, i);
    if c.subs != [] { assert g.subs[0] == RenderSub(c, BLOCK_SIZE + at, 0); }
  }

  lemma {:induction false} NoLagRendersSame(c: GrpC, at: nat, i: nat)
    ensures RenderGrp(c, at, i) == RenderGrp(c.(lag := 0), at, i) <==> InStep(RenderGrp(c, at, i))
  {
    var (g, h) := (RenderGrp(c, at, i), RenderGrp(c.(lag := 0), at, i));
    InStepIsNoLag(c, at, i);
    if c.subs != [] {
      assert g.subs[0] == RenderSub(c, BLOCK_SIZE + at, 0) && h.subs[0] == RenderSub(c.(lag := 0), BLOCK_SIZE + at, 0);
    } else {
      assert g.subs == h.subs;
    }
  }

  lemma {:induction false} FreshAt(cs: Contents, i: nat, k: nat)
    requires k < |cs|
    ensures Render(Fresh(cs, i)).grps[k] == RenderGrp(Fresh(cs, i)[k], Start(cs, k), k)
    ensures Render(cs).grps[k] == RenderGrp(cs[k], Start(cs, k), k)
  {
    StartFresh(cs, i, k);
    assert RenderGrps(Fresh(cs, i))[k] == RenderAt(Fresh(cs, i), k);
    assert RenderGrps(cs)[k] == RenderAt(cs, k);
  }

  /** Refreshing changes nothing exactly when no sub-group offset from i on is stale. */
  lemma {:induction false} FreshIsSame(cs: Contents, i: nat)
    ensures Render(Fresh(cs, i)) == Render(cs) <==> InStepFrom(Render(cs), i)
  {
    var (t, u) := (Render(cs), Render(Fresh(cs, i)));
    StartFresh(cs, i, |cs|);
    forall k | 0 <= k < |cs| ensures t.grps[k] == u.grps[k] <==> k < i || InStep(t.grps[k]) {
      FreshAt(cs, i, k);
      NoLagRendersSame(cs[k], Start(cs, k), k);
    }
    if InStepFrom(t, i) {
      assert t.grps == u.grps;
    } else {
      var k :| i <= k < |t.grps| && !InStep(t.grps[k]);
      assert t.grps[k] != u.grps[k];
    }
  }

  /** The first group whose offsets a top-level edit refreshes. */
  function EditedFrom(cs: Contents, op: Op): nat
    requires ListAllowed(cs, op) && !IsSubOp(op)
  {
    match op
    case InsertBelow(i, g) => if i + 1 < |cs| then i + 1 else i
    case Raise(i) => i - 1
    case _ => op.i
  }

  lemma {:induction false} EditedIsFresh(cs: Contents, op: Op, k: nat)
    requires ListAllowed(cs, op) && !IsSubOp(op) && EditedFrom(cs, op) <= k < |ListApply(cs, op)|
    ensures ListApply(cs, op)[k].lag == 0
  {
  }

  lemma {:induction false} ShiftKeepsStep(g: Grp)
    ensures InStep(ShiftGrp(g)) <==> InStep(g)
  {
    var h := ShiftGrp(g);
    if InStep(h) {
      forall k {:trigger g.subs[k]} | 0 <= k < |g.subs| ensures g.subs[k].abs == g.abs + g.subs[k].rel {
        assert h.subs[k] == g.subs[k].(abs := g.subs[k].abs + 1);
      }
    }
  }

  /** A top-level edit, also below a lone header, leaves the sub-groups of every block from its position
      on in step with their block. */
  lemma {:induction false} TopEditInStep(cs: Contents, op: Op, shifted: bool)
    requires Good(cs) && Possible(ShiftIf(shifted, Render(cs)), op) && !IsSubOp(op)
    ensures ListAllowed(cs, op) && InStepFrom(Apply(ShiftIf(shifted, Render(cs)), op), EditedFrom(cs, op))
  {
    StepShifts(cs, op, shifted);
    var (ds, i) := (ListApply(cs, op), EditedFrom(cs, op));
    var t := Render(ds);
    forall k {:trigger t.grps[k]} | i <= k < |ds| ensures InStep(t.grps[k]) && InStep(Shift(t).grps[k]) {
      EditedIsFresh(cs, op, k);
      InStepIsNoLag(ds[k], Start(ds, k), k);
      assert t.grps[k] == RenderAt(ds, k) && Shift(t).grps[k] == ShiftAt(t.grps, k);
      ShiftKeepsStep(t.grps[k]);
    }
  }

  // ---------------------------------------------------------------- undo

  /** MoveUp(i + 1) undoes MoveDn(i): the whole state comes back exactly when no sub-group offset
      from i on was stale; otherwise those offsets are refreshed and all else comes back. */
  lemma {:induction false} MoveUndo(cs: Contents, i: nat)
    requires Good(cs) && CanMoveDn(Render(cs), i)
    ensures var t := Render(cs);
            |MoveDn(t, i).grps| == |t.grps| && CanMoveUp(MoveDn(t, i), i + 1)
            && MoveUp(MoveDn(t, i), i + 1) == Render(Fresh(cs, i))
            && (MoveUp(MoveDn(t, i), i + 1) == t <==> InStepFrom(t, i))
  {
    MoveGuards(cs, i);
    MoveStep(cs, i);
    MovedBack(cs, i);
    FreshIsSame(cs, i);
  }

  lemma {:induction false} MovedBack(cs: Contents, i: nat)
    requires Good(cs) && 1 <= i && i + 1 < |cs| && (IsDtd(cs[i]) <==> IsDtd(cs[i + 1])) && Good(ListMoveDn(cs, i))
    ensures var t := Render(ListMoveDn(cs, i));
            CanMoveUp(t, i + 1) && MoveUp(t, i + 1) == Render(Fresh(cs, i)) && |t.grps| == |cs|
  {
    var mid := ListMoveDn(cs, i);
    SwappedGuard(cs, i);
    MoveDnRenders(mid, i);
    assert ListMoveDn(mid, i) == Fresh(cs, i);
  }

  lemma {:induction false} SwappedGuard(cs: Contents, i: nat)
    requires Good(cs) && 1 <= i && i + 1 < |cs| && (IsDtd(cs[i]) <==> IsDtd(cs[i + 1])) && Good(ListMoveDn(cs, i))
    ensures CanMoveUp(Render(ListMoveDn(cs, i)), i + 1)
  {
    var mid := ListMoveDn(cs, i);
    KindByType(mid, i);
    KindByType(mid, i + 1);
    assert mid[i] == cs[i + 1].(lag := 0) && mid[i + 1] == cs[i].(lag := 0);
  }

  lemma {:induction false} StripRendered(c: GrpC, at: nat, i: nat)
    requires IsBlock(c)
    ensures var g := RenderGrp(c, at, i);
            Source(g) && Strip(g) == c.(lag := 0)
  {
    var g := RenderGrp(c, at, i);
    assert Strip(g).subs == c.subs;
    LooseAnyLag(c, at, i);
  }

  /** InsertUp(i) of the group just cut undoes the cut, whenever a group followed it. */
  lemma {:induction false} CutUndo(cs: Contents, i: nat)
    requires Good(cs) && CanCut(Render(cs), i) && i + 1 < |cs|
    ensures var t := Render(cs);
            |Cut(t, i).grps| > i
            && InsertUp(Cut(t, i), i, t.grps[i]) == Render(Fresh(cs, i))
            && (InsertUp(Cut(t, i), i, t.grps[i]) == t <==> InStepFrom(t, i))
  {
    CutStep(cs, i);
    var mid := ListCut(cs, i);
    KindByType(cs, i);
    StripRendered(cs[i], Start(cs, i), i);
    CutLeavesRoom(cs, i);
    InsertUpRenders(mid, i, RenderAt(cs, i));
    CutThenInsert(cs, i);
    FreshIsSame(cs, i);
  }

  lemma {:induction false} CutLeavesRoom(cs: Contents, i: nat)
    requires Sound(cs) && 1 <= i < |cs|
    ensures Room(ListCut(cs, i), cs[i].(lag := 0))
  {
    CutSize(cs, i);
    LagKeepsWidth(cs[i], 0);
  }

  lemma {:induction false} LagKeepsWidth(c: GrpC, lag: int)
    ensures Width(c.(lag := lag)) == Width(c)
  {
  }

  lemma {:induction false} CutThenInsert(cs: Contents, i: nat)
    requires i < |cs|
    ensures ListInsertUp(ListCut(cs, i), i, cs[i].(lag := 0)) == Fresh(cs, i)
  {
    var (a, b) := (ListInsertUp(ListCut(cs, i), i, cs[i].(lag := 0)), Fresh(cs, i));
    forall k {:trigger a[k]} | 0 <= k < |cs| ensures a[k] == b[k] {
      if k < i { assert RemoveAt(cs, i)[k] == cs[k]; }
      if k > i { assert RemoveAt(cs, i)[k - 1] == cs[k]; }
    }
  }

  // ---------------------------------------------------------------- stale offsets

  /** A sub-group edit replaces block p and keeps its lag. */
  lemma {:induction false} SubOpReplaces(cs: Contents, op: Op)
    requires Good(cs) && ListAllowed(cs, op) && IsSubOp(op)
    ensures var r := ListApply(cs, op);
            r == ListReplace(cs, op.p, r[op.p]) && r[op.p].lag == cs[op.p].lag
  {
    var r := ListApply(cs, op);
    if op.SubRaise? || op.SubLower? {
      PayloadSwap(cs[op.p].subs, if op.SubRaise? then op.k - 1 else op.k, |cs[op.p].subs|);
      assert r == ListReplace(cs, op.p, r[op.p]);
    }
  }

  /** Every other block keeps its sub-groups as they are, stale or not; the blocks behind p move by
      what p grew. */
  lemma {:induction false} SubEditLeavesOthers(cs: Contents, op: Op, q: nat)
    requires Good(cs) && Allowed(Render(cs), op) && IsSubOp(op) && q < |cs| && q != op.p
    ensures var (t, u) := (Render(cs), Apply(Render(cs), op));
            |u.grps| == |cs| && u.grps[q].subs == t.grps[q].subs
            && u.grps[q].abs == t.grps[q].abs + if q < op.p then 0 else u.grps[op.p].datSz - t.grps[op.p].datSz
  {
    StepRefines(cs, op);
    SubOpReplaces(cs, op);
    ReplacedOthers(cs, op.p, ListApply(cs, op)[op.p], q);
  }

  lemma {:induction false} ReplacedOthers(cs: Contents, p: nat, c: GrpC, q: nat)
    requires Sound(cs) && 1 <= p < |cs| && q < |cs| && q != p && Sound(ListReplace(cs, p, c))
    ensures var (t, u) := (Render(cs), Render(ListReplace(cs, p, c)));
            u.grps[q].subs == t.grps[q].subs
            && u.grps[q].abs == t.grps[q].abs + if q < p then 0 else u.grps[p].datSz - t.grps[p].datSz
  {
    var r := ListReplace(cs, p, c);
    ReplaceStart(cs, p, c, q);
    RenderedAbs(cs, p);
    RenderedAbs(r, p);
    BlockWidth(cs[p]);
    BlockWidth(r[p]);
    assert RenderGrps(cs)[q] == RenderAt(cs, q) && RenderGrps(r)[q] == RenderAt(r, q);
    SameLaggedSubs(cs[q], r[q], Start(cs, q), Start(r, q), q);
  }

  /** A group that moved while the offsets of its sub-groups stayed. */
  lemma {:induction false} SameLaggedSubs(c: GrpC, d: GrpC, at: nat, to: nat, q: nat)
    requires d == c.(lag := c.lag + at - to)
    ensures RenderGrp(d, to, q).subs == RenderGrp(c, at, q).subs
  {
  }

  /** The edited block stays in step, or out of step, as it was. */
  lemma {:induction false} SubEditKeepsStep(cs: Contents, op: Op)
    requires Good(cs) && Allowed(Render(cs), op) && IsSubOp(op)
    ensures var (t, u) := (Render(cs), Apply(Render(cs), op));
            |u.grps| == |t.grps| > op.p
            && (t.grps[op.p].subs != [] && u.grps[op.p].subs != [] ==>
                  (InStep(u.grps[op.p]) <==> InStep(t.grps[op.p])))
  {
    StepRefines(cs, op);
    SubOpReplaces(cs, op);
    var r := ListApply(cs, op);
    KindByType(cs, op.p);
    KindByType(r, op.p);
    InStepIsNoLag(cs[op.p], Start(cs, op.p), op.p);
    InStepIsNoLag(r[op.p], Start(r, op.p), op.p);
  }

  /** A later block that was in step is in step afterwards exactly when the edited block kept its
      size: deleting or inserting sub-groups leaves all later ones stale. */
  lemma {:induction false} LaterBlocksGoStale(cs: Contents, op: Op, q: nat)
    requires Good(cs) && Allowed(Render(cs), op) && IsSubOp(op) && op.p < q < |cs|
    requires cs[q].subs != [] && InStep(Render(cs).grps[q])
    ensures var (t, u) := (Render(cs), Apply(Render(cs), op));
            |u.grps| == |t.grps| && (InStep(u.grps[q]) <==> u.grps[op.p].datSz == t.grps[op.p].datSz)
  {
    var (t, u) := (Render(cs), Apply(Render(cs), op));
    SubEditLeavesOthers(cs, op, q);
    KindByType(cs, q);
    var (g, h) := (t.grps[q], u.grps[q]);
    assert g.subs[0].abs == g.abs + g.subs[0].rel && h.subs[0] == g.subs[0];
  }

  // ---------------------------------------------------------------- sub-group paste

  /** Paste of a sub-group puts its own absolute offset into the parent, which is the parent's place
      only if they were equal; of a block in step that is never so. */
  lemma {:induction false} SubPasteMisplaces(cs: Contents, p: nat, k: nat, s: Sub)
    requires Good(cs) && SubIn(cs, p, k)
    ensures Editable(Render(cs), p, k)
    ensures var (t, u) := (Render(cs), SubPaste(Render(cs), p, k, s));
            |u.grps| == |t.grps| && u.grps[p].abs == t.grps[p].subs[k].abs
            && (InStep(t.grps[p]) ==> u.grps[p].abs > t.grps[p].abs)
  {
    RenderedBlock(cs, p, k);
    var (g, at) := (RenderAt(cs, p), RenderSub(cs[p], BLOCK_SIZE + Start(cs, p), k));
    var grps := Render(cs).grps[p := WithSubs(g, g.subs[k := s.(abs := at.abs, rel := at.rel, idx := k)])];
    UpdFromAt(grps, p, at.abs, at.abs % BLOCK_SIZE, true, p);
  }

  // ---------------------------------------------------------------- the stored block length

  /** After an edit that changes the sub-groups the 5-bit length field holds the payload length
      uncut, next to the old tag; with the header byte it spans the block exactly when the header is
      one byte (a two-byte extended header loses the tag byte). */
  lemma {:induction false} StoredLength(cs: Contents, op: Op)
    requires Good(cs) && Allowed(Render(cs), op)
    requires op.SubInsertAbove? || op.SubInsertBelow? || op.SubRemove?
    ensures var (t, u) := (Render(cs), Apply(Render(cs), op));
            |u.grps| == |t.grps| > op.p && |t.grps[op.p].inst| == 32 && |u.grps[op.p].inst| == 32
            && BlkLen(u.grps[op.p].inst[0]) == u.grps[op.p].used
            && TagCode(u.grps[op.p].inst[0]) == TagCode(t.grps[op.p].inst[0])
            && (1 + BlkLen(u.grps[op.p].inst[0]) == u.grps[op.p].datSz <==> t.grps[op.p].hdrSz == 1)
  {
    StepRefines(cs, op);
    var r := ListApply(cs, op);
    KindByType(cs, op.p);
    KindByType(r, op.p);
    var subs := cs[op.p].subs;
    var news := if op.SubRemove? then RemoveAt(subs, op.k)
                else InsertAt(subs, if op.SubInsertAbove? then op.k else op.k + 1, StripSub(op.s));
    assert r[op.p] == WithSubsC(cs[op.p], news);
    LengthWritten(cs[op.p], news, Start(r, op.p), op.p);
  }

  lemma {:induction false} LengthWritten(c: GrpC, news: seq<SubC>, at: nat, p: nat)
    requires HasHeader(c) && IsBlock(WithSubsC(c, news))
    ensures var g := RenderGrp(WithSubsC(c, news), at, p);
            |g.inst| == 32 && BlkLen(g.inst[0]) == g.used && TagCode(g.inst[0]) == TagCode(c.inst[0])
            && (1 + BlkLen(g.inst[0]) == g.datSz <==> c.hdrSz == 1)
  {
    HeaderByte(TagCode(c.inst[0]), SubStart(news, |news|));
  }
}
