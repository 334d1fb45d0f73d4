/** What insertion below a lone header leaves behind: a tree in which every group but the header is
    cached one byte too far.  Later edits keep the shift; only the header alone has none. */
module GroupShift {
  import opened Bytes
  import opened GroupTree
  import opened GroupContent
  import opened GroupEdits
  import opened GroupRuns

  function ShiftSubs(subs: seq<Sub>): (r: seq<Sub>)
    ensures |r| == |subs| && forall k {:trigger r[k]} :: 0 <= k < |r| ==> r[k] == subs[k].(abs := subs[k].abs + 1)
  {
    seq(|subs|, k requires 0 <= k < |subs| => subs[k].(abs := subs[k].abs + 1))
  }

  function ShiftGrp(g: Grp): Grp {
    g.(abs := g.abs + 1, rel := g.rel + 1, subs := ShiftSubs(g.subs))
  }

  function ShiftAt(grps: seq<Grp>, i: nat): Grp
    requires i < |grps|
  {
    if i == 0 then grps[0] else ShiftGrp(grps[i])
  }

  function ShiftGrps(grps: seq<Grp>): (r: seq<Grp>)
    ensures |r| == |grps| && forall i {:trigger r[i]} :: 0 <= i < |r| ==> r[i] == ShiftAt(grps, i)
  {
    seq(|grps|, i requires 0 <= i < |grps| => ShiftAt(grps, i))
  }

  function Shift(t: Tree): Tree { t.(grps := ShiftGrps(t.grps)) }

  // ---------------------------------------------------------------- updates of shifted trees

  /** The same sub-groups, whatever their offsets. */
  predicate SubTwins(hs: seq<Sub>, gs: seq<Sub>) {
    && |hs| == |gs|
    && forall k {:trigger hs[k]} :: 0 <= k < |hs| ==> hs[k].tid == gs[k].tid && hs[k].bytes == gs[k].bytes
  }

  lemma {:induction false} TwinBytes(hs: seq<Sub>, gs: seq<Sub>, n: nat)
    requires SubTwins(hs, gs) && n <= |hs|
    ensures SubBytes(hs, n) == SubBytes(gs, n)
  {
    if n > 0 { TwinBytes(hs, gs, n - 1); }
  }

  lemma {:induction false} UpdRelShiftsAt(hs: seq<Sub>, gs: seq<Sub>, k: nat, abs: int, rel: int, j: nat)
    requires SubTwins(hs, gs) && j < |hs| && (j < k ==> hs[j] == gs[j].(abs := gs[j].abs + 1))
    ensures |UpdRel(hs, k, abs + 1, rel)| == |hs|
    ensures UpdRel(hs, k, abs + 1, rel)[j] == ShiftSubs(UpdRel(gs, k, abs, rel))[j]
  {
    UpdRelAt(hs, k, abs + 1, rel, j);
    UpdRelAt(gs, k, abs, rel, j);
    TwinBytes(hs, gs, j);
    if k <= j { TwinBytes(hs, gs, k); }
  }

  lemma {:induction false} UpdRelShifts(hs: seq<Sub>, gs: seq<Sub>, k: nat, abs: int, rel: int)
    requires SubTwins(hs, gs)
    requires forall j {:trigger hs[j]} :: 0 <= j < k && j < |hs| ==> hs[j] == gs[j].(abs := gs[j].abs + 1)
    ensures UpdRel(hs, k, abs + 1, rel) == ShiftSubs(UpdRel(gs, k, abs, rel))
  {
    var (a, b) := (UpdRel(hs, k, abs + 1, rel), ShiftSubs(UpdRel(gs, k, abs, rel)));
    forall j {:trigger a[j]} | 0 <= j < |a| ensures a[j] == b[j] { UpdRelShiftsAt(hs, gs, k, abs, rel, j); }
    EqualSubs(a, b);
  }

  lemma {:induction false} EqualSubs(a: seq<Sub>, b: seq<Sub>)
    requires |a| == |b| && forall k {:trigger a[k]} :: 0 <= k < |a| ==> a[k] == b[k]
    ensures a == b
  {
  }

  /** Two groups that an update at neighbouring offsets leaves one byte apart. */
  predicate Twin(h: Grp, g: Grp, soffs: bool) {
    && h.(abs := g.abs, rel := g.rel, idx := g.idx, subs := g.subs) == g
    && if soffs then SubTwins(h.subs, g.subs) && (h.subs != [] ==> h.subs[0].rel == g.subs[0].rel)
       else h.subs == ShiftSubs(g.subs)
  }

  lemma {:induction false} SelfTwin(g: Grp)
    ensures Twin(g, g, true) && Twin(ShiftGrp(g), g, true) && Twin(ShiftGrp(g), g, false)
  {
  }

  lemma {:induction false} MovedShifts(h: Grp, g: Grp, abs: int, rel: int, i: nat, soffs: bool)
    requires Twin(h, g, soffs)
    ensures Moved(h, abs + 1, rel + 1, i, soffs) == ShiftGrp(Moved(g, abs, rel, i, soffs))
  {
    if soffs && g.subs != [] {
      var r := g.subs[0].rel;
      UpdRelShifts(h.subs, g.subs, 0, abs + r, r);
      assert abs + 1 + r == abs + r + 1;
    } else {
      assert h.subs == ShiftSubs(g.subs);
    }
  }

  /** hs is gs shifted before i, and made of twins from i on. */
  predicate Twins(hs: seq<Grp>, gs: seq<Grp>, i: nat, soffs: bool) {
    && |hs| == |gs|
    && (forall k {:trigger hs[k]} :: 0 <= k < |hs| && k < i ==> hs[k] == ShiftAt(gs, k))
    && forall k {:trigger hs[k]} :: i <= k < |hs| ==> Twin(hs[k], gs[k], soffs)
  }

  lemma {:induction false} TwinSizes(hs: seq<Grp>, gs: seq<Grp>, i: nat, soffs: bool)
    requires Twins(hs, gs, i, soffs)
    ensures forall k :: 0 <= k < |hs| ==> hs[k].datSz == gs[k].datSz
  {
    forall k | 0 <= k < |hs| ensures hs[k].datSz == gs[k].datSz {
      if k < i { assert hs[k] == ShiftAt(gs, k); } else { assert Twin(hs[k], gs[k], soffs); }
    }
  }

  lemma {:induction false} UpdFromShiftsAt(hs: seq<Grp>, gs: seq<Grp>, i: nat, abs: int, rel: int, soffs: bool, k: nat)
    requires Twins(hs, gs, i, soffs) && 1 <= i && k < |hs|
    ensures UpdFrom(hs, i, abs + 1, rel + 1, soffs)[k] == ShiftAt(UpdFrom(gs, i, abs, rel, soffs), k)
  {
    UpdFromAt(hs, i, abs + 1, rel + 1, soffs, k);
    UpdFromAt(gs, i, abs, rel, soffs, k);
    if k < i {
      assert hs[k] == ShiftAt(gs, k);
    } else {
      TwinSizes(hs, gs, i, soffs);
      DatToSame(hs, gs, k);
      DatToSame(hs, gs, i);
      assert Twin(hs[k], gs[k], soffs);
      var d := DatTo(gs, k) - DatTo(gs, i);
      MovedShifts(hs[k], gs[k], abs + d, rel + d, k, soffs);
    }
  }

  lemma {:induction false} UpdFromShifts(hs: seq<Grp>, gs: seq<Grp>, i: nat, abs: int, rel: int, soffs: bool)
    requires Twins(hs, gs, i, soffs) && 1 <= i
    ensures UpdFrom(hs, i, abs + 1, rel + 1, soffs) == ShiftGrps(UpdFrom(gs, i, abs, rel, soffs))
  {
    var (a, b) := (UpdFrom(hs, i, abs + 1, rel + 1, soffs), ShiftGrps(UpdFrom(gs, i, abs, rel, soffs)));
    forall k {:trigger a[k]} | 0 <= k < |a| ensures a[k] == b[k] { UpdFromShiftsAt(hs, gs, i, abs, rel, soffs, k); }
    EqualGrps(a, b);
  }

  lemma {:induction false} UpdAbsShifts(hs: seq<Grp>, gs: seq<Grp>, i: nat, abs: int, soffs: bool)
    requires Twins(hs, gs, i, soffs) && 1 <= i && abs % BLOCK_SIZE < 127
    ensures UpdAbs(hs, i, abs + 1, soffs) == ShiftGrps(UpdAbs(gs, i, abs, soffs))
  {
    assert (abs + 1) % BLOCK_SIZE == abs % BLOCK_SIZE + 1;
    UpdFromShifts(hs, gs, i, abs, abs % BLOCK_SIZE, soffs);
  }

  lemma {:induction false} BytesShift(grps: seq<Grp>, n: nat)
    requires n <= |grps|
    ensures GrpBytes(ShiftGrps(grps), n) == GrpBytes(grps, n)
  {
    if n > 0 {
      BytesShift(grps, n - 1);
      var g := grps[n - 1];
      TwinBytes(ShiftSubs(g.subs), g.subs, |g.subs|);
    }
  }

  lemma {:induction false} CalcShifts(grps: seq<Grp>)
    ensures Calc(ShiftGrps(grps)) == Shift(Calc(grps))
  {
    BytesShift(grps, |grps|);
  }

  lemma {:induction false} SettledShifts(hs: seq<Grp>, gs: seq<Grp>, i: nat, abs: int)
    requires Twins(hs, gs, i, true) && 1 <= i && abs % BLOCK_SIZE < 127
    ensures Settled(hs, i, abs + 1) == Shift(Settled(gs, i, abs))
  {
    if i < |gs| {
      UpdAbsShifts(hs, gs, i, abs, true);
      CalcShifts(UpdAbs(gs, i, abs, true));
    } else {
      assert hs == ShiftGrps(gs);
      CalcShifts(gs);
    }
  }

  // ---------------------------------------------------------------- top-level edits of shifted trees

  /** Group i is inside the block. */
  predicate Inside(t: Tree, i: nat) {
    1 <= i < |t.grps| && t.grps[i].abs % BLOCK_SIZE < 127
  }

  lemma {:induction false} ShiftedTwins(gs: seq<Grp>, i: nat)
    requires 1 <= i
    ensures Twins(ShiftGrps(gs), gs, i, true) && Twins(ShiftGrps(gs), gs, i, false)
  {
    var hs := ShiftGrps(gs);
    forall k {:trigger hs[k]} | i <= k < |hs| ensures Twin(hs[k], gs[k], true) && Twin(hs[k], gs[k], false) {
      SelfTwin(gs[k]);
    }
  }

  lemma {:induction false} CutShifts(t: Tree, i: nat)
    requires Inside(t, i)
    ensures Cut(Shift(t), i) == Shift(Cut(t, i))
  {
    var gs := RemoveAt(t.grps, i);
    assert RemoveAt(Shift(t).grps, i) == ShiftGrps(gs);
    ShiftedTwins(gs, i);
    SettledShifts(ShiftGrps(gs), gs, i, t.grps[i].abs);
  }

  lemma {:induction false} InsertUpShifts(t: Tree, i: nat, g: Grp)
    requires Inside(t, i)
    ensures InsertUp(Shift(t), i, g) == Shift(InsertUp(t, i, g))
  {
    var (hs, gs) := (InsertAt(Shift(t).grps, i, g), InsertAt(t.grps, i, g));
    forall k {:trigger hs[k]} | i <= k < |hs| ensures Twin(hs[k], gs[k], true) {
      SelfTwin(if k == i then g else t.grps[k - 1]);
    }
    SettledShifts(hs, gs, i, t.grps[i].abs);
  }

  lemma {:induction false} PasteShifts(t: Tree, i: nat, g: Grp)
    requires Inside(t, i)
    ensures Paste(Shift(t), i, g) == Shift(Paste(t, i, g))
  {
    var (hs, gs) := (Shift(t).grps[i := g], t.grps[i := g]);
    forall k {:trigger hs[k]} | i <= k < |hs| ensures Twin(hs[k], gs[k], true) {
      SelfTwin(gs[k]);
    }
    SettledShifts(hs, gs, i, t.grps[i].abs);
  }

  lemma {:induction false} MoveDnShifts(t: Tree, i: nat)
    requires Inside(t, i) && i + 1 < |t.grps|
    ensures MoveDn(Shift(t), i) == Shift(MoveDn(t, i))
  {
    var gs := SwapAt(t.grps, i);
    assert SwapAt(Shift(t).grps, i) == ShiftGrps(gs);
    ShiftedTwins(gs, i);
    UpdAbsShifts(ShiftGrps(gs), gs, i, t.grps[i].abs, true);
  }

  // ---------------------------------------------------------------- sub-group edits of shifted trees

  lemma {:induction false} WithSubsShifts(g: Grp, subs: seq<Sub>)
    requires |g.inst| == 32
    ensures WithSubs(ShiftGrp(g), ShiftSubs(subs)) == ShiftGrp(WithSubs(g, subs))
  {
    TwinBytes(ShiftSubs(subs), subs, |subs|);
  }

  lemma {:induction false} PropagateShifts(t: Tree, p: nat, g: Grp)
    requires Inside(t, p)
    ensures Propagate(Shift(t), p, ShiftGrp(g), t.grps[p].abs + 1, false)
        == Shift(Propagate(t, p, g, t.grps[p].abs, false))
  {
    var gs := t.grps[p := g];
    assert Shift(t).grps[p := ShiftGrp(g)] == ShiftGrps(gs);
    ShiftedTwins(gs, p);
    UpdAbsShifts(ShiftGrps(gs), gs, p, t.grps[p].abs, false);
    CalcShifts(UpdAbs(gs, p, t.grps[p].abs, false));
  }

  lemma {:induction false} SubCutShifts(t: Tree, p: nat, k: nat)
    requires Inside(t, p) && Editable(t, p, k)
    ensures Editable(Shift(t), p, k) && SubCut(Shift(t), p, k) == Shift(SubCut(t, p, k))
  {
    var g := t.grps[p];
    var s := g.subs[k];
    UpdRelShifts(RemoveAt(ShiftSubs(g.subs), k), RemoveAt(g.subs, k), k, s.abs, s.rel);
    var subs := UpdRel(RemoveAt(g.subs, k), k, s.abs, s.rel);
    WithSubsShifts(g, subs);
    PropagateShifts(t, p, WithSubs(g, subs));
  }

  lemma {:induction false} SubInsertUpShifts(t: Tree, p: nat, k: nat, s: Sub)
    requires Inside(t, p) && Editable(t, p, k)
    ensures Editable(Shift(t), p, k) && SubInsertUp(Shift(t), p, k, s) == Shift(SubInsertUp(t, p, k, s))
  {
    var g := t.grps[p];
    var at := g.subs[k];
    UpdRelShifts(InsertAt(ShiftSubs(g.subs), k, s), InsertAt(g.subs, k, s), k, at.abs, at.rel);
    var subs := UpdRel(InsertAt(g.subs, k, s), k, at.abs, at.rel);
    WithSubsShifts(g, subs);
    PropagateShifts(t, p, WithSubs(g, subs));
  }

  lemma {:induction false} SubMoveDnShifts(t: Tree, p: nat, k: nat)
    requires 1 <= p && SubAt(t, p, k + 1)
    ensures SubAt(Shift(t), p, k + 1) && SubMoveDn(Shift(t), p, k) == Shift(SubMoveDn(t, p, k))
  {
    var g := t.grps[p];
    var s := g.subs[k];
    UpdRelShifts(SwapAt(ShiftSubs(g.subs), k), SwapAt(g.subs, k), k, s.abs, s.rel);
    var h := g.(subs := UpdRel(SwapAt(g.subs, k), k, s.abs, s.rel));
    assert Shift(t).grps[p := ShiftGrp(h)] == ShiftGrps(t.grps[p := h]);
  }

  // ---------------------------------------------------------------- steps of shifted trees

  /** What the guards look at is not shifted. */
  predicate Looks(t: Tree, u: Tree) {
    && |t.grps| == |u.grps| && t.free == u.free
    && (forall i {:trigger t.grps[i]} {:trigger u.grps[i]} :: 0 <= i < |t.grps| ==>
          t.grps[i].tid == u.grps[i].tid && t.grps[i].datSz == u.grps[i].datSz && t.grps[i].free == u.grps[i].free
          && t.grps[i].hdrSz == u.grps[i].hdrSz && t.grps[i].inst == u.grps[i].inst
          && SubTwins(t.grps[i].subs, u.grps[i].subs))
  }

  lemma {:induction false} ShiftLooks(t: Tree)
    ensures Looks(Shift(t), t)
  {
    var u := Shift(t);
    forall i {:trigger u.grps[i]} | 0 <= i < |t.grps| ensures u.grps[i] == ShiftAt(t.grps, i) {}
  }

  lemma {:induction false} GuardsLook(t: Tree, u: Tree, op: Op)
    requires Looks(t, u)
    ensures Guard(t, op) <==> Guard(u, op)
  {
  }

  lemma {:induction false} PossibleShifts(t: Tree, op: Op)
    ensures Possible(Shift(t), op) <==> Possible(t, op)
    ensures InScope(Shift(t), op) <==> InScope(t, op)
  {
    ShiftLooks(t);
    GuardsLook(Shift(t), t, op);
  }

  /** Every block of rendered contents is inside. */
  lemma {:induction false} RenderedInside(cs: Contents, i: nat)
    requires Sound(cs) && 1 <= i < |cs|
    ensures Inside(Render(cs), i)
  {
    BlockStart(cs, i);
    RenderedAbs(cs, i);
    InBlock(Start(cs, i));
  }

  lemma {:induction false} InsertDnShifts(cs: Contents, i: nat, g: Grp)
    requires Sound(cs) && |cs| > 1 && i < |cs| && Source(g) && Room(cs, Strip(g))
    ensures InsertDn(Shift(Render(cs)), i, g) == Shift(InsertDn(Render(cs), i, g))
  {
    if i + 1 < |cs| {
      RenderedInside(cs, i + 1);
      InsertUpShifts(Render(cs), i + 1, g);
    } else {
      InsertLastShifts(cs, g);
    }
  }

  lemma {:induction false} InsertLastShifts(cs: Contents, g: Grp)
    requires Sound(cs) && |cs| > 1 && Source(g) && Room(cs, Strip(g))
    ensures InsertDn(Shift(Render(cs)), |cs| - 1, g) == Shift(InsertDn(Render(cs), |cs| - 1, g))
  {
    var (t, i) := (Render(cs), |cs| - 1);
    RenderedInside(cs, i);
    InsertUpShifts(t, i, g);
    InsertedInside(cs, g);
    MoveDnShifts(InsertUp(t, i, g), i);
  }

  lemma {:induction false} InsertedInside(cs: Contents, g: Grp)
    requires Sound(cs) && |cs| > 1 && Source(g) && Room(cs, Strip(g))
    ensures var u := InsertUp(Render(cs), |cs| - 1, g);
            Inside(u, |cs| - 1) && |u.grps| == |cs| + 1
  {
    InsertUpRenders(cs, |cs| - 1, g);
    RenderedInside(ListInsertUp(cs, |cs| - 1, Strip(g)), |cs| - 1);
  }

  lemma {:induction false} SubInsertDnShifts(t: Tree, p: nat, k: nat, s: Sub)
    requires Inside(t, p) && Editable(t, p, k)
    ensures Editable(Shift(t), p, k) && SubInsertDn(Shift(t), p, k, s) == Shift(SubInsertDn(t, p, k, s))
  {
    if k + 1 < |t.grps[p].subs| { SubInsertUpShifts(t, p, k + 1, s); } else { SubAppendShifts(t, p, k, s); }
  }

  lemma {:induction false} SubAppendShifts(t: Tree, p: nat, k: nat, s: Sub)
    requires Inside(t, p) && Editable(t, p, k) && k + 1 == |t.grps[p].subs|
    ensures Editable(Shift(t), p, k) && SubInsertDn(Shift(t), p, k, s) == Shift(SubInsertDn(t, p, k, s))
  {
    SubInsertUpShifts(t, p, k, s);
    SubInsertUpShape(t, p, k, s);
    SubMoveDnShifts(SubInsertUp(t, p, k, s), p, k);
  }

  lemma {:induction false} TopShifts(cs: Contents, op: Op)
    requires Good(cs) && Allowed(Render(cs), op) && !IsSubOp(op)
    ensures Possible(Shift(Render(cs)), op) && Apply(Shift(Render(cs)), op) == Shift(Apply(Render(cs), op))
  {
    PossibleShifts(Render(cs), op);
    if op.InsertBelow? {
      InsertDnGuardExact(cs, op.i, op.g);
      InsertDnShifts(cs, op.i, op.g);
    } else {
      OtherTopShifts(cs, op);
    }
  }

  /** Where such an edit starts to update. */
  function TopPlace(op: Op): int
    requires !IsSubOp(op) && !op.InsertBelow?
  {
    if op.Raise? then op.i - 1 else op.i
  }

  lemma {:induction false} OtherTopShifts(cs: Contents, op: Op)
    requires Good(cs) && Allowed(Render(cs), op) && !IsSubOp(op) && !op.InsertBelow?
    requires Possible(Shift(Render(cs)), op)
    ensures Apply(Shift(Render(cs)), op) == Shift(Apply(Render(cs), op))
  {
    TopPlaceInside(cs, op);
    TopApplyShifts(Render(cs), op);
  }

  lemma {:induction false} TopPlaceInside(cs: Contents, op: Op)
    requires Good(cs) && Possible(Render(cs), op) && !IsSubOp(op) && !op.InsertBelow?
    ensures TopPlace(op) >= 1 && Inside(Render(cs), TopPlace(op))
  {
    if op.InsertAbove? { InsertUpGuardExact(cs, op.i, op.g); }
    else if op.PasteOver? { PasteGuardExact(cs, op.i, op.g); }
    else if op.Remove? { CutGuardExact(cs, op.i); }
    else { MoveGuardExact(cs, TopPlace(op)); }
    RenderedInside(cs, TopPlace(op));
  }

  lemma {:induction false} TopApplyShifts(t: Tree, op: Op)
    requires Possible(t, op) && Possible(Shift(t), op) && !IsSubOp(op) && !op.InsertBelow?
    requires TopPlace(op) >= 1 && Inside(t, TopPlace(op))
    ensures Apply(Shift(t), op) == Shift(Apply(t, op))
  {
    if op.InsertAbove? { InsertUpShifts(t, op.i, op.g); }
    else if op.PasteOver? { PasteShifts(t, op.i, op.g); }
    else if op.Remove? { CutShifts(t, op.i); }
    else { MoveDnShifts(t, TopPlace(op)); }
  }

  lemma {:induction false} SubShifts(cs: Contents, op: Op)
    requires Good(cs) && Allowed(Render(cs), op) && IsSubOp(op)
    ensures Possible(Shift(Render(cs)), op) && Apply(Shift(Render(cs)), op) == Shift(Apply(Render(cs), op))
  {
    PossibleShifts(Render(cs), op);
    SubTarget(cs, op.p, if op.SubRaise? then op.k - 1 else op.k);
    RenderedInside(cs, op.p);
    SubApplyShifts(Render(cs), op);
  }

  lemma {:induction false} SubApplyShifts(t: Tree, op: Op)
    requires Possible(t, op) && Possible(Shift(t), op) && IsSubOp(op) && Inside(t, op.p)
    ensures Apply(Shift(t), op) == Shift(Apply(t, op))
  {
    if op.SubInsertAbove? { SubInsertUpShifts(t, op.p, op.k, op.s); }
    else if op.SubInsertBelow? { SubInsertDnShifts(t, op.p, op.k, op.s); }
    else if op.SubRemove? { SubCutShifts(t, op.p, op.k); }
    else if op.SubLower? { SubMoveDnShifts(t, op.p, op.k); }
    else { SubMoveDnShifts(t, op.p, op.k - 1); }
  }

  // ---------------------------------------------------------------- below a lone header

  predicate AllLoose(grps: seq<Grp>, cs: Contents) {
    |grps| == |cs| && forall k {:trigger grps[k]} :: 0 <= k < |grps| ==> Loose(grps[k], cs[k]) && cs[k].lag == 0
  }

  /** Updating from the header on leaves the shifted rendering: the header counts one byte more than
      it contributes. */
  lemma {:induction false} UpdAbsFromHeader(grps: seq<Grp>, cs: Contents)
    requires Sound(cs) && AllLoose(grps, cs)
    ensures UpdAbs(grps, 0, BLOCK_SIZE, true) == ShiftGrps(RenderGrps(cs))
  {
    var (r, s) := (UpdFrom(grps, 0, BLOCK_SIZE, 0, true), ShiftGrps(RenderGrps(cs)));
    assert |r| == |s| == |cs|;
    forall k {:trigger r[k]} | 0 <= k < |r| ensures r[k] == s[k] { HeaderUpdAt(grps, cs, k); }
    EqualGrps(r, s);
  }

  lemma {:induction false} HeaderDatTo(grps: seq<Grp>, cs: Contents, n: nat)
    requires Sound(cs) && AllLoose(grps, cs) && 1 <= n <= |cs|
    ensures DatTo(grps, n) == Start(cs, n) + 1
  {
    if n == 1 {
      assert DatTo(grps, 1) == DatTo(grps, 0) + grps[0].datSz;
      assert Start(cs, 1) == Start(cs, 0) + Width(cs[0]);
    } else {
      HeaderDatTo(grps, cs, n - 1);
      assert IsBlock(cs[n - 1]);
      BlockWidth(cs[n - 1]);
    }
  }

  lemma {:induction false} HeaderUpdAt(grps: seq<Grp>, cs: Contents, k: nat)
    requires Sound(cs) && AllLoose(grps, cs) && k < |cs|
    ensures |UpdFrom(grps, 0, BLOCK_SIZE, 0, true)| == |cs|
    ensures UpdFrom(grps, 0, BLOCK_SIZE, 0, true)[k] == ShiftGrps(RenderGrps(cs))[k]
  {
    UpdFromAt(grps, 0, BLOCK_SIZE, 0, true, k);
    var at := Start(cs, k);
    MovedRenders(grps[k], cs[k], at, k);
    if k > 0 {
      HeaderDatTo(grps, cs, k);
      SelfTwin(grps[k]);
      MovedShifts(grps[k], grps[k], BLOCK_SIZE + at, at, k, true);
    }
  }

  lemma {:induction false} LoneHeaderShifts(cs: Contents, g: Grp)
    requires Good(cs) && |cs| == 1 && Source(g) && Room(cs, Strip(g))
    ensures Good(ListInsertDn(cs, 0, Strip(g)))
    ensures InsertDn(Render(cs), 0, g) == Shift(Render(ListInsertDn(cs, 0, Strip(g))))
  {
    var (h, ds) := (RenderAt(cs, 0), ListInsertDn(cs, 0, Strip(g)));
    LoneGood(cs, Strip(g));
    assert Render(cs).grps == [h] && InsertAt([h], 0, g) == [g, h];
    LooseAnyLag(cs[0], 0, 0);
    var up := UpdAbs([g, h], 0, BLOCK_SIZE, true);
    LoneInserted(g, h, ds, up);
    UpdAbsFromHeader(SwapAt(up, 0), ds);
    LoneCounters(up, ds);
  }

  /** The new group above the header, before it is moved down. */
  lemma {:induction false} LoneInserted(g: Grp, h: Grp, ds: Contents, up: seq<Grp>)
    requires |ds| == 2 && Loose(g, ds[1]) && Loose(h, ds[0]) && ds[0].lag == 0 && ds[1].lag == 0
    requires up == UpdAbs([g, h], 0, BLOCK_SIZE, true)
    ensures |up| == 2 && Loose(up[0], ds[1]) && Loose(up[1], ds[0]) && up[0].abs == BLOCK_SIZE
  {
    UpdFromAt([g, h], 0, BLOCK_SIZE, 0, true, 0);
    UpdFromAt([g, h], 0, BLOCK_SIZE, 0, true, 1);
    MovedLoose(g, ds[1], BLOCK_SIZE, 0, 0);
    MovedLoose(h, ds[0], BLOCK_SIZE + g.datSz, g.datSz, 1);
  }

  lemma {:induction false} MovedLoose(g: Grp, c: GrpC, abs: int, rel: int, i: nat)
    requires Loose(g, c) && c.lag == 0
    ensures Loose(Moved(g, abs, rel, i, true), c) && Moved(g, abs, rel, i, true).abs == abs
  {
    if g.subs != [] {
      var (a, r) := (abs + g.subs[0].rel, g.subs[0].rel);
      forall k | 0 <= k < |g.subs|
        ensures UpdRel(g.subs, 0, a, r)[k].tid == g.subs[k].tid && UpdRel(g.subs, 0, a, r)[k].bytes == g.subs[k].bytes
      {
        UpdRelAt(g.subs, 0, a, r, k);
      }
      UpdRelAt(g.subs, 0, a, r, 0);
    }
  }

  lemma {:induction false} LoneGood(cs: Contents, c: GrpC)
    requires Good(cs) && |cs| == 1 && IsBlock(c) && Room(cs, c)
    ensures var ds := ListInsertDn(cs, 0, c);
            Good(ds) && |ds| == 2 && ds[0] == cs[0].(lag := 0) && ds[1] == c.(lag := 0)
  {
    StartInsert(cs, 1, c, 2);
    StartFresh(InsertAt(cs, 1, c), 0, 2);
  }

  lemma {:induction false} LooseWidth(g: Grp, c: GrpC)
    requires Loose(g, c)
    ensures DataSize(g) + SubBytes(g.subs, |g.subs|) == Width(c)
  {
    SubBytesIsStart(g.subs, c, |g.subs|);
  }

  /** The counters were computed before the last move; it does not change them. */
  lemma {:induction false} LoneCounters(up: seq<Grp>, ds: Contents)
    requires |up| == 2 == |ds| && Loose(up[0], ds[1]) && Loose(up[1], ds[0])
    ensures GrpBytes(up, 2) == Start(ds, 2)
  {
    LooseWidth(up[0], ds[1]);
    LooseWidth(up[1], ds[0]);
    assert GrpBytes(up, 1) == GrpBytes(up, 0) + DataSize(up[0]) + SubBytes(up[0].subs, |up[0].subs|);
    assert Start(ds, 1) == Start(ds, 0) + Width(ds[0]);
  }

  // ---------------------------------------------------------------- runs

  /** The rendering, shifted if the header ever stood alone before an edit. */
  function ShiftIf(shifted: bool, t: Tree): Tree {
    if shifted then Shift(t) else t
  }

  /** Only insertion is possible below a lone header. */
  lemma {:induction false} LoneOnlyInserts(cs: Contents, op: Op)
    requires Good(cs) && |cs| == 1 && Possible(Render(cs), op)
    ensures op.InsertBelow? && op.i == 0
  {
    KindByType(cs, 0);
    if op.PasteOver? { PasteGuardExact(cs, op.i, op.g); }
    if op.InsertAbove? { InsertUpGuardExact(cs, op.i, op.g); }
    if op.Remove? { CutGuardExact(cs, op.i); }
  }

  lemma {:induction false} LoneUnshifted(cs: Contents)
    requires |cs| == 1
    ensures Shift(Render(cs)) == Render(cs)
  {
    assert ShiftGrps(RenderGrps(cs)) == RenderGrps(cs);
  }

  /** One edit that changes sub-groups only where there is a header part: the list edit, and a shift
      from the first insertion below a lone header on. */
  lemma {:induction false} StepShifts(cs: Contents, op: Op, shifted: bool)
    requires Good(cs) && Possible(ShiftIf(shifted, Render(cs)), op) && (IsSubOp(op) ==> InScope(Render(cs), op))
    ensures ListAllowed(cs, op) && Good(ListApply(cs, op))
    ensures Apply(ShiftIf(shifted, Render(cs)), op) == ShiftIf(shifted || |cs| == 1, Render(ListApply(cs, op)))
  {
    PossibleShifts(Render(cs), op);
    if |cs| == 1 {
      LoneUnshifted(cs);
      LoneOnlyInserts(cs, op);
      InsertDnGuardExact(cs, 0, op.g);
      LoneHeaderShifts(cs, op.g);
    } else {
      StepRefines(cs, op);
      if IsSubOp(op) { SubShifts(cs, op); } else { TopShifts(cs, op); }
    }
  }

  /** Guarded edits of sub-groups in blocks with a header part, and any guarded edit of blocks. */
  predicate UsableRun(t: Tree, ops: seq<Op>)
    decreases |ops|
  {
    ops == [] || (Possible(t, ops[0]) && (IsSubOp(ops[0]) ==> InScope(t, ops[0]))
        && UsableRun(Apply(t, ops[0]), ops[1..]))
  }

  /** The header stood alone before one of the edits. */
  predicate EverLone(cs: Contents, ops: seq<Op>)
    requires ListAllowedRun(cs, ops)
    decreases |ops|
  {
    ops != [] && (|cs| == 1 || EverLone(ListApply(cs, ops[0]), ops[1..]))
  }

  /** Any run of them refines the run of list edits, up to the shift. */
  lemma {:induction false} RunShifts(cs: Contents, ops: seq<Op>, shifted: bool)
    requires Good(cs) && UsableRun(ShiftIf(shifted, Render(cs)), ops)
    ensures PossibleRun(ShiftIf(shifted, Render(cs)), ops) && ListAllowedRun(cs, ops) && Good(ListRun(cs, ops))
    ensures Run(ShiftIf(shifted, Render(cs)), ops) == ShiftIf(shifted || EverLone(cs, ops), Render(ListRun(cs, ops)))
    decreases |ops|
  {
    if ops != [] {
      PossibleShifts(Render(cs), ops[0]);
      StepShifts(cs, ops[0], shifted);
      RunShifts(ListApply(cs, ops[0]), ops[1..], shifted || |cs| == 1);
    }
  }

  // ---------------------------------------------------------------- the layout, exactly

  lemma {:induction false} ShiftBreaksLayout(cs: Contents)
    requires Good(cs) && |cs| > 1
    ensures !Layout(Shift(Render(cs)))
  {
    var grps := Shift(Render(cs)).grps;
    RenderedAbs(cs, 1);
    assert grps[1] == ShiftAt(Render(cs).grps, 1);
    assert Start(cs, 1) == Start(cs, 0) + Width(cs[0]) == 4;
    assert Behind(grps, 1) == 0 && !Placed(grps, 1);
  }

  /** After any run of guarded edits, sub-groups edited only in blocks with a header part: the layout
      holds exactly when the header never stood alone before an edit, or stands alone now. */
  lemma {:induction false} RunLayoutExact(cs: Contents, ops: seq<Op>)
    requires Good(cs) && UsableRun(Render(cs), ops)
    ensures PossibleRun(Render(cs), ops) && ListAllowedRun(cs, ops)
    ensures Layout(Run(Render(cs), ops)) <==> !EverLone(cs, ops) || |ListRun(cs, ops)| == 1
    ensures TypeOrder(Run(Render(cs), ops))
  {
    RunShifts(cs, ops, false);
    var ds := ListRun(cs, ops);
    RenderedLayout(ds);
    ShiftedOrder(ds);
    if |ds| == 1 { LoneUnshifted(ds); } else { ShiftBreaksLayout(ds); }
  }

  lemma {:induction false} ShiftedOrder(cs: Contents)
    requires TypeOrder(Render(cs))
    ensures TypeOrder(Shift(Render(cs)))
  {
    ShiftLooks(Render(cs));
  }
}
