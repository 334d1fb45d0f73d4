/** Every run of guarded edits: what it does to the space left, when that space is overdrawn, and when
    the layout holds. */
module GroupCapacity {
  import opened Bytes
  import opened GroupTree
  import opened GroupContent
  import opened GroupEdits
  import opened GroupRuns
  import opened GroupShift
  import opened GroupScope
  import opened GroupBooks
  import opened DataBlocks

  // ---------------------------------------------------------------- where the books start

  lemma {:induction false} DatIsBehind(grps: seq<Grp>, n: nat)
    requires 1 <= n <= |grps| && grps[0].datSz == 5
    ensures DatTo(grps, n) == 5 + Behind(grps, n)
  {
    if n == 1 { assert DatTo(grps, 1) == DatTo(grps, 0) + grps[0].datSz; } else { DatIsBehind(grps, n - 1); }
  }

  lemma {:induction false} RenderedOk(c: GrpC, at: nat, i: nat)
    requires IsBlock(c)
    ensures BlockOk(RenderGrp(c, at, i))
  {
    var g := RenderGrp(c, at, i);
    SubBytesIsStart(g.subs, c, |g.subs|);
    forall k {:trigger g.subs[k]} | 0 <= k < |g.subs| ensures SubBytes(g.subs, k) == SubStart(c.subs, k) {
      SubBytesIsStart(g.subs, c, k);
    }
  }

  lemma {:induction false} RenderedDat(cs: Contents, n: nat)
    requires Sound(cs) && 1 <= n <= |cs|
    ensures DatTo(RenderGrps(cs), n) == Start(cs, n) + 1
  {
    assert RenderGrps(cs)[0] == RenderAt(cs, 0);
    DatIsBehind(RenderGrps(cs), n);
    BehindIsStart(cs, n);
  }

  lemma {:induction false} RenderedPos(cs: Contents, i: nat)
    requires Sound(cs) && i < |cs|
    ensures PosAt(RenderGrps(cs), 0, i)
  {
    assert RenderGrps(cs)[i] == RenderAt(cs, i);
    if i > 0 { RenderedDat(cs, i); }
  }

  /** A good tree starts with right books. */
  lemma {:induction false} RenderedBooks(cs: Contents)
    requires Good(cs)
    ensures Books(Render(cs), 0)
  {
    var grps := RenderGrps(cs);
    assert grps[0] == RenderAt(cs, 0);
    forall i {:trigger grps[i]} | 1 <= i < |grps| ensures BlockOk(grps[i]) {
      assert IsBlock(cs[i]);
      RenderedOk(cs[i], Start(cs, i), i);
    }
    forall i {:trigger PosAt(grps, 0, i)} | 0 <= i < |grps| ensures PosAt(grps, 0, i) { RenderedPos(cs, i); }
    RenderedDat(cs, |cs|);
    GrpBytesIsStart(cs, |cs|);
  }

  lemma {:induction false} ShiftedOk(g: Grp)
    requires BlockOk(g)
    ensures BlockOk(ShiftGrp(g))
  {
    var h := ShiftGrp(g);
    TwinBytes(h.subs, g.subs, |g.subs|);
    forall k {:trigger h.subs[k]} | 0 <= k < |h.subs| ensures SubBytes(h.subs, k) == SubBytes(g.subs, k) {
      TwinBytes(h.subs, g.subs, k);
    }
  }

  lemma {:induction false} ShiftedPos(grps: seq<Grp>, i: nat)
    requires i < |grps| && PosAt(grps, 0, i)
    ensures PosAt(ShiftGrps(grps), 1, i)
  {
    DatToSame(ShiftGrps(grps), grps, i);
  }

  lemma {:induction false} ShiftedBooks(t: Tree)
    requires Books(t, 0)
    ensures Books(Shift(t), 1)
  {
    var grps := Shift(t).grps;
    forall i {:trigger grps[i]} | 1 <= i < |grps| ensures BlockOk(grps[i]) { ShiftedOk(t.grps[i]); }
    forall i {:trigger PosAt(grps, 1, i)} | 0 <= i < |grps| ensures PosAt(grps, 1, i) {
      assert PosAt(t.grps, 0, i);
      ShiftedPos(t.grps, i);
    }
    DatToSame(grps, t.grps, |grps|);
    BytesShift(t.grps, |grps|);
  }

  // ---------------------------------------------------------------- the order of types

  function Tids(grps: seq<Grp>): (r: seq<Tid>)
    ensures |r| == |grps| && forall i {:trigger r[i]} :: 0 <= i < |r| ==> r[i] == grps[i].tid
  {
    seq(|grps|, i requires 0 <= i < |grps| => grps[i].tid)
  }

  predicate BlockTid(tid: Tid) { tid == DTD || DbcType(tid) }

  /** The header, data blocks, DTDs. */
  predicate Ordered(ts: seq<Tid>) {
    && |ts| >= 1 && ts[0] == CHD && (forall i {:trigger ts[i]} :: 1 <= i < |ts| ==> BlockTid(ts[i]))
    && forall i, j {:trigger ts[i], ts[j]} :: 1 <= i < j < |ts| && IsDtdType(ts[i]) ==> IsDtdType(ts[j])
  }

  lemma {:induction false} OrderIsTids(t: Tree)
    ensures TypeOrder(t) <==> Ordered(Tids(t.grps))
  {
    var ts := Tids(t.grps);
    assert forall i {:trigger t.grps[i]} :: 0 <= i < |t.grps| ==> ts[i] == t.grps[i].tid;
  }

  lemma {:induction false} OrderInsert(ts: seq<Tid>, i: nat, x: Tid)
    requires Ordered(ts) && 1 <= i <= |ts| && BlockTid(x)
    requires if IsDtdType(x) then i == |ts| || IsDtdType(ts[i]) else i == 1 || !IsDtdType(ts[i - 1])
    ensures Ordered(InsertAt(ts, i, x))
  {
    var r := InsertAt(ts, i, x);
    forall a, b {:trigger r[a], r[b]} | 1 <= a < b < |r| && IsDtdType(r[a]) ensures IsDtdType(r[b]) {
      var a', b' := if a < i then a else a - 1, if b < i then b else b - 1;
      if a != i && b != i { assert IsDtdType(ts[a']) ==> IsDtdType(ts[b']); }
      if a == i && i < |ts| { assert b' == i || (IsDtdType(ts[i]) ==> IsDtdType(ts[b'])); }
      if b == i && i > 1 { assert a == i - 1 || (IsDtdType(ts[a]) ==> IsDtdType(ts[i - 1])); }
      if b == i && i < |ts| { assert IsDtdType(ts[a]) ==> IsDtdType(ts[i]); }
    }
  }

  lemma {:induction false} OrderRemove(ts: seq<Tid>, i: nat)
    requires Ordered(ts) && 1 <= i < |ts|
    ensures Ordered(RemoveAt(ts, i))
  {
    var r := RemoveAt(ts, i);
    forall a, b {:trigger r[a], r[b]} | 1 <= a < b < |r| && IsDtdType(r[a]) ensures IsDtdType(r[b]) {
      assert IsDtdType(ts[if a < i then a else a + 1]) ==> IsDtdType(ts[if b < i then b else b + 1]);
    }
  }

  lemma {:induction false} OrderSwap(ts: seq<Tid>, i: nat)
    requires Ordered(ts) && 1 <= i && i + 1 < |ts| && (IsDtdType(ts[i]) <==> IsDtdType(ts[i + 1]))
    ensures Ordered(SwapAt(ts, i))
  {
    var r := SwapAt(ts, i);
    forall a, b {:trigger r[a], r[b]} | 1 <= a < b < |r| && IsDtdType(r[a]) ensures IsDtdType(r[b]) {
      assert IsDtdType(ts[a]) ==> IsDtdType(ts[b]);
    }
  }

  /** The types of u are those of gs. */
  lemma {:induction false} OrderOf(u: Tree, gs: seq<Grp>)
    requires SameAll(u.grps, gs) && Ordered(Tids(gs))
    ensures TypeOrder(u)
  {
    assert Tids(u.grps) == Tids(gs);
    OrderIsTids(u);
  }

  lemma {:induction false} OrderKept(u: Tree, t: Tree)
    requires SameTids(u, t) && TypeOrder(t)
    ensures TypeOrder(u)
  {
    assert Tids(u.grps) == Tids(t.grps);
    OrderIsTids(u);
    OrderIsTids(t);
  }

  // ---------------------------------------------------------------- one step

  /** The space left after a guarded edit. */
  function FreeAfter(t: Tree, op: Op): int
    requires Possible(t, op)
  {
    match op
    case InsertAbove(i, g) => t.free - g.datSz
    case InsertBelow(i, g) => t.free - g.datSz
    case PasteOver(i, g) => t.free + Own(t.grps[i]) - g.datSz
    case Remove(i) => t.free + Own(t.grps[i])
    case SubInsertAbove(p, k, s) => t.free + Own(t.grps[p]) - OwnWith(t.grps[p], t.grps[p].used + |s.bytes|)
    case SubInsertBelow(p, k, s) => t.free + Own(t.grps[p]) - OwnWith(t.grps[p], t.grps[p].used + |s.bytes|)
    case SubRemove(p, k) => t.free + Own(t.grps[p]) - OwnWith(t.grps[p], t.grps[p].used - |t.grps[p].subs[k].bytes|)
    case Raise(_) => t.free
    case Lower(_) => t.free
    case SubRaise(_, _) => t.free
    case SubLower(_, _) => t.free
  }

  /** Right books and types in order. */
  predicate Kept(t: Tree, sh: nat) { Books(t, sh) && TypeOrder(t) }

  /** The guarded edit op leads from t to a tree with right books. */
  predicate StepKept(t: Tree, sh: nat, op: Op)
    requires Possible(t, op)
  {
    Kept(Apply(t, op), sh) && Apply(t, op).free == FreeAfter(t, op)
  }

  lemma {:induction false} TidKinds(t: Tree, sh: nat, i: nat)
    requires Kept(t, sh) && i < |t.grps|
    ensures i == 0 ==> t.grps[0].tid == CHD
    ensures i > 0 ==> BlockTid(t.grps[i].tid) && !Fixed(t.grps[i].tid)
    ensures i > 0 ==> (IsDtdType(t.grps[i].tid) <==> t.grps[i].tid == DTD)
  {
  }

  lemma {:induction false} SourceTid(g: Grp)
    requires Source(g)
    ensures BlockTid(g.tid) && (IsDtdType(g.tid) <==> g.tid == DTD)
  {
  }

  lemma {:induction false} RemovedOrder(t: Tree, i: nat, u: Tree)
    requires TypeOrder(t) && 1 <= i < |t.grps| && SameAll(u.grps, RemoveAt(t.grps, i))
    ensures TypeOrder(u)
  {
    OrderIsTids(t);
    OrderRemove(Tids(t.grps), i);
    assert Tids(RemoveAt(t.grps, i)) == RemoveAt(Tids(t.grps), i);
    OrderOf(u, RemoveAt(t.grps, i));
  }

  lemma {:induction false} RemoveKept(t: Tree, sh: nat, i: nat)
    requires Kept(t, sh) && CanCut(t, i)
    ensures Kept(Cut(t, i), sh) && Cut(t, i).free == t.free + Own(t.grps[i])
  {
    TidKinds(t, sh, i);
    CutBooks(t, sh, i);
    RemovedOrder(t, i, Cut(t, i));
  }

  lemma {:induction false} InsertedOrder(t: Tree, i: nat, g: Grp, u: Tree)
    requires TypeOrder(t) && 1 <= i <= |t.grps| && BlockTid(g.tid) && SameAll(u.grps, InsertAt(t.grps, i, g))
    requires if IsDtdType(g.tid) then i == |t.grps| || IsDtdType(t.grps[i].tid)
             else i == 1 || !IsDtdType(t.grps[i - 1].tid)
    ensures TypeOrder(u)
  {
    OrderIsTids(t);
    OrderInsert(Tids(t.grps), i, g.tid);
    assert Tids(InsertAt(t.grps, i, g)) == InsertAt(Tids(t.grps), i, g.tid);
    OrderOf(u, InsertAt(t.grps, i, g));
  }

  lemma {:induction false} AbovePlace(t: Tree, sh: nat, i: nat, g: Grp)
    requires Kept(t, sh) && CanInsertUp(t, i, g) && Source(g)
    ensures 1 <= i && BlockTid(g.tid)
    ensures if IsDtdType(g.tid) then IsDtdType(t.grps[i].tid) else !IsDtdType(t.grps[i - 1].tid)
  {
    TidKinds(t, sh, i);
    SourceTid(g);
  }

  lemma {:induction false} InsertAboveKept(t: Tree, sh: nat, i: nat, g: Grp)
    requires Kept(t, sh) && CanInsertUp(t, i, g) && Source(g)
    ensures Kept(InsertUp(t, i, g), sh) && InsertUp(t, i, g).free == t.free - g.datSz
  {
    AbovePlace(t, sh, i, g);
    InsertUpBooks(t, sh, i, g);
    InsertedOrder(t, i, g, InsertUp(t, i, g));
  }

  lemma {:induction false} BelowPlace(t: Tree, sh: nat, i: nat, g: Grp)
    requires Kept(t, sh) && CanInsertDn(t, i, g) && Source(g)
    ensures BlockTid(g.tid)
    ensures if IsDtdType(g.tid) then i + 1 == |t.grps| || IsDtdType(t.grps[i + 1].tid)
            else !IsDtdType(t.grps[i].tid)
  {
    SourceTid(g);
    TidKinds(t, sh, i);
    if i + 1 < |t.grps| { TidKinds(t, sh, i + 1); }
    assert i >= 1 && i + 1 < |t.grps| ==> (IsDtdType(t.grps[i].tid) ==> IsDtdType(t.grps[i + 1].tid));
  }

  lemma {:induction false} InsertBelowKept(t: Tree, sh: nat, i: nat, g: Grp)
    requires Kept(t, sh) && CanInsertDn(t, i, g) && Source(g) && |t.grps| > 1
    ensures Kept(InsertDn(t, i, g), sh) && InsertDn(t, i, g).free == t.free - g.datSz
  {
    InsertDnBooks(t, sh, i, g);
    InsertedBelow(t, sh, i, g, InsertDn(t, i, g));
  }

  lemma {:induction false} InsertedBelow(t: Tree, sh: nat, i: nat, g: Grp, u: Tree)
    requires Kept(t, sh) && CanInsertDn(t, i, g) && Source(g) && SameAll(u.grps, InsertAt(t.grps, i + 1, g))
    ensures TypeOrder(u)
  {
    BelowPlace(t, sh, i, g);
    InsertedOrder(t, i + 1, g, u);
  }

  lemma {:induction false} PastedOrder(t: Tree, i: nat, g: Grp, u: Tree)
    requires TypeOrder(t) && i < |t.grps| && t.grps[i].tid == g.tid && SameAll(u.grps, t.grps[i := g])
    ensures TypeOrder(u)
  {
    OrderIsTids(t);
    assert Tids(t.grps[i := g]) == Tids(t.grps);
    OrderOf(u, t.grps[i := g]);
  }

  lemma {:induction false} PasteKept(t: Tree, sh: nat, i: nat, g: Grp)
    requires Kept(t, sh) && CanPaste(t, i, g) && Source(g)
    ensures Kept(Paste(t, i, g), sh) && Paste(t, i, g).free == t.free + Own(t.grps[i]) - g.datSz
  {
    TidKinds(t, sh, i);
    SourceTid(g);
    PasteBooks(t, sh, i, g);
    PastedOrder(t, i, g, Paste(t, i, g));
  }

  lemma {:induction false} MovePlace(t: Tree, sh: nat, i: nat)
    requires Kept(t, sh) && (CanMoveDn(t, i) || CanMoveUp(t, i + 1))
    ensures 1 <= i && i + 1 < |t.grps| && (IsDtdType(t.grps[i].tid) <==> IsDtdType(t.grps[i + 1].tid))
  {
    TidKinds(t, sh, i);
    assert i >= 1 ==> (IsDtdType(t.grps[i].tid) ==> IsDtdType(t.grps[i + 1].tid));
  }

  lemma {:induction false} MovedOrder(t: Tree, i: nat, u: Tree)
    requires TypeOrder(t) && 1 <= i && i + 1 < |t.grps| && SameAll(u.grps, SwapAt(t.grps, i))
    requires IsDtdType(t.grps[i].tid) <==> IsDtdType(t.grps[i + 1].tid)
    ensures TypeOrder(u)
  {
    OrderIsTids(t);
    OrderSwap(Tids(t.grps), i);
    assert Tids(SwapAt(t.grps, i)) == SwapAt(Tids(t.grps), i);
    OrderOf(u, SwapAt(t.grps, i));
  }

  lemma {:induction false} MoveKept(t: Tree, sh: nat, i: nat)
    requires Kept(t, sh) && (CanMoveDn(t, i) || CanMoveUp(t, i + 1))
    ensures 1 <= i && i + 1 < |t.grps| && Kept(MoveDn(t, i), sh) && MoveDn(t, i).free == t.free
  {
    MovePlace(t, sh, i);
    MoveDnBooks(t, sh, i);
    MovedOrder(t, i, MoveDn(t, i));
  }

  /** The block p counts n bytes more or less. */
  predicate SubKept(u: Tree, t: Tree, sh: nat, p: nat, n: int)
    requires p < |t.grps|
  {
    Kept(u, sh) && u.free == t.free + Own(t.grps[p]) - OwnWith(t.grps[p], t.grps[p].used + n)
  }

  lemma {:induction false} SubAboveKept(t: Tree, sh: nat, p: nat, k: nat, s: Sub)
    requires Kept(t, sh) && Editable(t, p, k) && SubFits(t, p, s)
    ensures SubKept(SubInsertUp(t, p, k, s), t, sh, p, |s.bytes|)
  {
    SubInsertUpBooks(t, sh, p, k, s);
    OrderKept(SubInsertUp(t, p, k, s), t);
  }

  lemma {:induction false} SubBelowKept(t: Tree, sh: nat, p: nat, k: nat, s: Sub)
    requires Kept(t, sh) && Editable(t, p, k) && SubFits(t, p, s)
    ensures SubKept(SubInsertDn(t, p, k, s), t, sh, p, |s.bytes|)
  {
    SubInsertDnBooks(t, sh, p, k, s);
    OrderKept(SubInsertDn(t, p, k, s), t);
  }

  lemma {:induction false} SubRemoveKept(t: Tree, sh: nat, p: nat, k: nat)
    requires Kept(t, sh) && Editable(t, p, k)
    ensures SubKept(SubCut(t, p, k), t, sh, p, -|t.grps[p].subs[k].bytes|)
  {
    SubCutBooks(t, sh, p, k);
    OrderKept(SubCut(t, p, k), t);
  }

  lemma {:induction false} SubMoveKept(t: Tree, sh: nat, p: nat, k: nat)
    requires Kept(t, sh) && SubAt(t, p, k + 1)
    ensures Kept(SubMoveDn(t, p, k), sh) && SubMoveDn(t, p, k).free == t.free
  {
    SubMoveDnBooks(t, sh, p, k);
    OrderKept(SubMoveDn(t, p, k), t);
  }

  /** A header alone is the rendering of its contents. */
  lemma {:induction false} LoneRendered(t: Tree, sh: nat) returns (cs: Contents)
    requires Books(t, sh) && |t.grps| == 1
    ensures Good(cs) && |cs| == 1 && t == Render(cs)
  {
    var h := t.grps[0];
    cs := [GrpC(CHD, h.inst, 4, 0, [], 0)];
    assert PosAt(t.grps, sh, 0);
    assert RenderSubs(cs[0], BLOCK_SIZE) == [];
    assert Start(cs, 1) == Start(cs, 0) + Width(cs[0]) == 4;
    assert RenderGrps(cs)[0] == RenderAt(cs, 0) == h;
    assert RenderGrps(cs) == [h] == t.grps;
    GrpBytesIsStart(cs, 1);
  }

  lemma {:induction false} LoneKept(t: Tree, sh: nat, op: Op)
    requires Kept(t, sh) && Possible(t, op) && |t.grps| == 1
    ensures StepKept(t, 1, op) && op.InsertBelow?
  {
    var cs := LoneRendered(t, sh);
    var ds := LoneInserts(cs, op);
    ShiftedKept(ds);
  }

  lemma {:induction false} ShiftedKept(ds: Contents)
    requires Good(ds)
    ensures Kept(Shift(Render(ds)), 1)
  {
    RenderedBooks(ds);
    ShiftedBooks(Render(ds));
    RenderedOrder(ds);
    ShiftedOrder(ds);
  }

  /** The only edit of a lone header, and the space it leaves. */
  lemma {:induction false} LoneInserts(cs: Contents, op: Op) returns (ds: Contents)
    requires Good(cs) && |cs| == 1 && Possible(Render(cs), op)
    ensures op.InsertBelow? && Good(ds) && Apply(Render(cs), op) == Shift(Render(ds))
    ensures Render(ds).free == Render(cs).free - op.g.datSz
  {
    LoneOnlyInserts(cs, op);
    InsertDnGuardExact(cs, 0, op.g);
    LoneHeaderShifts(cs, op.g);
    ds := ListInsertDn(cs, 0, Strip(op.g));
    LoneSpace(cs, op.g);
  }

  lemma {:induction false} LoneSpace(cs: Contents, g: Grp)
    requires Good(cs) && |cs| == 1 && Source(g) && Room(cs, Strip(g))
    ensures var ds := ListInsertDn(cs, 0, Strip(g));
            Start(ds, |ds|) == Start(cs, 1) + g.datSz
  {
    BlockWidth(Strip(g));
    LoneGood(cs, Strip(g));
    var ds := ListInsertDn(cs, 0, Strip(g));
    assert Start(cs, 1) == Start(cs, 0) + Width(cs[0]);
    assert Start(ds, 1) == Start(ds, 0) + Width(ds[0]) && Start(ds, 2) == Start(ds, 1) + Width(ds[1]);
  }

  lemma {:induction false} InsertKept(t: Tree, sh: nat, op: Op)
    requires Kept(t, sh) && Possible(t, op) && |t.grps| > 1 && (op.InsertAbove? || op.InsertBelow?)
    ensures StepKept(t, sh, op)
  {
    if op.InsertAbove? { InsertAboveKept(t, sh, op.i, op.g); } else { InsertBelowKept(t, sh, op.i, op.g); }
  }

  lemma {:induction false} OtherKept(t: Tree, sh: nat, op: Op)
    requires Kept(t, sh) && Possible(t, op) && (op.PasteOver? || op.Remove?)
    ensures StepKept(t, sh, op)
  {
    if op.PasteOver? { PasteKept(t, sh, op.i, op.g); } else { RemoveKept(t, sh, op.i); }
  }

  lemma {:induction false} MoveOpKept(t: Tree, sh: nat, op: Op)
    requires Kept(t, sh) && Possible(t, op) && (op.Raise? || op.Lower?)
    ensures StepKept(t, sh, op)
  {
    MoveKept(t, sh, if op.Lower? then op.i else op.i - 1);
  }

  lemma {:induction false} SubInsertKept(t: Tree, sh: nat, op: Op)
    requires Kept(t, sh) && Possible(t, op) && InsertsSub(op)
    ensures StepKept(t, sh, op)
  {
    if op.SubInsertAbove? { SubAboveKept(t, sh, op.p, op.k, op.s); } else { SubBelowKept(t, sh, op.p, op.k, op.s); }
  }

  lemma {:induction false} SubOtherKept(t: Tree, sh: nat, op: Op)
    requires Kept(t, sh) && Possible(t, op) && (op.SubRemove? || op.SubRaise? || op.SubLower?)
    ensures StepKept(t, sh, op)
  {
    if op.SubRemove? { SubRemoveKept(t, sh, op.p, op.k); }
    else { SubMoveKept(t, sh, op.p, if op.SubLower? then op.k else op.k - 1); }
  }

  /** Any guarded edit keeps the books and the order of types, and FreeAfter is the space left. */
  lemma {:induction false} StepBooks(t: Tree, sh: nat, op: Op)
    requires Kept(t, sh) && Possible(t, op)
    ensures StepKept(t, if |t.grps| == 1 then 1 else sh, op)
  {
    if |t.grps| == 1 { LoneKept(t, sh, op); }
    else if op.InsertAbove? || op.InsertBelow? { InsertKept(t, sh, op); }
    else if InsertsSub(op) { SubInsertKept(t, sh, op); }
    else if IsSubOp(op) { SubOtherKept(t, sh, op); }
    else if op.PasteOver? || op.Remove? { OtherKept(t, sh, op); }
    else { MoveOpKept(t, sh, op); }
  }

  // ---------------------------------------------------------------- runs

  /** The header stood alone before one of the edits. */
  predicate EverAlone(t: Tree, ops: seq<Op>)
    requires PossibleRun(t, ops)
    decreases |ops|
  {
    ops != [] && (|t.grps| == 1 || EverAlone(Apply(t, ops[0]), ops[1..]))
  }

  /** Any run of guarded edits keeps the books. */
  lemma {:induction false} RunBooks(t: Tree, sh: nat, ops: seq<Op>)
    requires Kept(t, sh) && PossibleRun(t, ops)
    ensures Kept(Run(t, ops), if EverAlone(t, ops) then 1 else sh)
    decreases |ops|
  {
    if ops != [] {
      StepBooks(t, sh, ops[0]);
      RunBooks(Apply(t, ops[0]), if |t.grps| == 1 then 1 else sh, ops[1..]);
    }
  }

  // ---------------------------------------------------------------- the layout, exactly

  /** No block without a header part has bytes in its parts. */
  predicate PartFree(t: Tree) {
    forall i {:trigger t.grps[i]} :: 1 <= i < |t.grps| && t.grps[i].hdrSz == 0 ==> t.grps[i].used == 0
  }

  lemma {:induction false} PackedExact(g: Grp)
    requires BlockOk(g)
    ensures Packed(g) <==> (g.hdrSz == 0 ==> g.used == 0)
  {
  }

  lemma {:induction false} PlacedExact(t: Tree, sh: nat, i: nat)
    requires Books(t, sh) && i < |t.grps|
    ensures Placed(t.grps, i) <==> i == 0 || sh == 0
  {
    assert PosAt(t.grps, sh, i);
    if i > 0 {
      DatIsBehind(t.grps, i);
      OkSizes(t.grps);
      DatMono(t.grps, i, |t.grps|);
      PendingStart(t.grps, i);
      PlacedFrom(t.grps, sh, i, Behind(t.grps, i));
    }
  }

  lemma {:induction false} PlacedFrom(grps: seq<Grp>, sh: nat, i: nat, b: nat)
    requires 1 <= i < |grps| && b == Behind(grps, i) && b <= 123 && sh <= 1 && grps[i].idx == i
    requires grps[i].abs == BLOCK_SIZE + 4 + b + sh && (sh == 0 ==> grps[i].rel == 4 + b)
    ensures Placed(grps, i) <==> sh == 0
  {
    if sh == 0 { InBlock(4 + b); }
  }

  /** The groups behind the header count their cached sizes. */
  predicate OwnsAreDats(grps: seq<Grp>) {
    forall k {:trigger grps[k]} :: 1 <= k < |grps| ==> Own(grps[k]) == grps[k].datSz
  }

  lemma {:induction false} SumsAgree(grps: seq<Grp>, n: nat)
    requires OwnsAreDats(grps) && 1 <= n <= |grps| && HeadOk(grps[0])
    ensures GrpBytes(grps, n) == DatTo(grps, n) - 1
  {
    if n == 1 {
      assert DatTo(grps, 1) == DatTo(grps, 0) + grps[0].datSz;
      assert GrpBytes(grps, 1) == GrpBytes(grps, 0) + DataSize(grps[0]) + SubBytes(grps[0].subs, 0);
    } else {
      SumsAgree(grps, n - 1);
      assert Own(grps[n - 1]) == grps[n - 1].datSz;
    }
  }

  /** Counted once, the blocks fit. */
  lemma {:induction false} CountedOnce(t: Tree, sh: nat)
    requires Books(t, sh) && PartFree(t)
    ensures t.free >= 0
  {
    forall k {:trigger t.grps[k]} | 1 <= k < |t.grps| ensures Own(t.grps[k]) == t.grps[k].datSz {
      OwnCovers(t.grps[k]);
    }
    SumsAgree(t.grps, |t.grps|);
  }

  lemma {:induction false} LayoutIf(t: Tree, sh: nat)
    requires Books(t, sh) && (sh == 0 || |t.grps| == 1) && PartFree(t)
    ensures Layout(t)
  {
    forall i | 0 <= i < |t.grps| ensures Placed(t.grps, i) { PlacedExact(t, sh, i); }
    forall i {:trigger t.grps[i]} | 1 <= i < |t.grps| ensures Packed(t.grps[i]) { PackedExact(t.grps[i]); }
    CountedOnce(t, sh);
  }

  lemma {:induction false} LayoutOnlyIf(t: Tree, sh: nat)
    requires Books(t, sh) && Layout(t)
    ensures (sh == 0 || |t.grps| == 1) && PartFree(t)
  {
    if |t.grps| > 1 { PlacedExact(t, sh, 1); }
    forall i {:trigger t.grps[i]} | 1 <= i < |t.grps| && t.grps[i].hdrSz == 0 ensures t.grps[i].used == 0 {
      PackedExact(t.grps[i]);
    }
  }

  /** The capacity of each block, and of the whole array: used and free space add up, no block is overdrawn. */
  predicate Counted(t: Tree) {
    && t.used == GrpBytes(t.grps, |t.grps|) && t.used + t.free == CEA_SPACE
    && forall i {:trigger t.grps[i]} :: 1 <= i < |t.grps| ==>
      t.grps[i].used == AllBytes(t.grps[i].subs) && t.grps[i].used + t.grps[i].free == Cap(t.grps[i].tid)
      && t.grps[i].free >= 0
  }

  lemma {:induction false} BooksCounted(t: Tree, sh: nat)
    requires Books(t, sh)
    ensures Counted(t)
  {
    forall i {:trigger t.grps[i]} | 1 <= i < |t.grps|
      ensures t.grps[i].used == AllBytes(t.grps[i].subs) && t.grps[i].used + t.grps[i].free == Cap(t.grps[i].tid)
      ensures t.grps[i].free >= 0
    {
      assert BlockOk(t.grps[i]);
    }
  }

  /** After any run of guarded edits at all the counters are right and the types in order; the layout
      holds exactly if no block without a header part has bytes in its parts, and the header never
      stood alone before an edit or stands alone now. */
  lemma {:induction false} AnyRunLayoutExact(cs: Contents, ops: seq<Op>)
    requires Good(cs) && PossibleRun(Render(cs), ops)
    ensures var t := Run(Render(cs), ops);
            && TypeOrder(t) && Counted(t)
            && (Layout(t) <==> PartFree(t) && (!EverAlone(Render(cs), ops) || |t.grps| == 1))
  {
    RenderedBooks(cs);
    RenderedOrder(cs);
    RunBooks(Render(cs), 0, ops);
    var t, sh := Run(Render(cs), ops), if EverAlone(Render(cs), ops) then 1 else 0;
    BooksCounted(t, sh);
    if Layout(t) { LayoutOnlyIf(t, sh); }
    if (sh == 0 || |t.grps| == 1) && PartFree(t) { LayoutIf(t, sh); }
  }

  // ---------------------------------------------------------------- the space left, exactly

  /** Bytes put into the parts of a block without a header part are counted twice, and replace what the
      block counted before. */
  predicate Capacious(t: Tree, op: Op)
    requires Possible(t, op)
  {
    InsertsSub(op) && t.grps[op.p].hdrSz == 0 ==>
      2 * (t.grps[op.p].used + |op.s.bytes|) <= t.free + Own(t.grps[op.p])
  }

  lemma {:induction false} FreeAfterPaste(t: Tree, sh: nat, op: Op)
    requires Kept(t, sh) && Possible(t, op) && op.PasteOver? && t.free >= 0
    ensures FreeAfter(t, op) >= 0
  {
    TidKinds(t, sh, op.i);
    SourceTid(op.g);
    GrpEntry(t, sh, op.i);
  }

  lemma {:induction false} FreeAfterRemove(t: Tree, sh: nat, op: Op)
    requires Kept(t, sh) && Possible(t, op) && op.Remove? && t.free >= 0
    ensures FreeAfter(t, op) >= 0
  {
    TidKinds(t, sh, op.i);
    GrpEntry(t, sh, op.i);
  }

  /** Cut parts free their bytes, those of a block without a header part twice. */
  lemma {:induction false} OwnShrinks(t: Tree, sh: nat, p: nat, k: nat)
    requires Books(t, sh) && SubAt(t, p, k)
    ensures OwnWith(t.grps[p], t.grps[p].used - |t.grps[p].subs[k].bytes|) <= Own(t.grps[p])
  {
    SubBlock(t, sh, p, k);
    OwnCovers(t.grps[p]);
    BytesRemove(t.grps[p].subs, k);
  }

  lemma {:induction false} OwnGrows(t: Tree, sh: nat, p: nat, k: nat, n: nat)
    requires Books(t, sh) && SubAt(t, p, k)
    ensures var g := t.grps[p];
            g.hdrSz > 0 ==> OwnWith(g, g.used + n) == Own(g) + n
  {
    SubBlock(t, sh, p, k);
    OwnCovers(t.grps[p]);
  }

  /** With space not overdrawn before a guarded edit, it is not afterwards exactly if the edit is capacious. */
  lemma {:induction false} StepCapacityExact(t: Tree, sh: nat, op: Op)
    requires Kept(t, sh) && Possible(t, op) && t.free >= 0
    ensures Apply(t, op).free >= 0 <==> Capacious(t, op)
  {
    StepBooks(t, sh, op);
    if op.PasteOver? { FreeAfterPaste(t, sh, op); }
    else if op.Remove? { FreeAfterRemove(t, sh, op); }
    else if op.SubRemove? { OwnShrinks(t, sh, op.p, op.k); }
    else if InsertsSub(op) { OwnGrows(t, sh, op.p, op.k, |op.s.bytes|); }
  }

  /** Every edit of the run is capacious. */
  predicate CapaciousRun(t: Tree, ops: seq<Op>)
    requires PossibleRun(t, ops)
    decreases |ops|
  {
    ops == [] || (Capacious(t, ops[0]) && CapaciousRun(Apply(t, ops[0]), ops[1..]))
  }

  /** The space left is never negative. */
  predicate NeverOverdrawn(t: Tree, ops: seq<Op>)
    requires PossibleRun(t, ops)
    decreases |ops|
  {
    t.free >= 0 && (ops == [] || NeverOverdrawn(Apply(t, ops[0]), ops[1..]))
  }

  lemma {:induction false} CapacityFrom(t: Tree, sh: nat, ops: seq<Op>)
    requires Kept(t, sh) && PossibleRun(t, ops) && t.free >= 0
    ensures NeverOverdrawn(t, ops) <==> CapaciousRun(t, ops)
    decreases |ops|
  {
    if ops != [] {
      StepCapacityExact(t, sh, ops[0]);
      StepBooks(t, sh, ops[0]);
      if Capacious(t, ops[0]) { CapacityFrom(Apply(t, ops[0]), if |t.grps| == 1 then 1 else sh, ops[1..]); }
    }
  }

  /** Any run of guarded edits leaves the space never overdrawn exactly if all its edits are capacious. */
  lemma {:induction false} RunCapacityExact(cs: Contents, ops: seq<Op>)
    requires Good(cs) && PossibleRun(Render(cs), ops)
    ensures NeverOverdrawn(Render(cs), ops) <==> CapaciousRun(Render(cs), ops)
  {
    RenderedBooks(cs);
    RenderedOrder(cs);
    CapacityFrom(Render(cs), 0, ops);
  }

  lemma {:induction false} UsableIsCapacious(t: Tree, ops: seq<Op>)
    requires UsableRun(t, ops)
    ensures PossibleRun(t, ops) && CapaciousRun(t, ops)
    decreases |ops|
  {
    if ops != [] { UsableIsCapacious(Apply(t, ops[0]), ops[1..]); }
  }

  /** Runs that edit sub-groups only in blocks with a header part never overdraw it, whether the header
      stood alone or not. */
  lemma {:induction false} UsableNeverOverdrawn(cs: Contents, ops: seq<Op>)
    requires Good(cs) && UsableRun(Render(cs), ops)
    ensures PossibleRun(Render(cs), ops) && NeverOverdrawn(Render(cs), ops)
  {
    UsableIsCapacious(Render(cs), ops);
    RunCapacityExact(cs, ops);
  }

  // ---------------------------------------------------------------- an overdrawn run

  /** What insertion behind the last part leaves of the block: one part more, the new one. */
  lemma {:induction false} LastPart(t: Tree, p: nat, k: nat, s: Sub)
    requires Editable(t, p, k) && k + 1 == |t.grps[p].subs|
    ensures var u := SubInsertDn(t, p, k, s);
            && p < |u.grps| && |u.grps[p].subs| == k + 2 && u.grps[p].subs[k + 1].tid == s.tid
            && |u.grps[p].inst| == 32 && u.grps[p].hdrSz == t.grps[p].hdrSz && u.grps[p].tid == t.grps[p].tid
  {
    var (g, at) := (t.grps[p], t.grps[p].subs[k]);
    var subs := UpdRel(InsertAt(g.subs, k, s), k, at.abs, at.rel);
    UpdRelAt(InsertAt(g.subs, k, s), k, at.abs, at.rel, k);
    UpdFromAt(t.grps[p := WithSubs(g, subs)], p, g.abs, g.abs % BLOCK_SIZE, false, p);
    SubInsertUpShape(t, p, k, s);
    UpdRelAt(SwapAt(subs, k), k, subs[k].abs, subs[k].rel, k + 1);
  }

  /** The room on both levels after n bytes were put behind the last part of a block without a header part. */
  lemma {:induction false} PartRoom(t: Tree, sh: nat, p: nat, k: nat, s: Sub)
    requires Kept(t, sh) && Editable(t, p, k) && t.grps[p].hdrSz == 0 && k + 1 == |t.grps[p].subs|
    requires s.bytes != [] && SubFits(t, p, s)
    ensures var (g, u) := (t.grps[p], SubInsertDn(t, p, k, s));
            && Kept(u, sh) && u.free == t.free + Own(g) - 2 * (g.used + |s.bytes|) && Editable(u, p, k + 1)
            && k + 2 == |u.grps[p].subs| && u.grps[p].subs[k + 1].tid == s.tid && u.grps[p].hdrSz == 0
            && u.grps[p].free == g.free - |s.bytes| && Own(u.grps[p]) == 2 * (g.used + |s.bytes|)
  {
    var (g, u) := (t.grps[p], SubInsertDn(t, p, k, s));
    SubBelowKept(t, sh, p, k, s);
    LastPart(t, p, k, s);
    SubBlock(t, sh, p, k);
    SubBlock(u, sh, p, k + 1);
    OwnCovers(u.grps[p]);
    AppendedBytes(t, p, k, s);
  }

  lemma {:induction false} AppendedBytes(t: Tree, p: nat, k: nat, s: Sub)
    requires Editable(t, p, k) && k + 1 == |t.grps[p].subs|
    ensures var u := SubInsertDn(t, p, k, s);
            p < |u.grps| && AllBytes(u.grps[p].subs) == AllBytes(t.grps[p].subs) + |s.bytes|
  {
    var (g, at) := (t.grps[p], t.grps[p].subs[k]);
    var ins := InsertAt(g.subs, k, s);
    var subs := UpdRel(ins, k, at.abs, at.rel);
    BytesInsert(g.subs, k, s);
    UpdatedBytes(ins, k, at.abs, at.rel);
    UpdFromAt(t.grps[p := WithSubs(g, subs)], p, g.abs, g.abs % BLOCK_SIZE, false, p);
    SubInsertUpShape(t, p, k, s);
    BytesSwap(subs, k);
    UpdatedBytes(SwapAt(subs, k), k, subs[k].abs, subs[k].rel);
  }

  lemma {:induction false} UpdatedBytes(subs: seq<Sub>, k: nat, abs: int, rel: int)
    ensures AllBytes(UpdRel(subs, k, abs, rel)) == AllBytes(subs)
  {
    var r := UpdRel(subs, k, abs, rel);
    forall j {:trigger r[j]} | 0 <= j < |r| ensures r[j].tid == subs[j].tid && r[j].bytes == subs[j].bytes {
      UpdRelAt(subs, k, abs, rel, j);
    }
    TwinBytes(r, subs, |r|);
  }

  /** A flat block with parts and exactly one byte of the extension block left. */
  predicate Tight(cs: Contents, p: nat) {
    && Good(cs) && Start(cs, |cs|) == 126
    && 1 <= p < |cs| && cs[p].hdrSz == 0 && cs[p].flat == 32 && cs[p].subs != [] && cs[p].tid.ext != 0
  }

  /** A block without a header part at position p whose last part is k, with this room on both levels. */
  predicate OpenAt(t: Tree, p: nat, k: nat, free: int, room: int, own: int, tid: Tid) {
    && Kept(t, 0) && Editable(t, p, k) && k + 1 == |t.grps[p].subs| && t.grps[p].hdrSz == 0 && t.free == free
    && t.grps[p].free == room && Own(t.grps[p]) == own && t.grps[p].used == 30 - room
    && SameParent(tid, t.grps[p].subs[k].tid)
  }

  lemma {:induction false} TightBlock(c: GrpC, at: nat, i: nat)
    requires IsBlock(c) && c.hdrSz == 0 && c.flat == 32 && c.subs != [] && c.tid.ext != 0
    ensures var (g, k) := (RenderGrp(c, at, i), |c.subs| - 1);
            && |g.inst| == 32 && g.hdrSz == 0 && g.used == 0 && g.free == 30 && Own(g) == 32
            && |g.subs| == k + 1 && g.subs[k].tid == c.subs[k].tid
  {
    var (g, k) := (RenderGrp(c, at, i), |c.subs| - 1);
    assert g.subs[k] == RenderSub(c, BLOCK_SIZE + at, k);
    RenderedOk(c, at, i);
    OwnCovers(g);
  }

  lemma {:induction false} TightTree(cs: Contents, p: nat, tid: Tid)
    requires Tight(cs, p) && SameParent(tid, cs[p].subs[|cs[p].subs| - 1].tid)
    ensures OpenAt(Render(cs), p, |cs[p].subs| - 1, 1, 30, 32, tid)
  {
    RenderedBooks(cs);
    RenderedOrder(cs);
    assert IsBlock(cs[p]) && Render(cs).grps[p] == RenderAt(cs, p);
    TightBlock(cs[p], Start(cs, p), p);
  }

  /** A part of n bytes goes behind the last one. */
  lemma {:induction false} OpenTakes(t: Tree, p: nat, k: nat, free: int, room: int, own: int, s: Sub, tid: Tid)
    requires OpenAt(t, p, k, free, room, own, s.tid) && 1 <= |s.bytes| <= room && |s.bytes| <= free
    requires SameParent(tid, s.tid)
    ensures Possible(t, SubInsertBelow(p, k, s))
    ensures var n := 30 - room + |s.bytes|;
            OpenAt(SubInsertDn(t, p, k, s), p, k + 1, free + own - 2 * n, 30 - n, 2 * n, tid)
  {
    PartRoom(t, 0, p, k, s);
    var u := SubInsertDn(t, p, k, s);
    SubBlock(u, 0, p, k + 1);
    LastPart(t, p, k, s);
  }

  /** Parts of 1 and of 29 bytes: the guards admit both, one after the other, and then 27 bytes more than
      there are count as used. */
  lemma {:induction false} TwoPartsOverdraw(cs: Contents, p: nat, a: Sub, b: Sub)
    requires Tight(cs, p) && |a.bytes| == 1 && |b.bytes| == 29
    requires SameParent(a.tid, cs[p].subs[|cs[p].subs| - 1].tid) && SameParent(b.tid, a.tid)
    ensures var k := |cs[p].subs| - 1;
            var ops := [SubInsertBelow(p, k, a), SubInsertBelow(p, k + 1, b)];
            PossibleRun(Render(cs), ops) && Run(Render(cs), ops).free == -27
  {
    var k := |cs[p].subs| - 1;
    var (t, first, second) := (Render(cs), SubInsertBelow(p, k, a), SubInsertBelow(p, k + 1, b));
    TightTree(cs, p, a.tid);
    OpenTakes(t, p, k, 1, 30, 32, a, b.tid);
    var u := SubInsertDn(t, p, k, a);
    OpenTakes(u, p, k + 1, 31, 29, 2, b, b.tid);
    assert Apply(t, first) == u;
    TwoSteps(t, first, second);
  }

  lemma {:induction false} TwoSteps(t: Tree, a: Op, b: Op)
    requires Possible(t, a) && Possible(Apply(t, a), b)
    ensures PossibleRun(t, [a, b]) && Run(t, [a, b]) == Apply(Apply(t, a), b)
  {
    var u := Apply(t, a);
    assert [a, b][1..] == [b] && [b][1..] == [];
    assert PossibleRun(u, [b]);
    assert Run(Apply(u, b), []) == Apply(u, b);
    assert Run(u, [b]) == Apply(u, b);
  }

  lemma {:induction false} VdddIsTight(h: GrpC, v: GrpC, d: GrpC)
    requires IsHdr(h) && IsDtd(d) && IsBlock(v) && v.hdrSz == 0 && v.flat == 32 && v.subs != [] && v.tid == VDDD
    ensures Tight([h, v, d, d, d, d, d], 1)
  {
    var cs := [h, v, d, d, d, d, d];
    assert Width(h) == 4 && Width(v) == 32 && Width(d) == 18;
    assert Start(cs, 1) == Start(cs, 0) + Width(cs[0]) == 4 && Start(cs, 2) == Start(cs, 1) + Width(cs[1]) == 36;
    assert Start(cs, 3) == Start(cs, 2) + Width(cs[2]) == 54 && Start(cs, 4) == Start(cs, 3) + Width(cs[3]) == 72;
    assert Start(cs, 5) == Start(cs, 4) + Width(cs[4]) == 90 && Start(cs, 6) == Start(cs, 5) + Width(cs[5]) == 108;
    assert Start(cs, 7) == Start(cs, 6) + Width(cs[6]) == 126;
    assert !IsDtd(v);
  }

  /** A strictly parsed VDDD block behind the header, and five timings: after two guarded edits the array
      counts 154 bytes of 127. */
  lemma {:induction false} OverdrawnExample(h: GrpC, block: seq<Byte>, d: GrpC, a: Sub, b: Sub)
    requires IsHdr(h) && IsDtd(d) && WholeBlock(block) && StrictInit(block).Some? && StrictInit(block).value.tid == VDDD
    requires |a.bytes| == 1 && |b.bytes| == 29 && SameParent(a.tid, VDDD) && SameParent(b.tid, VDDD)
    ensures var cs := [h, StrictInit(block).value, d, d, d, d, d];
            var ops := [SubInsertBelow(1, 4, a), SubInsertBelow(1, 5, b)];
            Good(cs) && PossibleRun(Render(cs), ops) && Run(Render(cs), ops).used == 154
  {
    var v := VdddContent(block);
    var cs, ops := [h, v, d, d, d, d, d], [SubInsertBelow(1, 4, a), SubInsertBelow(1, 5, b)];
    assert v.flat == 32;
    VdddIsTight(h, v, d);
    assert cs[1] == v && |v.subs| == 5 && v.subs[4] == VdddSubs()[4];
    TwoPartsOverdraw(cs, 1, a, b);
    AnyRunLayoutExact(cs, ops);
  }
}
