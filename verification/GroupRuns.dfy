/** Whole runs of guarded edits: the tree stays the rendering of its edited contents, so the layout,
    capacity and order of the block survive any run. */
module GroupRuns {
  import opened Bytes
  import opened GroupTree
  import opened GroupContent
  import opened GroupEdits

  /** The edit commands.  Cut stands for Delete too: they leave the same tree. */
  datatype Op =
    | InsertAbove(i: nat, g: Grp) | InsertBelow(i: nat, g: Grp) | PasteOver(i: nat, g: Grp)
    | Raise(i: nat) | Lower(i: nat) | Remove(i: nat)
    | SubInsertAbove(p: nat, k: nat, s: Sub) | SubInsertBelow(p: nat, k: nat, s: Sub)
    | SubRaise(p: nat, k: nat) | SubLower(p: nat, k: nat) | SubRemove(p: nat, k: nat)

  /** What the menu asks before it enables the command. */
  predicate Guard(t: Tree, op: Op) {
    match op
    case InsertAbove(i, g) => CanInsertUp(t, i, g)
    case InsertBelow(i, g) => CanInsertDn(t, i, g)
    case PasteOver(i, g) => CanPaste(t, i, g)
    case Raise(i) => CanMoveUp(t, i)
    case Lower(i) => CanMoveDn(t, i)
    case Remove(i) => CanCut(t, i)
    case SubInsertAbove(p, k, s) => SubCanInsertUp(t, p, k, s)
    case SubInsertBelow(p, k, s) => SubCanInsertDn(t, p, k, s)
    case SubRaise(p, k) => SubCanMoveUp(t, p, k)
    case SubLower(p, k) => SubCanMoveDn(t, p, k)
    case SubRemove(p, k) => SubCanCut(t, p, k)
  }

  predicate IsSubOp(op: Op) {
    op.SubInsertAbove? || op.SubInsertBelow? || op.SubRaise? || op.SubLower? || op.SubRemove?
  }

  predicate Inserts(op: Op) { op.InsertAbove? || op.InsertBelow? || op.PasteOver? }
  predicate InsertsSub(op: Op) { op.SubInsertAbove? || op.SubInsertBelow? }

  /** A guarded command with a consistent source. */
  predicate Possible(t: Tree, op: Op) {
    && Guard(t, op) && (Inserts(op) ==> Source(op.g))
    && (IsSubOp(op) ==> op.p < |t.grps| && |t.grps[op.p].inst| == 32)
  }

  /** The two places the guards forget: below a lone header, and in a block without a header part. */
  predicate InScope(t: Tree, op: Op) {
    && (op.InsertBelow? ==> |t.grps| > 1)
    && (IsSubOp(op) ==> op.p < |t.grps| && t.grps[op.p].hdrSz > 0)
  }

  predicate Allowed(t: Tree, op: Op) { Possible(t, op) && InScope(t, op) }

  function Apply(t: Tree, op: Op): Tree
    requires Possible(t, op)
  {
    match op
    case InsertAbove(i, g) => InsertUp(t, i, g)
    case InsertBelow(i, g) => InsertDn(t, i, g)
    case PasteOver(i, g) => Paste(t, i, g)
    case Raise(i) => MoveUp(t, i)
    case Lower(i) => MoveDn(t, i)
    case Remove(i) => Cut(t, i)
    case SubInsertAbove(p, k, s) => SubInsertUp(t, p, k, s)
    case SubInsertBelow(p, k, s) => SubInsertDn(t, p, k, s)
    case SubRaise(p, k) => SubMoveUp(t, p, k)
    case SubLower(p, k) => SubMoveDn(t, p, k)
    case SubRemove(p, k) => SubCut(t, p, k)
  }

  /** The command on the plain list. */
  predicate ListAllowed(cs: Contents, op: Op) {
    match op
    case InsertAbove(i, g) => i < |cs| && g.datSz >= 0
    case InsertBelow(i, g) => i < |cs| && g.datSz >= 0
    case PasteOver(i, g) => i < |cs| && g.datSz >= 0
    case Raise(i) => 0 < i < |cs|
    case Lower(i) => i + 1 < |cs|
    case Remove(i) => i < |cs|
    case SubInsertAbove(p, k, s) => SubIn(cs, p, k)
    case SubInsertBelow(p, k, s) => SubIn(cs, p, k)
    case SubRaise(p, k) => SubIn(cs, p, k) && k > 0
    case SubLower(p, k) => SubIn(cs, p, k + 1)
    case SubRemove(p, k) => SubIn(cs, p, k)
  }

  function ListApply(cs: Contents, op: Op): Contents
    requires ListAllowed(cs, op)
  {
    match op
    case InsertAbove(i, g) => ListInsertUp(cs, i, Strip(g))
    case InsertBelow(i, g) => ListInsertDn(cs, i, Strip(g))
    case PasteOver(i, g) => ListPaste(cs, i, Strip(g))
    case Raise(i) => ListMoveDn(cs, i - 1)
    case Lower(i) => ListMoveDn(cs, i)
    case Remove(i) => ListCut(cs, i)
    case SubInsertAbove(p, k, s) => ListSubInsert(cs, p, k, StripSub(s))
    case SubInsertBelow(p, k, s) => ListSubInsert(cs, p, k + 1, StripSub(s))
    case SubRaise(p, k) => ListSubMoveDn(cs, p, k - 1)
    case SubLower(p, k) => ListSubMoveDn(cs, p, k)
    case SubRemove(p, k) => ListSubCut(cs, p, k)
  }

  // ---------------------------------------------------------------- what the guards mean

  /** Two neighbours may change places exactly when both are blocks and the DTDs stay last. */
  lemma {:induction false} MoveGuardExact(cs: Contents, i: nat)
    requires Good(cs)
    ensures CanMoveDn(Render(cs), i) <==> 1 <= i && i + 1 < |cs| && DtdsLast(SwapAt(cs, i))
    ensures CanMoveUp(Render(cs), i + 1) <==> CanMoveDn(Render(cs), i)
  {
    if i + 1 < |cs| {
      MoveGuardsByKind(cs, i);
      if i >= 1 { SwapOrder(cs, i); }
    }
  }

  lemma {:induction false} MoveGuardsByKind(cs: Contents, i: nat)
    requires Good(cs) && i + 1 < |cs|
    ensures CanMoveDn(Render(cs), i) <==> 1 <= i && (IsDtd(cs[i]) <==> IsDtd(cs[i + 1]))
    ensures CanMoveUp(Render(cs), i + 1) <==> 1 <= i && (IsDtd(cs[i]) <==> IsDtd(cs[i + 1]))
  {
    KindByType(cs, i);
    KindByType(cs, i + 1);
    NextKind(cs, i);
  }

  lemma {:induction false} NextKind(cs: Contents, i: nat)
    requires DtdsLast(cs) && i + 1 < |cs|
    ensures 1 <= i && IsDtd(cs[i]) ==> IsDtd(cs[i + 1])
  {
  }

  lemma {:induction false} SwapOrder(cs: Contents, i: nat)
    requires DtdsLast(cs) && 1 <= i && i + 1 < |cs|
    ensures DtdsLast(SwapAt(cs, i)) <==> (IsDtd(cs[i]) <==> IsDtd(cs[i + 1]))
  {
    var r := SwapAt(cs, i);
    assert r[i] == cs[i + 1] && r[i + 1] == cs[i] && (IsDtd(cs[i]) ==> IsDtd(cs[i + 1]));
    if IsDtd(cs[i]) <==> IsDtd(cs[i + 1]) {
      forall a, b {:trigger r[a], r[b]} | 1 <= a < b < |r| && IsDtd(r[a]) ensures IsDtd(r[b]) {
        assert IsDtd(cs[a]) ==> IsDtd(cs[b]);
      }
    } else {
      assert IsDtd(r[i]) && !IsDtd(r[i + 1]);
    }
  }

  /** Every block may be cut, the header may not. */
  lemma {:induction false} CutGuardExact(cs: Contents, i: nat)
    requires Good(cs)
    ensures CanCut(Render(cs), i) <==> 1 <= i < |cs|
  {
    if i < |cs| { KindByType(cs, i); }
  }

  /** A block of an insertable type may go below group i exactly when it fits and the DTDs stay last. */
  lemma {:induction false} InsertDnGuardExact(cs: Contents, i: nat, g: Grp)
    requires Good(cs) && Source(g)
    ensures CanInsertDn(Render(cs), i, g)
       <==> i < |cs| && Insertable(g.tid) && Room(cs, Strip(g)) && DtdsLast(InsertAt(cs, i + 1, Strip(g)))
  {
    BlockWidth(Strip(g));
    if i < |cs| {
      KindByType(cs, i);
      if i + 1 < |cs| { KindByType(cs, i + 1); }
      BelowOrder(cs, i, Strip(g));
      assert i >= 1 ==> IsBlock(cs[i]);
    }
  }

  /** It may go above group i exactly when it fits and is a DTD just as group i is. */
  lemma {:induction false} InsertUpGuardExact(cs: Contents, i: nat, g: Grp)
    requires Good(cs) && Source(g)
    ensures CanInsertUp(Render(cs), i, g)
       <==> 1 <= i < |cs| && Insertable(g.tid) && Room(cs, Strip(g)) && (IsDtd(Strip(g)) <==> IsDtd(cs[i]))
  {
    BlockWidth(Strip(g));
    if i < |cs| {
      KindByType(cs, i);
      if i >= 1 {
        KindByType(cs, i - 1);
        assert IsBlock(cs[i]);
        if i >= 2 { assert IsDtd(cs[i - 1]) ==> IsDtd(cs[i]); }
      }
    }
  }

  /** A block may be replaced exactly by one of its own type that fits. */
  lemma {:induction false} PasteGuardExact(cs: Contents, i: nat, g: Grp)
    requires Good(cs) && Source(g)
    ensures CanPaste(Render(cs), i, g)
       <==> 1 <= i < |cs| && cs[i].tid == g.tid && Start(cs, |cs|) - Width(cs[i]) + Width(Strip(g)) <= CEA_SPACE
  {
    BlockWidth(Strip(g));
    if i < |cs| {
      KindByType(cs, i);
      if i >= 1 { BlockWidth(cs[i]); }
    }
  }

  /** Insertion below group i keeps the order exactly if a DTD comes before no data block and a data
      block behind no DTD. */
  lemma {:induction false} BelowOrder(cs: Contents, i: nat, c: GrpC)
    requires Good(cs) && i < |cs| && IsBlock(c)
    ensures DtdsLast(InsertAt(cs, i + 1, c))
       <==> if IsDtd(c) then i + 1 == |cs| || IsDtd(cs[i + 1]) else i == 0 || !IsDtd(cs[i])
  {
    var r := InsertAt(cs, i + 1, c);
    if if IsDtd(c) then i + 1 == |cs| || IsDtd(cs[i + 1]) else i == 0 || !IsDtd(cs[i]) {
      InsertOrder(cs, i + 1, c);
    } else if IsDtd(c) {
      assert r[i + 1] == c && r[i + 2] == cs[i + 1];
    } else {
      assert r[i] == cs[i] && r[i + 1] == c;
    }
  }

  // ---------------------------------------------------------------- one step

  /** The kind of a block shows in its type id. */
  lemma {:induction false} KindByType(cs: Contents, i: nat)
    requires Sound(cs) && i < |cs|
    ensures i >= 1 ==> (IsDtd(cs[i]) <==> IsDtdType(cs[i].tid)) && !Fixed(cs[i].tid)
    ensures i == 0 ==> cs[0].tid == CHD && Fixed(cs[0].tid) && !IsDtdType(cs[0].tid)
    ensures Render(cs).grps[i] == RenderAt(cs, i) && RenderAt(cs, i).tid == cs[i].tid
    ensures Render(cs).free == CEA_SPACE - Start(cs, |cs|)
  {
    if i >= 1 { assert IsBlock(cs[i]); }
  }

  lemma {:induction false} InsertOrder(cs: Contents, i: nat, c: GrpC)
    requires Good(cs) && 1 <= i <= |cs| && IsBlock(c)
    requires if IsDtd(c) then i == |cs| || IsDtd(cs[i]) else i == 1 || !IsDtd(cs[i - 1])
    ensures DtdsLast(InsertAt(cs, i, c))
  {
    var r := InsertAt(cs, i, c);
    forall a, b {:trigger r[a], r[b]} | 1 <= a < b < |r| && IsDtd(r[a]) ensures IsDtd(r[b]) {
      var a', b' := if a < i then a else a - 1, if b < i then b else b - 1;
      if a != i && b != i { assert IsDtd(cs[a']) ==> IsDtd(cs[b']); }
      if a == i && i < |cs| { assert b' == i || (IsDtd(cs[i]) ==> IsDtd(cs[b'])); }
      if b == i && i > 1 { assert a == i - 1 || (IsDtd(cs[a]) ==> IsDtd(cs[i - 1])); }
      if b == i && i < |cs| { assert IsDtd(cs[a]) ==> IsDtd(cs[i]); }
    }
  }

  lemma {:induction false} FreshOrder(cs: Contents, i: nat)
    requires DtdsLast(cs)
    ensures DtdsLast(Fresh(cs, i))
  {
    var r := Fresh(cs, i);
    forall a, b {:trigger r[a], r[b]} | 1 <= a < b < |r| && IsDtd(r[a]) ensures IsDtd(r[b]) {
      assert IsDtd(cs[a]);
    }
  }

  lemma {:induction false} InsUpStep(cs: Contents, i: nat, g: Grp)
    requires Good(cs) && CanInsertUp(Render(cs), i, g) && Source(g)
    ensures 1 <= i < |cs| && Good(ListInsertUp(cs, i, Strip(g)))
    ensures InsertUp(Render(cs), i, g) == Render(ListInsertUp(cs, i, Strip(g)))
  {
    KindByType(cs, i);
    if i > 0 { KindByType(cs, i - 1); }
    BlockWidth(Strip(g));
    InsertUpRenders(cs, i, g);
    InsertOrder(cs, i, Strip(g));
    FreshOrder(InsertAt(cs, i, Strip(g)), i);
  }

  lemma {:induction false} InsDnStep(cs: Contents, i: nat, g: Grp)
    requires Good(cs) && CanInsertDn(Render(cs), i, g) && Source(g) && |cs| > 1
    ensures i < |cs| && Good(ListInsertDn(cs, i, Strip(g)))
    ensures InsertDn(Render(cs), i, g) == Render(ListInsertDn(cs, i, Strip(g)))
  {
    InsertDnGuardExact(cs, i, g);
    InsertDnRenders(cs, i, g);
    FreshOrder(InsertAt(cs, i + 1, Strip(g)), if i + 1 < |cs| then i + 1 else i);
  }

  lemma {:induction false} PasteStep(cs: Contents, i: nat, g: Grp)
    requires Good(cs) && CanPaste(Render(cs), i, g) && Source(g)
    ensures 1 <= i < |cs| && Good(ListPaste(cs, i, Strip(g)))
    ensures Paste(Render(cs), i, g) == Render(ListPaste(cs, i, Strip(g)))
  {
    KindByType(cs, i);
    PasteGuardExact(cs, i, g);
    PasteRenders(cs, i, g);
    PasteOrder(cs, i, Strip(g));
    FreshOrder(cs[i := Strip(g)], i);
  }

  lemma {:induction false} PasteOrder(cs: Contents, i: nat, c: GrpC)
    requires Good(cs) && 1 <= i < |cs| && IsBlock(c) && c.tid == cs[i].tid
    ensures DtdsLast(cs[i := c])
  {
    var r := cs[i := c];
    assert IsBlock(cs[i]);
    forall a, b {:trigger r[a], r[b]} | 1 <= a < b < |r| && IsDtd(r[a]) ensures IsDtd(r[b]) {
      assert IsDtd(cs[a]) ==> IsDtd(cs[b]);
    }
  }

  lemma {:induction false} MoveStep(cs: Contents, i: nat)
    requires Good(cs) && 1 <= i && i + 1 < |cs| && (IsDtd(cs[i]) <==> IsDtd(cs[i + 1]))
    ensures Good(ListMoveDn(cs, i)) && MoveDn(Render(cs), i) == Render(ListMoveDn(cs, i))
  {
    MoveDnRenders(cs, i);
    var r := SwapAt(cs, i);
    forall a, b {:trigger r[a], r[b]} | 1 <= a < b < |r| && IsDtd(r[a]) ensures IsDtd(r[b]) {
      assert IsDtd(cs[a]) ==> IsDtd(cs[b]);
    }
    FreshOrder(r, i);
  }

  lemma {:induction false} CutStep(cs: Contents, i: nat)
    requires Good(cs) && CanCut(Render(cs), i)
    ensures 1 <= i < |cs| && Good(ListCut(cs, i)) && Cut(Render(cs), i) == Render(ListCut(cs, i))
  {
    KindByType(cs, i);
    CutRenders(cs, i);
    var r := RemoveAt(cs, i);
    forall a, b {:trigger r[a], r[b]} | 1 <= a < b < |r| && IsDtd(r[a]) ensures IsDtd(r[b]) {
      assert IsDtd(cs[if a < i then a else a + 1]) ==> IsDtd(cs[if b < i then b else b + 1]);
    }
    FreshOrder(r, i);
  }

  lemma {:induction false} SubOrder(cs: Contents, p: nat, r: Contents)
    requires DtdsLast(cs) && 1 <= p < |cs| == |r| && HasHeader(cs[p]) && HasHeader(r[p])
    requires forall k {:trigger r[k]} :: 0 <= k < |r| && k != p ==> r[k].(lag := 0) == cs[k].(lag := 0)
    ensures DtdsLast(r)
  {
    forall a, b {:trigger r[a], r[b]} | 1 <= a < b < |r| && IsDtd(r[a]) ensures IsDtd(r[b]) {
      assert IsDtd(cs[a]) ==> IsDtd(cs[b]);
    }
  }

  /** The addressed sub-group exists in the contents, in a block with a header part. */
  lemma {:induction false} SubTarget(cs: Contents, p: nat, k: nat)
    requires Sound(cs) && SubAt(Render(cs), p, k) && Render(cs).grps[p].hdrSz > 0
    ensures SubIn(cs, p, k) && Render(cs).grps[p] == RenderAt(cs, p)
    ensures |RenderAt(cs, p).subs| == |cs[p].subs|
  {
    KindByType(cs, p);
    if p >= 1 { assert IsBlock(cs[p]); }
  }

  lemma {:induction false} SubInsStep(cs: Contents, p: nat, k: nat, s: Sub, up: bool)
    requires Good(cs) && SubAt(Render(cs), p, k) && SubFits(Render(cs), p, s) && Render(cs).grps[p].hdrSz > 0
    ensures SubIn(cs, p, k) && |Render(cs).grps[p].inst| == 32
    ensures var r := ListSubInsert(cs, p, if up then k else k + 1, StripSub(s));
            Good(r) && (if up then SubInsertUp(Render(cs), p, k, s) else SubInsertDn(Render(cs), p, k, s)) == Render(r)
  {
    SubTarget(cs, p, k);
    assert SubRoom(cs, p, StripSub(s));
    if up { SubInsertUpRenders(cs, p, k, s); } else { SubInsertDnRenders(cs, p, k, s); }
    var j := if up then k else k + 1;
    SubInsertSound(cs, p, j, StripSub(s));
    SubOrder(cs, p, ListSubInsert(cs, p, j, StripSub(s)));
  }

  lemma {:induction false} SubCutStep(cs: Contents, p: nat, k: nat)
    requires Good(cs) && SubAt(Render(cs), p, k) && Render(cs).grps[p].hdrSz > 0
    ensures SubIn(cs, p, k) && |Render(cs).grps[p].inst| == 32
    ensures Good(ListSubCut(cs, p, k)) && SubCut(Render(cs), p, k) == Render(ListSubCut(cs, p, k))
  {
    SubTarget(cs, p, k);
    SubCutRenders(cs, p, k);
    SubCutSound(cs, p, k);
    SubOrder(cs, p, ListSubCut(cs, p, k));
  }

  lemma {:induction false} SubMoveStep(cs: Contents, p: nat, k: nat)
    requires Good(cs) && SubAt(Render(cs), p, k + 1) && Render(cs).grps[p].hdrSz > 0
    ensures SubIn(cs, p, k + 1)
    ensures Good(ListSubMoveDn(cs, p, k)) && SubMoveDn(Render(cs), p, k) == Render(ListSubMoveDn(cs, p, k))
  {
    SubTarget(cs, p, k + 1);
    SubMoveDnRenders(cs, p, k);
    PayloadSwap(cs[p].subs, k, |cs[p].subs|);
    SubOrder(cs, p, ListSubMoveDn(cs, p, k));
  }

  lemma {:induction false} MoveGuards(cs: Contents, i: nat)
    requires Good(cs) && (CanMoveDn(Render(cs), i) || CanMoveUp(Render(cs), i + 1))
    ensures 1 <= i && i + 1 < |cs| && (IsDtd(cs[i]) <==> IsDtd(cs[i + 1]))
  {
    KindByType(cs, i);
    KindByType(cs, i + 1);
    assert i == 0 || (IsDtd(cs[i]) ==> IsDtd(cs[i + 1]));
  }

  /** One allowed edit of a rendered tree renders the edited list, which is good again. */
  lemma {:induction false} StepRefines(cs: Contents, op: Op)
    requires Good(cs) && Allowed(Render(cs), op)
    ensures ListAllowed(cs, op) && Good(ListApply(cs, op))
    ensures Apply(Render(cs), op) == Render(ListApply(cs, op))
  {
    if IsSubOp(op) { SubStep(cs, op); }
    else if op.Raise? || op.Lower? || op.Remove? { MoveCutStep(cs, op); }
    else { SourceStep(cs, op); }
  }

  lemma {:induction false} SourceStep(cs: Contents, op: Op)
    requires Good(cs) && Allowed(Render(cs), op) && (op.InsertAbove? || op.InsertBelow? || op.PasteOver?)
    ensures ListAllowed(cs, op) && Good(ListApply(cs, op))
    ensures Apply(Render(cs), op) == Render(ListApply(cs, op))
  {
    if op.InsertAbove? { InsUpStep(cs, op.i, op.g); }
    else if op.InsertBelow? { InsDnStep(cs, op.i, op.g); }
    else { PasteStep(cs, op.i, op.g); }
  }

  lemma {:induction false} MoveCutStep(cs: Contents, op: Op)
    requires Good(cs) && Allowed(Render(cs), op) && (op.Raise? || op.Lower? || op.Remove?)
    ensures ListAllowed(cs, op) && Good(ListApply(cs, op))
    ensures Apply(Render(cs), op) == Render(ListApply(cs, op))
  {
    if op.Remove? { CutStep(cs, op.i); } else if op.Lower? { MovDnStep(cs, op); } else { MovUpStep(cs, op); }
  }

  lemma {:induction false} MovDnStep(cs: Contents, op: Op)
    requires Good(cs) && Allowed(Render(cs), op) && op.Lower?
    ensures ListAllowed(cs, op) && Good(ListApply(cs, op))
    ensures Apply(Render(cs), op) == Render(ListApply(cs, op))
  {
    MoveGuards(cs, op.i);
    MoveStep(cs, op.i);
  }

  lemma {:induction false} MovUpStep(cs: Contents, op: Op)
    requires Good(cs) && Allowed(Render(cs), op) && op.Raise?
    ensures ListAllowed(cs, op) && Good(ListApply(cs, op))
    ensures Apply(Render(cs), op) == Render(ListApply(cs, op))
  {
    MoveGuards(cs, op.i - 1);
    MoveStep(cs, op.i - 1);
  }

  lemma {:induction false} SubStep(cs: Contents, op: Op)
    requires Good(cs) && Allowed(Render(cs), op) && IsSubOp(op)
    ensures ListAllowed(cs, op) && Good(ListApply(cs, op))
    ensures Apply(Render(cs), op) == Render(ListApply(cs, op))
  {
    if op.SubInsertAbove? { SubInsUpStep(cs, op); }
    else if op.SubInsertBelow? { SubInsDnStep(cs, op); }
    else if op.SubRemove? { SubCutStep(cs, op.p, op.k); }
    else { SubMovStep(cs, op); }
  }

  lemma {:induction false} SubInsUpStep(cs: Contents, op: Op)
    requires Good(cs) && Allowed(Render(cs), op) && op.SubInsertAbove?
    ensures ListAllowed(cs, op) && Good(ListApply(cs, op))
    ensures Apply(Render(cs), op) == Render(ListApply(cs, op))
  {
    SubInsStep(cs, op.p, op.k, op.s, true);
  }

  lemma {:induction false} SubInsDnStep(cs: Contents, op: Op)
    requires Good(cs) && Allowed(Render(cs), op) && op.SubInsertBelow?
    ensures ListAllowed(cs, op) && Good(ListApply(cs, op))
    ensures Apply(Render(cs), op) == Render(ListApply(cs, op))
  {
    SubInsStep(cs, op.p, op.k, op.s, false);
  }

  lemma {:induction false} SubMovStep(cs: Contents, op: Op)
    requires Good(cs) && Allowed(Render(cs), op) && (op.SubRaise? || op.SubLower?)
    ensures ListAllowed(cs, op) && Good(ListApply(cs, op))
    ensures Apply(Render(cs), op) == Render(ListApply(cs, op))
  {
    SubMoveStep(cs, op.p, if op.SubRaise? then op.k - 1 else op.k);
  }

  // ---------------------------------------------------------------- runs

  predicate PossibleRun(t: Tree, ops: seq<Op>)
    decreases |ops|
  {
    ops == [] || (Possible(t, ops[0]) && PossibleRun(Apply(t, ops[0]), ops[1..]))
  }

  function Run(t: Tree, ops: seq<Op>): Tree
    requires PossibleRun(t, ops)
    decreases |ops|
  {
    if ops == [] then t else Run(Apply(t, ops[0]), ops[1..])
  }

  predicate AllowedRun(t: Tree, ops: seq<Op>)
    decreases |ops|
  {
    ops == [] || (Allowed(t, ops[0]) && AllowedRun(Apply(t, ops[0]), ops[1..]))
  }

  predicate ListAllowedRun(cs: Contents, ops: seq<Op>)
    decreases |ops|
  {
    ops == [] || (ListAllowed(cs, ops[0]) && ListAllowedRun(ListApply(cs, ops[0]), ops[1..]))
  }

  function ListRun(cs: Contents, ops: seq<Op>): Contents
    requires ListAllowedRun(cs, ops)
    decreases |ops|
  {
    if ops == [] then cs else ListRun(ListApply(cs, ops[0]), ops[1..])
  }

  /** Any run of allowed edits refines the run of list edits on the contents. */
  lemma {:induction false} RunRefines(cs: Contents, ops: seq<Op>)
    requires Good(cs) && AllowedRun(Render(cs), ops)
    ensures PossibleRun(Render(cs), ops) && ListAllowedRun(cs, ops) && Good(ListRun(cs, ops))
    ensures Run(Render(cs), ops) == Render(ListRun(cs, ops))
    decreases |ops|
  {
    if ops != [] {
      StepRefines(cs, ops[0]);
      RunRefines(ListApply(cs, ops[0]), ops[1..]);
    }
  }

  // ---------------------------------------------------------------- what holds after any run

  /** Total sizes of groups 1 .. n-1. */
  function Behind(grps: seq<Grp>, n: nat): int
    requires 1 <= n <= |grps|
  {
    if n == 1 then 0 else Behind(grps, n - 1) + grps[n - 1].datSz
  }

  /** The cached offsets of the top level: prefix sums behind the 4-byte header. */
  predicate Placed(grps: seq<Grp>, i: nat)
    requires i < |grps|
  {
    && grps[i].idx == i && grps[i].rel == grps[i].abs % BLOCK_SIZE
    && grps[i].abs == BLOCK_SIZE + if i == 0 then 0 else 4 + Behind(grps, i)
  }

  /** The caches of one group: its sub-groups tile it behind the header part, and its space adds up
      to the capacity of a data block. */
  predicate Packed(g: Grp) {
    && g.datSz == DataSize(g) + SubBytes(g.subs, |g.subs|)
    && (forall k {:trigger g.subs[k]} :: 0 <= k < |g.subs| ==>
          g.subs[k].rel == g.hdrSz + SubBytes(g.subs, k) && g.subs[k].idx == k)
    && g.used == SubBytes(g.subs, |g.subs|) && g.used + g.free == Cap(g.tid)
    && (g.hdrSz > 0 ==> g.free >= 0)
  }

  predicate AllPlaced(grps: seq<Grp>) {
    forall i :: 0 <= i < |grps| ==> Placed(grps, i)
  }

  predicate AllPacked(grps: seq<Grp>) {
    forall i {:trigger grps[i]} :: 1 <= i < |grps| ==> Packed(grps[i])
  }

  predicate Layout(t: Tree) {
    && AllPlaced(t.grps) && AllPacked(t.grps)
    && t.used == GrpBytes(t.grps, |t.grps|) && t.used + t.free == CEA_SPACE && t.free >= 0
  }

  /** The header first, then data blocks, then DTDs, by their type ids. */
  predicate TypeOrder(t: Tree) {
    && |t.grps| >= 1 && t.grps[0].tid == CHD
    && (forall i {:trigger t.grps[i]} :: 1 <= i < |t.grps| ==> t.grps[i].tid == DTD || DbcType(t.grps[i].tid))
    && forall i, j {:trigger t.grps[i], t.grps[j]} :: 1 <= i < j < |t.grps| ==>
      IsDtdType(t.grps[i].tid) ==> IsDtdType(t.grps[j].tid)
  }

  lemma {:induction false} BehindIsStart(cs: Contents, n: nat)
    requires Sound(cs) && 1 <= n <= |cs|
    ensures 4 + Behind(RenderGrps(cs), n) == Start(cs, n)
  {
    if n == 1 {
      assert Start(cs, 1) == Start(cs, 0) + Width(cs[0]);
    } else {
      BehindIsStart(cs, n - 1);
      BlockWidth(cs[n - 1]);
      assert RenderGrps(cs)[n - 1] == RenderAt(cs, n - 1);
    }
  }

  lemma {:induction false} RenderedPacked(c: GrpC, at: nat, i: nat)
    requires IsBlock(c)
    ensures Packed(RenderGrp(c, at, i))
  {
    var g := RenderGrp(c, at, i);
    SubBytesIsStart(g.subs, c, |g.subs|);
    forall k {:trigger g.subs[k]} | 0 <= k < |g.subs| ensures g.subs[k].rel == g.hdrSz + SubBytes(g.subs, k) {
      SubBytesIsStart(g.subs, c, k);
    }
  }

  lemma {:induction false} RenderedPlaced(cs: Contents, i: nat)
    requires Sound(cs) && i < |cs|
    ensures Placed(RenderGrps(cs), i)
  {
    assert RenderGrps(cs)[i] == RenderAt(cs, i);
    if i >= 1 {
      BehindIsStart(cs, i);
      BlockStart(cs, i);
    }
  }

  lemma {:induction false} BlockPacked(cs: Contents, i: nat)
    requires Sound(cs) && 1 <= i < |cs|
    ensures Packed(RenderGrps(cs)[i])
  {
    assert RenderGrps(cs)[i] == RenderAt(cs, i) && IsBlock(cs[i]);
    RenderedPacked(cs[i], Start(cs, i), i);
  }

  lemma {:induction false} RenderedGroups(cs: Contents)
    requires Sound(cs)
    ensures AllPlaced(RenderGrps(cs)) && AllPacked(RenderGrps(cs))
  {
    var grps := RenderGrps(cs);
    forall i | 0 <= i < |grps| ensures Placed(grps, i) {
      RenderedPlaced(cs, i);
    }
    forall i {:trigger grps[i]} | 1 <= i < |grps| ensures Packed(grps[i]) {
      BlockPacked(cs, i);
    }
  }

  lemma {:induction false} RenderedLayout(cs: Contents)
    requires Good(cs)
    ensures Layout(Render(cs)) && TypeOrder(Render(cs))
  {
    RenderedGroups(cs);
    RenderedOrder(cs);
    GrpBytesIsStart(cs, |cs|);
  }

  lemma {:induction false} RenderedOrder(cs: Contents)
    requires Good(cs)
    ensures TypeOrder(Render(cs))
  {
    var t := Render(cs);
    forall i {:trigger t.grps[i]} | 0 <= i < |t.grps|
      ensures t.grps[i].tid == cs[i].tid && (i >= 1 ==> IsBlock(cs[i]) && (IsDtd(cs[i]) <==> IsDtdType(cs[i].tid)))
    {
      KindByType(cs, i);
    }
    forall i, j {:trigger t.grps[i], t.grps[j]} | 1 <= i < j < |t.grps| && IsDtdType(t.grps[i].tid)
      ensures IsDtdType(t.grps[j].tid)
    {
      assert IsDtd(cs[i]) ==> IsDtd(cs[j]);
    }
    assert t.grps[0].tid == CHD;
  }

  /** After any run of allowed edits: prefix-sum offsets, indices, sizes that add up, used and free
      space equal to the capacities with nothing overdrawn, header first and DTDs last. */
  lemma {:induction false} RunKeepsLayout(cs: Contents, ops: seq<Op>)
    requires Good(cs) && AllowedRun(Render(cs), ops)
    ensures PossibleRun(Render(cs), ops)
    ensures Layout(Run(Render(cs), ops)) && TypeOrder(Run(Render(cs), ops))
  {
    RunRefines(cs, ops);
    RenderedLayout(ListRun(cs, ops));
  }
}
