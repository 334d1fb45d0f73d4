/** What guarded edits do to the data of a tree, with no condition on the tree or on the edit beyond its
    guard: types, bytes, sizes and parts are edited as a plain list.  Together with the books of module
    GroupBooks this list determines every cache but the absolute offsets of sub-groups. */
module GroupItems {
  import opened Bytes
  import opened GroupTree
  import opened GroupContent
  import opened GroupEdits
  import opened GroupRuns
  import opened GroupShift
  import opened GroupBooks
  import opened GroupCapacity

  /** A group without offsets, index and counters. */
  datatype Item = Item(tid: Tid, inst: seq<Byte>, hdrSz: nat, datSz: int, parts: seq<SubC>)

  function Parts(subs: seq<Sub>): (r: seq<SubC>)
    ensures |r| == |subs| && forall k {:trigger r[k]} :: 0 <= k < |r| ==> r[k] == StripSub(subs[k])
  {
    seq(|subs|, k requires 0 <= k < |subs| => StripSub(subs[k]))
  }

  function ItemOf(g: Grp): Item { Item(g.tid, g.inst, g.hdrSz, g.datSz, Parts(g.subs)) }

  function Items(grps: seq<Grp>): (r: seq<Item>)
    ensures |r| == |grps| && forall i {:trigger r[i]} :: 0 <= i < |r| ==> r[i] == ItemOf(grps[i])
  {
    seq(|grps|, i requires 0 <= i < |grps| => ItemOf(grps[i]))
  }

  /** New parts: their bytes give the size and the stored length of the block. */
  function WithParts(it: Item, parts: seq<SubC>): Item
    requires |it.inst| == 32
  {
    var n := SubStart(parts, |parts|);
    it.(parts := parts, datSz := it.hdrSz + n, inst := it.inst[0 := TagCode(it.inst[0]) * 32 + n % 32])
  }

  predicate PartAt(its: seq<Item>, p: nat, k: nat) { p < |its| && k < |its[p].parts| && |its[p].inst| == 32 }

  predicate ItemAllowed(its: seq<Item>, op: Op) {
    match op
    case InsertAbove(i, g) => i < |its|
    case InsertBelow(i, g) => i < |its|
    case PasteOver(i, g) => i < |its|
    case Raise(i) => 0 < i < |its|
    case Lower(i) => i + 1 < |its|
    case Remove(i) => i < |its|
    case SubInsertAbove(p, k, s) => PartAt(its, p, k)
    case SubInsertBelow(p, k, s) => PartAt(its, p, k)
    case SubRaise(p, k) => PartAt(its, p, k) && k > 0
    case SubLower(p, k) => PartAt(its, p, k + 1)
    case SubRemove(p, k) => PartAt(its, p, k)
  }

  function Reparted(its: seq<Item>, p: nat, parts: seq<SubC>): seq<Item>
    requires p < |its| && |its[p].inst| == 32
  {
    its[p := WithParts(its[p], parts)]
  }

  /** The edit of the list. */
  function ItemApply(its: seq<Item>, op: Op): seq<Item>
    requires ItemAllowed(its, op)
  {
    match op
    case InsertAbove(i, g) => InsertAt(its, i, ItemOf(g))
    case InsertBelow(i, g) => InsertAt(its, i + 1, ItemOf(g))
    case PasteOver(i, g) => its[i := ItemOf(g)]
    case Raise(i) => SwapAt(its, i - 1)
    case Lower(i) => SwapAt(its, i)
    case Remove(i) => RemoveAt(its, i)
    case SubInsertAbove(p, k, s) => Reparted(its, p, InsertAt(its[p].parts, k, StripSub(s)))
    case SubInsertBelow(p, k, s) => Reparted(its, p, InsertAt(its[p].parts, k + 1, StripSub(s)))
    case SubRaise(p, k) => its[p := its[p].(parts := SwapAt(its[p].parts, k - 1))]
    case SubLower(p, k) => its[p := its[p].(parts := SwapAt(its[p].parts, k))]
    case SubRemove(p, k) => Reparted(its, p, RemoveAt(its[p].parts, k))
  }

  // ---------------------------------------------------------------- updates leave the data alone

  lemma {:induction false} UpdParts(subs: seq<Sub>, k: nat, abs: int, rel: int)
    ensures Parts(UpdRel(subs, k, abs, rel)) == Parts(subs)
  {
    var (a, b) := (Parts(UpdRel(subs, k, abs, rel)), Parts(subs));
    forall j {:trigger a[j]} | 0 <= j < |a| ensures a[j] == b[j] { UpdRelAt(subs, k, abs, rel, j); }
  }

  lemma {:induction false} MovedItem(g: Grp, abs: int, rel: int, i: nat, soffs: bool)
    ensures ItemOf(Moved(g, abs, rel, i, soffs)) == ItemOf(g)
  {
    if soffs && g.subs != [] { UpdParts(g.subs, 0, abs + g.subs[0].rel, g.subs[0].rel); }
  }

  lemma {:induction false} UpdItem(grps: seq<Grp>, i: nat, abs: int, rel: int, soffs: bool, j: nat)
    requires j < |grps|
    ensures ItemOf(UpdFrom(grps, i, abs, rel, soffs)[j]) == ItemOf(grps[j])
  {
    UpdFromAt(grps, i, abs, rel, soffs, j);
    var d := DatTo(grps, j) - if i <= |grps| then DatTo(grps, i) else 0;
    if j >= i { MovedItem(grps[j], abs + d, rel + d, j, soffs); }
  }

  lemma {:induction false} EqualItems(a: seq<Item>, b: seq<Item>)
    requires |a| == |b| && forall k {:trigger a[k]} :: 0 <= k < |a| ==> a[k] == b[k]
    ensures a == b
  {
  }

  lemma {:induction false} UpdItems(grps: seq<Grp>, i: nat, abs: int, soffs: bool)
    ensures Items(UpdAbs(grps, i, abs, soffs)) == Items(grps)
  {
    var (a, b) := (Items(UpdAbs(grps, i, abs, soffs)), Items(grps));
    forall j {:trigger a[j]} | 0 <= j < |a| ensures a[j] == b[j] { UpdItem(grps, i, abs, abs % BLOCK_SIZE, soffs, j); }
    EqualItems(a, b);
  }

  lemma {:induction false} SettledItems(gs: seq<Grp>, i: nat, abs: int)
    ensures Items(Settled(gs, i, abs).grps) == Items(gs)
  {
    if i < |gs| { UpdItems(gs, i, abs, true); }
  }

  // ---------------------------------------------------------------- edits of blocks

  lemma {:induction false} InsertUpItems(t: Tree, i: nat, g: Grp)
    requires i < |t.grps|
    ensures Items(InsertUp(t, i, g).grps) == InsertAt(Items(t.grps), i, ItemOf(g))
  {
    SettledItems(InsertAt(t.grps, i, g), i, t.grps[i].abs);
    EqualItems(Items(InsertAt(t.grps, i, g)), InsertAt(Items(t.grps), i, ItemOf(g)));
  }

  lemma {:induction false} MoveDnItems(t: Tree, i: nat)
    requires i + 1 < |t.grps|
    ensures Items(MoveDn(t, i).grps) == SwapAt(Items(t.grps), i)
  {
    UpdItems(SwapAt(t.grps, i), i, t.grps[i].abs, true);
    EqualItems(Items(SwapAt(t.grps, i)), SwapAt(Items(t.grps), i));
  }

  lemma {:induction false} SwapLast<T>(s: seq<T>, x: T)
    requires s != []
    ensures SwapAt(InsertAt(s, |s| - 1, x), |s| - 1) == InsertAt(s, |s|, x)
  {
  }

  lemma {:induction false} InsertDnItems(t: Tree, i: nat, g: Grp)
    requires i < |t.grps|
    ensures Items(InsertDn(t, i, g).grps) == InsertAt(Items(t.grps), i + 1, ItemOf(g))
  {
    if i + 1 < |t.grps| {
      InsertUpItems(t, i + 1, g);
    } else {
      InsertUpItems(t, i, g);
      MoveDnItems(InsertUp(t, i, g), i);
      SwapLast(Items(t.grps), ItemOf(g));
    }
  }

  lemma {:induction false} PasteItems(t: Tree, i: nat, g: Grp)
    requires i < |t.grps|
    ensures Items(Paste(t, i, g).grps) == Items(t.grps)[i := ItemOf(g)]
  {
    SettledItems(t.grps[i := g], i, t.grps[i].abs);
    EqualItems(Items(t.grps[i := g]), Items(t.grps)[i := ItemOf(g)]);
  }

  lemma {:induction false} CutItems(t: Tree, i: nat)
    requires i < |t.grps|
    ensures Items(Cut(t, i).grps) == RemoveAt(Items(t.grps), i)
  {
    SettledItems(RemoveAt(t.grps, i), i, t.grps[i].abs);
    EqualItems(Items(RemoveAt(t.grps, i)), RemoveAt(Items(t.grps), i));
  }

  // ---------------------------------------------------------------- edits of sub-groups

  lemma {:induction false} PartBytes(subs: seq<Sub>, n: nat)
    requires n <= |subs|
    ensures SubBytes(subs, n) == SubStart(Parts(subs), n)
  {
    if n > 0 { PartBytes(subs, n - 1); }
  }

  lemma {:induction false} WithSubsItem(g: Grp, subs: seq<Sub>)
    requires |g.inst| == 32
    ensures ItemOf(WithSubs(g, subs)) == WithParts(ItemOf(g), Parts(subs))
  {
    PartBytes(subs, |subs|);
  }

  /** Sub-groups edited and updated from k on, and the blocks behind moved. */
  lemma {:induction false} SubEditItems(t: Tree, p: nat, edited: seq<Sub>, k: nat, abs: int, rel: int)
    requires p < |t.grps| && |t.grps[p].inst| == 32
    ensures var u := Propagate(t, p, WithSubs(t.grps[p], UpdRel(edited, k, abs, rel)), t.grps[p].abs, false);
            Items(u.grps) == Reparted(Items(t.grps), p, Parts(edited))
  {
    var (g, r) := (t.grps[p], UpdRel(edited, k, abs, rel));
    UpdParts(edited, k, abs, rel);
    WithSubsItem(g, r);
    UpdItems(t.grps[p := WithSubs(g, r)], p, g.abs, false);
    EqualItems(Items(t.grps[p := WithSubs(g, r)]), Reparted(Items(t.grps), p, Parts(edited)));
  }

  lemma {:induction false} EqualParts(a: seq<SubC>, b: seq<SubC>)
    requires |a| == |b| && forall k {:trigger a[k]} :: 0 <= k < |a| ==> a[k] == b[k]
    ensures a == b
  {
  }

  lemma {:induction false} SubCutItems(t: Tree, p: nat, k: nat)
    requires Editable(t, p, k)
    ensures Items(SubCut(t, p, k).grps) == Reparted(Items(t.grps), p, RemoveAt(Parts(t.grps[p].subs), k))
  {
    var (g, s) := (t.grps[p], t.grps[p].subs[k]);
    SubEditItems(t, p, RemoveAt(g.subs, k), k, s.abs, s.rel);
    EqualParts(Parts(RemoveAt(g.subs, k)), RemoveAt(Parts(g.subs), k));
  }

  lemma {:induction false} SubInsertUpItems(t: Tree, p: nat, k: nat, s: Sub)
    requires Editable(t, p, k)
    ensures Items(SubInsertUp(t, p, k, s).grps)
         == Reparted(Items(t.grps), p, InsertAt(Parts(t.grps[p].subs), k, StripSub(s)))
  {
    var (g, at) := (t.grps[p], t.grps[p].subs[k]);
    SubEditItems(t, p, InsertAt(g.subs, k, s), k, at.abs, at.rel);
    EqualParts(Parts(InsertAt(g.subs, k, s)), InsertAt(Parts(g.subs), k, StripSub(s)));
  }

  lemma {:induction false} SubMoveDnItems(t: Tree, p: nat, k: nat)
    requires SubAt(t, p, k + 1)
    ensures var its := Items(t.grps);
            Items(SubMoveDn(t, p, k).grps) == its[p := its[p].(parts := SwapAt(its[p].parts, k))]
  {
    var (g, s, its) := (t.grps[p], t.grps[p].subs[k], Items(t.grps));
    var r := UpdRel(SwapAt(g.subs, k), k, s.abs, s.rel);
    UpdParts(SwapAt(g.subs, k), k, s.abs, s.rel);
    EqualParts(Parts(SwapAt(g.subs, k)), SwapAt(Parts(g.subs), k));
    EqualItems(Items(t.grps[p := g.(subs := r)]), its[p := its[p].(parts := SwapAt(its[p].parts, k))]);
  }

  /** Swapping two parts does not change the number of bytes. */
  lemma {:induction false} SwapParts(it: Item, parts: seq<SubC>, k: nat)
    requires |it.inst| == 32 && k + 1 < |parts|
    ensures WithParts(it, parts).(parts := SwapAt(parts, k)) == WithParts(it, SwapAt(parts, k))
  {
    PayloadSwap(parts, k, |parts|);
  }

  lemma {:induction false} SubAppendItems(t: Tree, p: nat, k: nat, s: Sub)
    requires Editable(t, p, k) && k + 1 == |t.grps[p].subs|
    ensures Items(SubInsertDn(t, p, k, s).grps)
         == Reparted(Items(t.grps), p, InsertAt(Parts(t.grps[p].subs), k + 1, StripSub(s)))
  {
    var (u, its, parts) := (SubInsertUp(t, p, k, s), Items(t.grps), Parts(t.grps[p].subs));
    var ins := InsertAt(parts, k, StripSub(s));
    SubInsertUpItems(t, p, k, s);
    SubInsertUpShape(t, p, k, s);
    SubMoveDnItems(u, p, k);
    assert Items(u.grps)[p] == WithParts(its[p], ins);
    SwapParts(its[p], ins, k);
    SwapLast(parts, StripSub(s));
    SameItems(SubMoveDn(u, p, k).grps, its, p, ins, k);
  }

  lemma {:induction false} SameItems(grps: seq<Grp>, its: seq<Item>, p: nat, ins: seq<SubC>, k: nat)
    requires p < |its| && |its[p].inst| == 32 && k + 1 < |ins|
    requires Items(grps) == Reparted(its, p, ins)[p := WithParts(its[p], ins).(parts := SwapAt(ins, k))]
    requires WithParts(its[p], ins).(parts := SwapAt(ins, k)) == WithParts(its[p], SwapAt(ins, k))
    ensures Items(grps) == Reparted(its, p, SwapAt(ins, k))
  {
  }

  // ---------------------------------------------------------------- any edit, any run

  lemma {:induction false} TopItems(t: Tree, op: Op)
    requires Possible(t, op) && !IsSubOp(op)
    ensures ItemAllowed(Items(t.grps), op) && Items(Apply(t, op).grps) == ItemApply(Items(t.grps), op)
  {
    match op
    case InsertAbove(i, g) => InsertUpItems(t, i, g);
    case InsertBelow(i, g) => InsertDnItems(t, i, g);
    case PasteOver(i, g) => PasteItems(t, i, g);
    case Raise(i) => MoveDnItems(t, i - 1);
    case Lower(i) => MoveDnItems(t, i);
    case Remove(i) => CutItems(t, i);
    case _ =>
  }

  lemma {:induction false} SubInsertDnItems(t: Tree, p: nat, k: nat, s: Sub)
    requires Editable(t, p, k)
    ensures Items(SubInsertDn(t, p, k, s).grps)
         == Reparted(Items(t.grps), p, InsertAt(Parts(t.grps[p].subs), k + 1, StripSub(s)))
  {
    if k + 1 < |t.grps[p].subs| { SubInsertUpItems(t, p, k + 1, s); } else { SubAppendItems(t, p, k, s); }
  }

  lemma {:induction false} SubItems(t: Tree, op: Op)
    requires Possible(t, op) && IsSubOp(op)
    ensures ItemAllowed(Items(t.grps), op) && Items(Apply(t, op).grps) == ItemApply(Items(t.grps), op)
  {
    if InsertsSub(op) { SubInsertItems(t, op); } else { SubOtherItems(t, op); }
  }

  lemma {:induction false} SubInsertItems(t: Tree, op: Op)
    requires Possible(t, op) && InsertsSub(op)
    ensures ItemAllowed(Items(t.grps), op) && Items(Apply(t, op).grps) == ItemApply(Items(t.grps), op)
  {
    if op.SubInsertAbove? {
      SubInsertUpItems(t, op.p, op.k, op.s);
    } else {
      SubInsertDnItems(t, op.p, op.k, op.s);
    }
  }

  lemma {:induction false} SubOtherItems(t: Tree, op: Op)
    requires Possible(t, op) && IsSubOp(op) && !InsertsSub(op)
    ensures ItemAllowed(Items(t.grps), op) && Items(Apply(t, op).grps) == ItemApply(Items(t.grps), op)
  {
    if op.SubRemove? { SubCutItems(t, op.p, op.k); }
    else { SubMoveDnItems(t, op.p, if op.SubRaise? then op.k - 1 else op.k); }
  }

  /** Any guarded edit of any tree is the list edit of its data. */
  lemma {:induction false} StepItems(t: Tree, op: Op)
    requires Possible(t, op)
    ensures ItemAllowed(Items(t.grps), op) && Items(Apply(t, op).grps) == ItemApply(Items(t.grps), op)
  {
    if IsSubOp(op) { SubItems(t, op); } else { TopItems(t, op); }
  }

  predicate ItemAllowedRun(its: seq<Item>, ops: seq<Op>)
    decreases |ops|
  {
    ops == [] || (ItemAllowed(its, ops[0]) && ItemAllowedRun(ItemApply(its, ops[0]), ops[1..]))
  }

  function ItemRun(its: seq<Item>, ops: seq<Op>): seq<Item>
    requires ItemAllowedRun(its, ops)
    decreases |ops|
  {
    if ops == [] then its else ItemRun(ItemApply(its, ops[0]), ops[1..])
  }

  /** Any run of guarded edits of any tree is the run of list edits of its data. */
  lemma {:induction false} RunItems(t: Tree, ops: seq<Op>)
    requires PossibleRun(t, ops)
    ensures ItemAllowedRun(Items(t.grps), ops) && Items(Run(t, ops).grps) == ItemRun(Items(t.grps), ops)
    decreases |ops|
  {
    if ops != [] {
      StepItems(t, ops[0]);
      RunItems(Apply(t, ops[0]), ops[1..]);
    }
  }

  // ---------------------------------------------------------------- the data determine the caches

  /** All caches are the same, but for the absolute offsets of sub-groups. */
  predicate SameCaches(h: Grp, g: Grp) {
    && h.(rel := g.rel, subs := g.subs) == g && (h.abs < 2 * BLOCK_SIZE ==> h.rel == g.rel) && |h.subs| == |g.subs|
    && forall k {:trigger h.subs[k]} :: 0 <= k < |h.subs| ==> h.subs[k].(abs := g.subs[k].abs) == g.subs[k]
  }

  lemma {:induction false} ItemTwins(h: Grp, g: Grp)
    requires ItemOf(h) == ItemOf(g)
    ensures SubTwins(h.subs, g.subs)
  {
    forall k {:trigger h.subs[k]} | 0 <= k < |h.subs|
      ensures |g.subs| == |h.subs| && h.subs[k].tid == g.subs[k].tid && h.subs[k].bytes == g.subs[k].bytes
    {
      assert Parts(h.subs)[k] == Parts(g.subs)[k];
    }
  }

  lemma {:induction false} SameItemDats(hs: seq<Grp>, gs: seq<Grp>, n: nat)
    requires Items(hs) == Items(gs) && n <= |hs|
    ensures |hs| == |gs| && DatTo(hs, n) == DatTo(gs, n) && GrpBytes(hs, n) == GrpBytes(gs, n)
  {
    assert |Items(hs)| == |Items(gs)|;
    if n > 0 {
      SameItemDats(hs, gs, n - 1);
      assert ItemOf(hs[n - 1]) == Items(hs)[n - 1] == Items(gs)[n - 1] == ItemOf(gs[n - 1]);
      ItemTwins(hs[n - 1], gs[n - 1]);
      TwinBytes(hs[n - 1].subs, gs[n - 1].subs, |hs[n - 1].subs|);
    }
  }

  lemma {:induction false} SameItemSubs(h: Grp, g: Grp)
    requires BlockOk(h) && BlockOk(g) && ItemOf(h) == ItemOf(g)
    ensures h.used == g.used && h.free == g.free && |h.subs| == |g.subs|
    ensures forall k {:trigger h.subs[k]} :: 0 <= k < |h.subs| ==> h.subs[k].(abs := g.subs[k].abs) == g.subs[k]
  {
    ItemTwins(h, g);
    TwinBytes(h.subs, g.subs, |h.subs|);
    forall k {:trigger h.subs[k]} | 0 <= k < |h.subs| ensures h.subs[k].(abs := g.subs[k].abs) == g.subs[k] {
      TwinBytes(h.subs, g.subs, k);
    }
  }

  lemma {:induction false} SameItemAt(t: Tree, u: Tree, sh: nat, i: nat)
    requires Books(t, sh) && Books(u, sh) && Items(t.grps) == Items(u.grps) && i < |t.grps|
    ensures i < |u.grps| && SameCaches(t.grps[i], u.grps[i])
  {
    SameItemDats(t.grps, u.grps, i);
    assert ItemOf(t.grps[i]) == Items(t.grps)[i] == Items(u.grps)[i] == ItemOf(u.grps[i]);
    assert PosAt(t.grps, sh, i) && PosAt(u.grps, sh, i);
    if i > 0 { SameItemSubs(t.grps[i], u.grps[i]); }
  }

  /** With right books, equal data mean equal offsets, indices, sizes and counters. */
  lemma {:induction false} BooksDetermine(t: Tree, u: Tree, sh: nat)
    requires Books(t, sh) && Books(u, sh) && Items(t.grps) == Items(u.grps)
    ensures |t.grps| == |u.grps| && t.used == u.used && t.free == u.free
    ensures forall i {:trigger t.grps[i]} :: 0 <= i < |t.grps| ==> SameCaches(t.grps[i], u.grps[i])
  {
    SameItemDats(t.grps, u.grps, |t.grps|);
    forall i {:trigger t.grps[i]} | 0 <= i < |t.grps| ensures SameCaches(t.grps[i], u.grps[i]) {
      SameItemAt(t, u, sh, i);
    }
  }

  /** After any run of guarded edits of a good tree: the data are those of the edited list, the books are
      right and the types in order. */
  lemma {:induction false} AnyRunRefines(cs: Contents, ops: seq<Op>)
    requires Good(cs) && PossibleRun(Render(cs), ops)
    ensures var (t, u) := (Render(cs), Run(Render(cs), ops));
            && ItemAllowedRun(Items(t.grps), ops) && Items(u.grps) == ItemRun(Items(t.grps), ops)
            && Books(u, if EverAlone(t, ops) then 1 else 0) && TypeOrder(u)
  {
    RenderedBooks(cs);
    RenderedOrder(cs);
    RunItems(Render(cs), ops);
    RunBooks(Render(cs), 0, ops);
  }
}
