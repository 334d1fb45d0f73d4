/** What the guards of sub-group edits mean, and what they keep: the parts of a block are of its own type. */
module SubGuards {
  import opened Bytes
  import opened GroupTree
  import opened GroupContent
  import opened GroupEdits
  import opened GroupRuns
  import opened GroupShift
  import opened GroupBooks
  import opened GroupCapacity
  import opened GroupItems
  import opened BlockSplit
  import opened InfoFrames
  import opened DataBlocks
  import opened CeaParser
  import opened CeaTiling

  // ---------------------------------------------------------------- exact guards

  /** Room for n more bytes in block c, whose header has one byte or two, and in the 127 of the array. */
  predicate RoomFor(cs: Contents, c: GrpC, n: nat) {
    Payload(c) + n <= (if c.tid.ext != 0 then 30 else 31) && Start(cs, |cs|) + n <= 127
  }

  lemma {:induction false} PartShown(cs: Contents, p: nat, k: nat)
    requires Good(cs) && 1 <= p < |cs| && k < |cs[p].subs|
    ensures var t := Render(cs);
            && SubAt(t, p, k) && |t.grps[p].subs| == |cs[p].subs| && t.grps[p].subs[k].tid == cs[p].subs[k].tid
            && t.free == 127 - Start(cs, |cs|)
            && t.grps[p].free == (if cs[p].tid.ext != 0 then 30 else 31) - Payload(cs[p])
  {
    KindByType(cs, p);
    assert RenderAt(cs, p).subs[k] == RenderSub(cs[p], BLOCK_SIZE + Start(cs, p), k);
  }

  /** A sub-group may go above part k exactly if it fits, part k is not fixed, and its type is that of part
      k by tag and extended tag. */
  lemma {:induction false} AboveGuardExact(cs: Contents, p: nat, k: nat, s: Sub)
    requires Good(cs) && 1 <= p < |cs| && k < |cs[p].subs|
    ensures var at := cs[p].subs[k].tid;
            SubCanInsertUp(Render(cs), p, k, s)
            <==> RoomFor(cs, cs[p], |s.bytes|) && !at.dbcFixed && s.tid.cea == at.cea && s.tid.ext == at.ext
  {
    PartShown(cs, p, k);
  }

  /** It may go below part k exactly if it may go above the next one, or behind the last if it fits and is
      of the type of the last. */
  lemma {:induction false} BelowGuardExact(cs: Contents, p: nat, k: nat, s: Sub)
    requires Good(cs) && 1 <= p < |cs| && k < |cs[p].subs|
    ensures var last := k + 1 == |cs[p].subs|;
            var at := cs[p].subs[if last then k else k + 1].tid;
            SubCanInsertDn(Render(cs), p, k, s)
            <==> RoomFor(cs, cs[p], |s.bytes|) && (last || !at.dbcFixed) && s.tid.cea == at.cea && s.tid.ext == at.ext
  {
    PartShown(cs, p, k);
    if k + 1 < |cs[p].subs| { PartShown(cs, p, k + 1); }
  }

  /** Part k may change places with the next one exactly if neither is fixed, seen from either of them. */
  lemma {:induction false} PartMoveExact(cs: Contents, p: nat, k: nat)
    requires Good(cs) && 1 <= p < |cs|
    ensures var (c, can) := (cs[p], SubCanMoveDn(Render(cs), p, k));
            && (can <==> k + 1 < |c.subs| && !Stuck(c.subs[k].tid) && !Stuck(c.subs[k + 1].tid))
            && (SubCanMoveUp(Render(cs), p, k + 1) <==> can)
  {
    if k + 1 < |cs[p].subs| {
      PartShown(cs, p, k);
      PartShown(cs, p, k + 1);
    } else {
      KindByType(cs, p);
    }
  }

  predicate Stuck(tid: Tid) { tid.edidFixed || tid.dbcFixed }

  /** Part k may be cut exactly if it is not fixed. */
  lemma {:induction false} PartCutExact(cs: Contents, p: nat, k: nat)
    requires Good(cs) && 1 <= p < |cs|
    ensures SubCanCut(Render(cs), p, k) <==> k < |cs[p].subs| && !Stuck(cs[p].subs[k].tid)
  {
    if k < |cs[p].subs| { PartShown(cs, p, k); } else { KindByType(cs, p); }
  }

  /** Of the blocks, exactly those without an extended tag may be inserted. */
  lemma {:induction false} InsertableExact(c: GrpC)
    requires IsBlock(c)
    ensures Insertable(c.tid) <==> c.tid.ext == 0
  {
  }

  // ---------------------------------------------------------------- the type of parts

  /** The parts carry the tag and the extended tag of their block. */
  predicate Akin(tid: Tid, parts: seq<SubC>) {
    forall k {:trigger parts[k]} :: 0 <= k < |parts| ==> parts[k].tid.cea == tid.cea && parts[k].tid.ext == tid.ext
  }

  predicate AllAkin(its: seq<Item>) {
    forall i {:trigger its[i]} :: 0 <= i < |its| ==> Akin(its[i].tid, its[i].parts)
  }

  predicate TreeAkin(t: Tree) { AllAkin(Items(t.grps)) }

  /** A command whose source, if it is a block, has parts of its own type. */
  predicate SourceAkin(op: Op) {
    Inserts(op) ==> Akin(op.g.tid, Parts(op.g.subs))
  }

  lemma {:induction false} ItemAkin(t: Tree, p: nat, k: nat)
    requires TreeAkin(t) && SubAt(t, p, k)
    ensures var (g, tid) := (t.grps[p], t.grps[p].subs[k].tid);
            tid.cea == g.tid.cea && tid.ext == g.tid.ext && Akin(g.tid, Parts(g.subs))
  {
    var it := Items(t.grps)[p];
    assert Akin(it.tid, it.parts) && it.parts[k] == StripSub(t.grps[p].subs[k]);
  }

  lemma {:induction false} AkinInsert(tid: Tid, parts: seq<SubC>, k: nat, s: SubC)
    requires Akin(tid, parts) && k <= |parts| && s.tid.cea == tid.cea && s.tid.ext == tid.ext
    ensures Akin(tid, InsertAt(parts, k, s))
  {
  }

  lemma {:induction false} AkinRemove(tid: Tid, parts: seq<SubC>, k: nat)
    requires Akin(tid, parts) && k < |parts|
    ensures Akin(tid, RemoveAt(parts, k))
  {
  }

  lemma {:induction false} AkinReplace(its: seq<Item>, p: nat, it: Item)
    requires AllAkin(its) && p < |its| && Akin(it.tid, it.parts)
    ensures AllAkin(its[p := it])
  {
  }

  lemma {:induction false} AkinInsertItem(its: seq<Item>, i: nat, it: Item)
    requires AllAkin(its) && i <= |its| && Akin(it.tid, it.parts)
    ensures AllAkin(InsertAt(its, i, it))
  {
  }

  /** The guard asks for the type of a part that is there. */
  lemma {:induction false} InsertedAkin(t: Tree, op: Op)
    requires Possible(t, op) && InsertsSub(op) && TreeAkin(t)
    ensures SubAt(t, op.p, op.k)
    ensures op.s.tid.cea == t.grps[op.p].tid.cea && op.s.tid.ext == t.grps[op.p].tid.ext
  {
    ItemAkin(t, op.p, if op.SubInsertAbove? || op.k + 1 == |t.grps[op.p].subs| then op.k else op.k + 1);
  }

  lemma {:induction false} SubInsertAkin(t: Tree, op: Op)
    requires Possible(t, op) && InsertsSub(op) && TreeAkin(t)
    ensures TreeAkin(Apply(t, op))
  {
    StepItems(t, op);
    InsertedAkin(t, op);
    ItemAkin(t, op.p, op.k);
    var (its, p) := (Items(t.grps), op.p);
    var parts := InsertAt(its[p].parts, if op.SubInsertAbove? then op.k else op.k + 1, StripSub(op.s));
    AkinInsert(its[p].tid, its[p].parts, if op.SubInsertAbove? then op.k else op.k + 1, StripSub(op.s));
    AkinReplace(its, p, WithParts(its[p], parts));
  }

  lemma {:induction false} SubOtherAkin(t: Tree, op: Op)
    requires Possible(t, op) && IsSubOp(op) && !InsertsSub(op) && TreeAkin(t)
    ensures TreeAkin(Apply(t, op))
  {
    StepItems(t, op);
    ItemAkin(t, op.p, op.k);
    var (its, p) := (Items(t.grps), op.p);
    if op.SubRemove? {
      AkinRemove(its[p].tid, its[p].parts, op.k);
      AkinReplace(its, p, WithParts(its[p], RemoveAt(its[p].parts, op.k)));
    } else {
      AkinReplace(its, p, its[p].(parts := SwapAt(its[p].parts, if op.SubRaise? then op.k - 1 else op.k)));
    }
  }

  lemma {:induction false} TopAkin(t: Tree, op: Op)
    requires Possible(t, op) && !IsSubOp(op) && SourceAkin(op) && TreeAkin(t)
    ensures TreeAkin(Apply(t, op))
  {
    StepItems(t, op);
    var its := Items(t.grps);
    if op.InsertAbove? { AkinInsertItem(its, op.i, ItemOf(op.g)); }
    else if op.InsertBelow? { AkinInsertItem(its, op.i + 1, ItemOf(op.g)); }
    else if op.PasteOver? { AkinReplace(its, op.i, ItemOf(op.g)); }
  }

  /** Any guarded edit of any tree keeps the parts of every block akin to it. */
  lemma {:induction false} StepAkin(t: Tree, op: Op)
    requires Possible(t, op) && SourceAkin(op) && TreeAkin(t)
    ensures TreeAkin(Apply(t, op))
  {
    if !IsSubOp(op) { TopAkin(t, op); } else if InsertsSub(op) { SubInsertAkin(t, op); } else { SubOtherAkin(t, op); }
  }

  predicate AkinSources(ops: seq<Op>) { forall i {:trigger ops[i]} :: 0 <= i < |ops| ==> SourceAkin(ops[i]) }

  lemma {:induction false} RunAkin(t: Tree, ops: seq<Op>)
    requires PossibleRun(t, ops) && AkinSources(ops) && TreeAkin(t)
    ensures TreeAkin(Run(t, ops))
    decreases |ops|
  {
    if ops != [] {
      StepAkin(t, ops[0]);
      RunAkin(Apply(t, ops[0]), ops[1..]);
    }
  }

  // ---------------------------------------------------------------- parsed blocks

  lemma {:induction false} WalkAkin(ds: seq<SubDsc>, d: nat, k: nat, rest: seq<Byte>, tid: Tid, rc: Rcode)
    requires d <= |ds|
    ensures Akin(tid, Walk(ds, d, k, rest, tid, rc).subs)
    decreases |ds| - d, |rest|, if d < |ds| && ds[d].cnt > k then ds[d].cnt - k else 0
  {
    if d < |ds| {
      if k >= ds[d].cnt {
        WalkAkin(ds, d + 1, 0, rest, tid, rc);
      } else if |rest| >= MinLen(ds[d].kind) {
        var init := InitSub(ds[d].kind, rest);
        if init.rc != Fault { WalkAkin(ds, d, k + 1, rest[init.size..], tid, init.rc); }
      }
    }
  }

  lemma {:induction false} FramesAkin(rest: seq<Byte>, edit: bool)
    ensures Akin(IFDB, WalkShort(rest, edit).subs)
    decreases |rest|
  {
    if rest != [] {
      var size := SubSize(HeadLen(TypeCode(rest[0])), rest);
      if TypeCode(rest[0]) != 0 && size <= |rest| { FramesAkin(rest[size..], edit); }
    }
  }

  lemma {:induction false} FrameBlockAkin(b: seq<Byte>)
    requires WholeBlock(b) && Accepted(InitIfdb(b, false)).Some?
    ensures var c := Accepted(InitIfdb(b, false)).value;
            c.tid == IFDB && Akin(IFDB, c.subs)
  {
    var rest := b[2..BlkLen(b[0]) + 1];
    AcceptedTiles(rest, false);
    FramesAkin(rest[SubSize(2, rest)..], false);
  }

  lemma {:induction false} RootAkin(b: seq<Byte>, d: RootDsc)
    requires WholeBlock(b) && 1 <= d.hdrSz <= 2 && Accepted(InitRoot(b, d, false)).Some?
    ensures var c := Accepted(InitRoot(b, d, false)).value;
            c.tid == d.tid && Akin(d.tid, c.subs)
  {
    WalkAkin(d.subs, 0, 0, BlockSplit.Behind(b, d), d.tid, StartCode(b, d));
  }

  /** Strict parsing gives every block parts of its own type. */
  lemma {:induction false} StrictAkin(b: seq<Byte>)
    requires WholeBlock(b) && StrictInit(b).Some?
    ensures var c := StrictInit(b).value;
            Akin(c.tid, c.subs)
  {
    ClassShape(TagCode(b[0]), if |b| > 1 then b[1] else 0);
    match ClassOf(TagCode(b[0]), if |b| > 1 then b[1] else 0)
    case Root(d) => RootAkin(b, d);
    case Ifdb => FrameBlockAkin(b);
    case _ =>
  }

  lemma {:induction false} ParsedAkin(ext: seq<Byte>, cs: Contents, i: nat)
    requires IsExt(ext) && ParseCea(ext) == Some(cs) && i < |cs|
    ensures Akin(cs[i].tid, cs[i].subs)
  {
    if ext[2] >= 4 { TiledAkin(ext, cs, i); } else { assert cs == [HeaderGrp(ext)]; }
  }

  lemma {:induction false} TiledAkin(ext: seq<Byte>, cs: Contents, i: nat)
    requires IsExt(ext) && ext[2] >= 4 && ParseCea(ext) == Some(cs) && i < |cs|
    ensures Akin(cs[i].tid, cs[i].subs)
  {
    var bs, k := AcceptedIsTiled(ext);
    if i > |bs| {
      assert cs[i] == Records(ext, ext[2], k)[i - 1 - |bs|];
    } else if i > 0 {
      assert cs[i] == Inits(bs)[i - 1] && Tile(bs[i - 1]);
      StrictAkin(bs[i - 1]);
    }
  }

  lemma {:induction false} RenderedParts(cs: Contents, i: nat)
    requires i < |cs|
    ensures Items(RenderGrps(cs))[i].tid == cs[i].tid && Items(RenderGrps(cs))[i].parts == cs[i].subs
  {
    var g := RenderAt(cs, i);
    assert RenderGrps(cs)[i] == g;
    forall k | 0 <= k < |cs[i].subs| ensures Parts(g.subs)[k] == cs[i].subs[k] {
      assert g.subs[k] == RenderSub(cs[i], BLOCK_SIZE + Start(cs, i), k);
    }
  }

  /** After any guarded run from a strictly parsed block, with sources whose own parts are akin, every part
      of every block carries the tag and the extended tag of its block. */
  lemma {:induction false} ParsedRunAkin(ext: seq<Byte>, cs: Contents, ops: seq<Op>)
    requires IsExt(ext) && ParseCea(ext) == Some(cs) && PossibleRun(Render(cs), ops) && AkinSources(ops)
    ensures TreeAkin(Run(Render(cs), ops))
  {
    var its := Items(RenderGrps(cs));
    forall i {:trigger its[i]} | 0 <= i < |its| ensures Akin(its[i].tid, its[i].parts) {
      RenderedParts(cs, i);
      ParsedAkin(ext, cs, i);
    }
    RunAkin(Render(cs), ops);
  }
}
