/** Where the guards let an edit through that breaks the layout: below a lone header, and behind the
    last part of a block without a header part. */
module GroupScope {
  import opened Bytes
  import opened GroupTree
  import opened GroupContent
  import opened GroupEdits
  import opened GroupRuns
  import opened GroupShift
  import opened BlockSplit
  import opened DataBlocks

  // ---------------------------------------------------------------- blocks without a header part

  /** Only insertion behind the last part of such a block is guarded: the guard looks at the next
      part, and there is none. */
  lemma {:induction false} FlatOnlyAppends(cs: Contents, op: Op)
    requires Good(cs) && Possible(Render(cs), op) && IsSubOp(op) && !InScope(Render(cs), op)
    ensures 1 <= op.p < |cs| && IsDbc(cs[op.p]) && cs[op.p].hdrSz == 0
    ensures op.SubInsertBelow? && op.k + 1 == |cs[op.p].subs|
  {
    KindByType(cs, op.p);
    if op.p >= 1 {
      assert IsBlock(cs[op.p]);
      var g := RenderAt(cs, op.p);
      assert Render(cs).grps[op.p] == g && g.hdrSz == cs[op.p].hdrSz == 0 && |g.subs| == |cs[op.p].subs|;
      assert FixedParts(cs[op.p].subs);
      forall k {:trigger g.subs[k]} | 0 <= k < |g.subs| ensures g.subs[k].tid.dbcFixed {
        assert g.subs[k].tid == cs[op.p].subs[k].tid;
      }
    }
  }

  /** That guard asks for room and the same parent type only. */
  lemma {:induction false} AppendGuardExact(cs: Contents, p: nat, s: Sub)
    requires Good(cs) && 1 <= p < |cs| && cs[p].subs != []
    ensures var k := |cs[p].subs| - 1;
            SubCanInsertDn(Render(cs), p, k, s)
            <==> SubRoom(cs, p, StripSub(s)) && SameParent(s.tid, cs[p].subs[k].tid)
  {
    KindByType(cs, p);
    var (g, k) := (RenderAt(cs, p), |cs[p].subs| - 1);
    assert g.subs[k] == RenderSub(cs[p], BLOCK_SIZE + Start(cs, p), k);
  }

  lemma {:induction false} BytesAtLeast(subs: seq<Sub>, j: nat, n: nat)
    requires j < n <= |subs|
    ensures SubBytes(subs, n) >= |subs[j].bytes|
  {
    if j < n - 1 { BytesAtLeast(subs, j, n - 1); }
  }

  /** What insertion behind the last part leaves of the block: its size is the new bytes alone, and
      they are among its parts once more. */
  lemma {:induction false} AppendedPart(t: Tree, p: nat, k: nat, s: Sub)
    requires Editable(t, p, k) && k + 1 == |t.grps[p].subs|
    ensures var u := SubInsertDn(t, p, k, s);
            |u.grps| == |t.grps| && u.grps[p].hdrSz == t.grps[p].hdrSz
            && SubBytes(u.grps[p].subs, |u.grps[p].subs|) >= |s.bytes|
  {
    var (g, at) := (t.grps[p], t.grps[p].subs[k]);
    var subs := UpdRel(InsertAt(g.subs, k, s), k, at.abs, at.rel);
    UpdRelAt(InsertAt(g.subs, k, s), k, at.abs, at.rel, k);
    UpdFromAt(t.grps[p := WithSubs(g, subs)], p, g.abs, g.abs % BLOCK_SIZE, false, p);
    SubInsertUpShape(t, p, k, s);
    var h := SubInsertUp(t, p, k, s).grps[p];
    assert h.subs == subs && h.subs[k].bytes == s.bytes;
    UpdRelAt(SwapAt(subs, k), k, subs[k].abs, subs[k].rel, k + 1);
    var news := UpdRel(SwapAt(subs, k), k, subs[k].abs, subs[k].rel);
    BytesAtLeast(news, k + 1, |news|);
  }

  lemma {:induction false} AppendBreaksLayout(cs: Contents, p: nat, s: Sub)
    requires Good(cs) && 1 <= p < |cs| && cs[p].hdrSz == 0 && cs[p].subs != [] && s.bytes != []
    ensures Editable(Render(cs), p, |cs[p].subs| - 1)
    ensures !Layout(SubInsertDn(Render(cs), p, |cs[p].subs| - 1, s))
  {
    KindByType(cs, p);
    assert IsBlock(cs[p]);
    var k := |cs[p].subs| - 1;
    AppendedPart(Render(cs), p, k, s);
    var u := SubInsertDn(Render(cs), p, k, s);
    assert !Packed(u.grps[p]);
  }

  /** A VESA display device block, as strict parsing leaves it behind a header, takes any unknown-data
      part of its own type with 1 to 30 bytes behind its fixed parts, and the layout is gone. */
  lemma {:induction false} VdddTakesPart(h: GrpC, b: seq<Byte>, s: Sub)
    requires IsHdr(h) && WholeBlock(b) && StrictInit(b).Some? && StrictInit(b).value.tid == VDDD
    requires 1 <= |s.bytes| <= 30 && SameParent(s.tid, VDDD)
    ensures var cs := [h, StrictInit(b).value];
            Good(cs) && SubCanInsertDn(Render(cs), 1, 4, s) && Editable(Render(cs), 1, 4)
            && !Layout(SubInsertDn(Render(cs), 1, 4, s))
  {
    var c := VdddContent(b);
    var cs := [h, c];
    assert Start(cs, 1) == Start(cs, 0) + Width(h) == 4 && Start(cs, 2) == 4 + Width(c);
    AppendGuardExact(cs, 1, s);
    AppendBreaksLayout(cs, 1, s);
  }

  lemma {:induction false} VdddContent(b: seq<Byte>) returns (c: GrpC)
    requires WholeBlock(b) && StrictInit(b).Some? && StrictInit(b).value.tid == VDDD
    ensures c == StrictInit(b).value && IsBlock(c) && Width(c) == 32 && c.hdrSz == 0 && c.subs == VdddSubs()
  {
    c := StrictInit(b).value;
    StrictKeepsBytes(b);
    AcceptedTid(b);
    VdddClass(TagCode(b[0]), if |b| > 1 then b[1] else 0);
  }

  lemma {:induction false} VdddClass(tag: nat, etag: nat)
    requires ClassOf(tag, etag) != NoClass && ClassTid(ClassOf(tag, etag)) == VDDD
    ensures ClassOf(tag, etag) == Vddd
  {
  }

  // ---------------------------------------------------------------- exactly the edits in scope

  /** One guarded edit, sub-groups not empty: the layout holds afterwards exactly if it is in scope. */
  lemma {:induction false} StepLayoutExact(cs: Contents, op: Op)
    requires Good(cs) && Possible(Render(cs), op) && (InsertsSub(op) ==> op.s.bytes != [])
    ensures Layout(Apply(Render(cs), op)) <==> InScope(Render(cs), op)
  {
    if InScope(Render(cs), op) {
      StepRefines(cs, op);
      RenderedLayout(ListApply(cs, op));
    } else if IsSubOp(op) {
      FlatOnlyAppends(cs, op);
      AppendBreaksLayout(cs, op.p, op.s);
    } else {
      StepShifts(cs, op, false);
      LoneOnlyInserts(cs, op);
      LoneGrows(cs, op);
      ShiftBreaksLayout(ListApply(cs, op));
    }
  }

  lemma {:induction false} LoneGrows(cs: Contents, op: Op)
    requires Good(cs) && |cs| == 1 && Possible(Render(cs), op) && op.InsertBelow?
    ensures ListAllowed(cs, op) && |ListApply(cs, op)| == 2
  {
  }

  predicate FullSubs(ops: seq<Op>) {
    forall i {:trigger ops[i]} :: 0 <= i < |ops| && InsertsSub(ops[i]) ==> ops[i].s.bytes != []
  }

  /** The layout holds after each edit. */
  predicate LayoutThroughout(t: Tree, ops: seq<Op>)
    requires PossibleRun(t, ops)
    decreases |ops|
  {
    ops == [] || (Layout(Apply(t, ops[0])) && LayoutThroughout(Apply(t, ops[0]), ops[1..]))
  }

  /** Any run of guarded edits keeps the layout at every step exactly if every edit is in scope. */
  lemma {:induction false} RunScopeExact(cs: Contents, ops: seq<Op>)
    requires Good(cs) && PossibleRun(Render(cs), ops) && FullSubs(ops)
    ensures LayoutThroughout(Render(cs), ops) <==> AllowedRun(Render(cs), ops)
    decreases |ops|
  {
    if ops != [] {
      StepLayoutExact(cs, ops[0]);
      if InScope(Render(cs), ops[0]) {
        StepRefines(cs, ops[0]);
        RestFull(ops);
        RunScopeExact(ListApply(cs, ops[0]), ops[1..]);
      }
    }
  }

  lemma {:induction false} RestFull(ops: seq<Op>)
    requires ops != [] && FullSubs(ops)
    ensures FullSubs(ops[1..])
  {
    forall i {:trigger ops[1..][i]} | 0 <= i < |ops[1..]| && InsertsSub(ops[1..][i]) ensures ops[1..][i].s.bytes != [] {
      assert ops[1..][i] == ops[i + 1];
    }
  }
}
