/** Sessions with any guarded edits, also those that leave blocks behind which do not parse by themselves,
    started from any strictly parsed block whose DTD offset is in the block. */
module AnySession {
  import opened Bytes
  import opened GroupTree
  import opened GroupContent
  import opened GroupEdits
  import opened GroupRuns
  import opened GroupShift
  import opened GroupLaws
  import opened BlockSplit
  import opened DataBlocks
  import opened Assembler
  import opened CeaImage
  import opened CeaParser
  import opened CeaTiling
  import opened RoundTrip
  import opened EditRoundTrip
  import opened ShiftedBlock
  import opened EditSession

  // ---------------------------------------------------------------- the header stays

  lemma {:induction false} FreshHead(cs: Contents, i: nat)
    requires cs != [] && cs[0].lag == 0
    ensures Fresh(cs, i)[0] == cs[0]
  {
  }

  lemma {:induction false} InsertHead(cs: Contents, op: Op)
    requires Good(cs) && cs[0].lag == 0 && Possible(Render(cs), op) && Inserts(op)
    ensures ListAllowed(cs, op) && ListApply(cs, op) != [] && ListApply(cs, op)[0] == cs[0]
  {
    if op.InsertAbove? {
      InsertUpGuardExact(cs, op.i, op.g);
      FreshHead(InsertAt(cs, op.i, Strip(op.g)), op.i);
    } else if op.PasteOver? {
      PasteGuardExact(cs, op.i, op.g);
      FreshHead(cs[op.i := Strip(op.g)], op.i);
    } else {
      FreshHead(InsertAt(cs, op.i + 1, Strip(op.g)), if op.i + 1 < |cs| then op.i + 1 else op.i);
    }
  }

  lemma {:induction false} MoveHead(cs: Contents, op: Op)
    requires Good(cs) && cs[0].lag == 0 && Possible(Render(cs), op) && (op.Raise? || op.Lower? || op.Remove?)
    ensures ListAllowed(cs, op) && ListApply(cs, op) != [] && ListApply(cs, op)[0] == cs[0]
  {
    if op.Remove? {
      CutGuardExact(cs, op.i);
      FreshHead(RemoveAt(cs, op.i), op.i);
    } else {
      var i := if op.Lower? then op.i else op.i - 1;
      MoveGuards(cs, i);
      FreshHead(SwapAt(cs, i), i);
    }
  }

  lemma {:induction false} SubHead(cs: Contents, op: Op)
    requires Good(cs) && Possible(Render(cs), op) && IsSubOp(op) && InScope(Render(cs), op)
    ensures ListAllowed(cs, op) && ListApply(cs, op) != [] && ListApply(cs, op)[0] == cs[0]
  {
    SubTarget(cs, op.p, if op.SubRaise? then op.k - 1 else op.k);
  }

  lemma {:induction false} StepHead(cs: Contents, op: Op)
    requires Good(cs) && cs[0].lag == 0 && Possible(Render(cs), op) && (IsSubOp(op) ==> InScope(Render(cs), op))
    ensures ListAllowed(cs, op) && ListApply(cs, op) != [] && ListApply(cs, op)[0] == cs[0]
  {
    if IsSubOp(op) { SubHead(cs, op); } else if Inserts(op) { InsertHead(cs, op); } else { MoveHead(cs, op); }
  }

  /** Any run that edits sub-groups in blocks with a header part keeps the header and good contents. */
  lemma {:induction false} RunHead(cs: Contents, ops: seq<Op>, shifted: bool)
    requires Writable(cs) && UsableRun(ShiftIf(shifted, Render(cs)), ops)
    ensures ListAllowedRun(cs, ops) && Writable(ListRun(cs, ops)) && ListRun(cs, ops)[0] == cs[0]
    decreases |ops|
  {
    if ops != [] {
      PossibleShifts(Render(cs), ops[0]);
      StepHead(cs, ops[0]);
      StepShifts(cs, ops[0], shifted);
      RunHead(ListApply(cs, ops[0]), ops[1..], shifted || |cs| == 1);
    }
  }

  // ---------------------------------------------------------------- the tree a session starts from

  /** The groups of cs; only a header alone may have other counters than they imply. */
  predicate Opened(t: Tree, cs: Contents) {
    t.grps == RenderGrps(cs) && (|cs| > 1 ==> t == Render(cs))
  }

  lemma {:induction false} SourceSmall(g: Grp)
    requires Source(g)
    ensures g.datSz <= 32
  {
  }

  /** The first edit of a header alone is possible whatever the counters are, and computes them anew. */
  lemma {:induction false} OpenedStep(t: Tree, cs: Contents, op: Op)
    requires Good(cs) && Opened(t, cs) && Possible(t, op)
    ensures Possible(Render(cs), op) && Apply(t, op) == Apply(Render(cs), op)
    ensures (InScope(t, op) <==> InScope(Render(cs), op)) && (Fitting(t, op) <==> Fitting(Render(cs), op))
  {
    if |cs| == 1 {
      assert t.grps[0] == RenderAt(cs, 0) && IsHdr(cs[0]);
      if Inserts(op) { SourceSmall(op.g); }
      assert Start(cs, 1) == Start(cs, 0) + Width(cs[0]) == 4;
    }
  }

  lemma {:induction false} OpenedUsable(t: Tree, cs: Contents, ops: seq<Op>)
    requires Good(cs) && Opened(t, cs) && UsableRun(t, ops)
    ensures UsableRun(Render(cs), ops) && PossibleRun(t, ops) && PossibleRun(Render(cs), ops)
    ensures if ops == [] then Run(t, ops) == t else Run(t, ops) == Run(Render(cs), ops)
  {
    if ops != [] {
      OpenedStep(t, cs, ops[0]);
      UsablePossible(Apply(t, ops[0]), ops[1..]);
    }
  }

  lemma {:induction false} UsablePossible(t: Tree, ops: seq<Op>)
    requires UsableRun(t, ops)
    ensures PossibleRun(t, ops)
    decreases |ops|
  {
    if ops != [] { UsablePossible(Apply(t, ops[0]), ops[1..]); }
  }

  lemma {:induction false} HeaderGood(ext: seq<Byte>)
    requires IsExt(ext) && HeaderOk(ext)
    ensures Writable([HeaderGrp(ext)])
  {
    var cs := [HeaderGrp(ext)];
    assert Start(cs, 1) == Start(cs, 0) + Width(cs[0]) == 4;
  }

  /** Parsing a block whose DTD offset is inside opens the tree of its groups. */
  lemma {:induction false} ParsedOpens(ext: seq<Byte>, cs: Contents, before: Tree)
    requires IsExt(ext) && ext[2] <= CEA_SPACE && ParseCea(ext) == Some(cs)
    ensures Writable(cs) && ParsedTree(ext, before).Some? && Opened(ParsedTree(ext, before).value, cs)
  {
    if ext[2] == 0 { HeaderGood(ext); } else { ParsedReady(ext, cs); }
    ParsedNear(ext, before);
  }

  // ---------------------------------------------------------------- the same tree, the same groups

  lemma {:induction false} SameSubs(a: GrpC, b: GrpC, at: nat, i: nat)
    requires SameGroup(RenderGrp(a, at, i), RenderGrp(b, at, i))
    ensures a.subs == b.subs
  {
    var (g, h) := (RenderGrp(a, at, i), RenderGrp(b, at, i));
    assert |a.subs| == |g.subs| == |h.subs| == |b.subs|;
    forall k {:trigger a.subs[k]} | 0 <= k < |a.subs| ensures a.subs[k] == b.subs[k] {
      assert g.subs[k] == RenderSub(a, BLOCK_SIZE + at, k) && h.subs[k] == RenderSub(b, BLOCK_SIZE + at, k);
    }
  }

  lemma {:induction false} SameFront(a: GrpC, b: GrpC, at: nat, i: nat)
    requires IsBlock(a) && IsBlock(b)
    requires SameGroup(RenderGrp(a, at, i), RenderGrp(b, at, i)) && SameData(RenderGrp(a, at, i), RenderGrp(b, at, i))
    ensures a.tid == b.tid && a.hdrSz == b.hdrSz && a.flat == b.flat
    ensures var n := if a.hdrSz == 0 then a.flat else a.hdrSz;
            n <= |a.inst| && n <= |b.inst| && a.inst[..n] == b.inst[..n]
  {
    var n := if a.hdrSz == 0 then a.flat else a.hdrSz;
    assert a.tid != CHD && n == DataSize(RenderGrp(a, at, i)) == DataSize(RenderGrp(b, at, i));
    forall k {:trigger a.inst[k]} | 0 <= k < n ensures a.inst[k] == b.inst[k] {
      assert RenderGrp(b, at, i).inst[k] == b.inst[k];
    }
  }

  /** Blocks that render alike are alike. */
  lemma {:induction false} RenderedAlike(a: GrpC, b: GrpC, at: nat, i: nat)
    requires IsBlock(a) && IsBlock(b)
    requires SameGroup(RenderGrp(a, at, i), RenderGrp(b, at, i)) && SameData(RenderGrp(a, at, i), RenderGrp(b, at, i))
    ensures Alike(a, b)
  {
    SameFront(a, b, at, i);
    SameSubs(a, b, at, i);
  }

  /** Groups that render alike at the same place. */
  predicate SameAt(r: Contents, cs: Contents, i: nat)
    requires i < |r| == |cs|
  {
    SameGroup(RenderAt(r, i), RenderAt(cs, i)) && SameData(RenderAt(r, i), RenderAt(cs, i))
  }

  lemma {:induction false} SameRenderings(t: Tree, r: Contents, cs: Contents, i: nat)
    requires t.grps == RenderGrps(r) && SameTree(t, Render(cs)) && i < |cs|
    ensures |r| == |cs| && SameAt(r, cs, i)
  {
    assert Render(cs).grps[i] == RenderAt(cs, i) && RenderGrps(r)[i] == RenderAt(r, i);
  }

  lemma {:induction false} SameTreeAt(t: Tree, r: Contents, cs: Contents, i: nat)
    requires Good(r) && Good(cs) && t.grps == RenderGrps(r) && SameTree(t, Render(cs)) && 1 <= i < |cs|
    ensures |r| == |cs| && Alike(r[i], cs[i])
  {
    SameRenderings(t, r, cs, i);
    assert IsBlock(r[i]) && IsBlock(cs[i]);
    assert RenderAt(r, i).rel == RenderAt(cs, i).rel;
    RenderedAlike(r[i], cs[i], Start(cs, i), i);
  }

  lemma {:induction false} SameHeader(t: Tree, r: Contents, cs: Contents)
    requires Good(r) && Good(cs) && t.grps == RenderGrps(r) && SameTree(t, Render(cs))
    ensures |cs[0].inst| == 32 && IsHdr(r[0])
    ensures forall k {:trigger cs[0].inst[k]} :: 0 <= k < 4 && k != 2 ==> r[0].inst[k] == cs[0].inst[k]
  {
    SameRenderings(t, r, cs, 0);
    forall k {:trigger cs[0].inst[k]} | 0 <= k < 4 && k != 2 ensures r[0].inst[k] == cs[0].inst[k] {
      assert RenderAt(cs, 0).inst[k] == cs[0].inst[k];
    }
  }

  lemma {:induction false} SameTreeGroups(t: Tree, r: Contents, cs: Contents)
    requires Good(r) && Good(cs) && t.grps == RenderGrps(r) && SameTree(t, Render(cs))
    ensures SameGroups(Some(r), cs)
  {
    SameHeader(t, r, cs);
    SameRenderings(t, r, cs, 0);
    forall i {:trigger cs[i]} | 1 <= i < |cs| ensures Alike(r[i], cs[i]) { SameTreeAt(t, r, cs, i); }
  }

  // ---------------------------------------------------------------- what comes back

  lemma {:induction false} RereadsFull(cs: Contents)
    requires Sound(cs) && Rereads(cs)
    ensures !EndsEmpty(cs)
  {
  }

  lemma {:induction false} OffsetNear(ext: seq<Byte>, cs: Contents)
    requires Writable(cs) && Holds(ext, cs)
    ensures ext[2] <= CEA_SPACE
  {
    OffsetHeld(ext, cs);
  }

  lemma {:induction false} BackIsSame(ext: seq<Byte>, cs: Contents, stale: Tree)
    requires Writable(cs) && Holds(ext, cs)
    ensures ParsedTree(ext, stale).Some? && SameTree(ParsedTree(ext, stale).value, Render(cs)) ==> Rereads(cs)
  {
    if ParsedTree(ext, stale).Some? && SameTree(ParsedTree(ext, stale).value, Render(cs)) {
      var r := ParseCea(ext).value;
      OffsetNear(ext, cs);
      ParsedOpens(ext, r, stale);
      SameTreeGroups(ParsedTree(ext, stale).value, r, cs);
      AssembledRereads(ext, cs);
    }
  }

  lemma {:induction false} BackIf(ext: seq<Byte>, cs: Contents, stale: Tree)
    requires Writable(cs) && Holds(ext, cs) && Rereads(cs)
    ensures ParsedTree(ext, stale).Some? && SameTree(ParsedTree(ext, stale).value, Render(cs))
  {
    if |cs| == 1 { LoneRereads(cs); } else { ReparsingSurvives(cs); }
    ComesBack(ext, cs, stale);
  }

  /** Any good contents: assembled, given any checksum and parsed again, the same tree comes back exactly
      if they are rereadable. */
  lemma {:induction false} AnyRestored(buf: seq<Byte>, cs: Contents, chk: Byte, stale: Tree)
    requires |buf| == BUFFER_SIZE && Writable(cs)
    ensures Assemblable(Render(cs).grps) && Restored(buf, Render(cs), Rereads(cs), chk, stale)
  {
    AssemblesImage(buf, cs);
    if Rereads(cs) { RereadsFull(cs); }
    var r := AssembleCea(buf, Render(cs).grps);
    if r.0 {
      var ext := r.1[BLOCK_SIZE + 127 := chk][BLOCK_SIZE..];
      WrittenHolds(buf, cs, chk);
      BackIsSame(ext, cs, stale);
      if Rereads(cs) { BackIf(ext, cs, stale); }
    }
  }

  // ---------------------------------------------------------------- shifted trees

  /** A parsed tree has its second group at offset 4. */
  lemma {:induction false} SecondAtFour(ext: seq<Byte>, stale: Tree)
    requires IsExt(ext) && ParsedTree(ext, stale).Some? && |ParsedTree(ext, stale).value.grps| > 1
    ensures ParsedTree(ext, stale).value.grps[1].rel == 4
  {
    var cs := ParseCea(ext).value;
    assert cs[0] == HeaderGrp(ext);
    assert Start(cs, 1) == Start(cs, 0) + Width(cs[0]) == 4;
    assert ShownGrps(cs)[1] == Shown(cs[1], 4, 1);
    InBlock(4);
  }

  /** A shifted one has it at offset 5, so it never comes back. */
  lemma {:induction false} ShiftedNeverSame(ext: seq<Byte>, cs: Contents, stale: Tree)
    requires IsExt(ext) && Sound(cs) && |cs| > 1 && ParsedTree(ext, stale).Some?
    ensures !SameTree(ParsedTree(ext, stale).value, Shift(Render(cs)))
  {
    var (r, t) := (ParsedTree(ext, stale).value, Shift(Render(cs)));
    assert t.grps[1] == ShiftAt(Render(cs).grps, 1) && Render(cs).grps[1] == RenderAt(cs, 1);
    assert Start(cs, 1) == Start(cs, 0) + Width(cs[0]) == 4;
    if |r.grps| == |cs| { SecondAtFour(ext, stale); }
  }

  lemma {:induction false} AnyShiftedRestored(buf: seq<Byte>, cs: Contents, chk: Byte, stale: Tree)
    requires |buf| == BUFFER_SIZE && Sound(cs) && |cs| > 1
    ensures Assemblable(Shift(Render(cs)).grps) && Restored(buf, Shift(Render(cs)), false, chk, stale)
  {
    AssemblesShifted(buf, cs);
    var r := AssembleCea(buf, Shift(Render(cs)).grps);
    if r.0 {
      var ext := r.1[BLOCK_SIZE + 127 := chk][BLOCK_SIZE..];
      if ParsedTree(ext, stale).Some? { ShiftedNeverSame(ext, cs, stale); }
    }
  }

  // ---------------------------------------------------------------- whole sessions

  lemma {:induction false} EitherRestored(buf: seq<Byte>, cs: Contents, shifted: bool, chk: Byte, stale: Tree)
    requires |buf| == BUFFER_SIZE && Writable(cs)
    ensures var t := ShiftIf(shifted, Render(cs));
            Assemblable(t.grps) && Restored(buf, t, |cs| == 1 || (!shifted && Rereads(cs)), chk, stale)
  {
    if |cs| == 1 {
      LoneRereads(cs);
      LoneUnshifted(cs);
      AnyRestored(buf, cs, chk, stale);
    } else if shifted {
      AnyShiftedRestored(buf, cs, chk, stale);
    } else {
      AnyRestored(buf, cs, chk, stale);
    }
  }

  /** Only the groups are assembled, and the counters of a header alone are not compared. */
  lemma {:induction false} OpenedRestored(buf: seq<Byte>, t: Tree, cs: Contents, survives: bool, chk: Byte, stale: Tree)
    requires |buf| == BUFFER_SIZE && Opened(t, cs) && Assemblable(Render(cs).grps)
    requires Restored(buf, Render(cs), survives, chk, stale)
    ensures Restored(buf, t, survives, chk, stale)
  {
  }

  /** Parse a block with a DTD offset up to 127, 0 included, make any guarded edits, those of sub-groups
      in blocks with a header part, assemble, write any checksum, and parse again.  The same tree comes
      back exactly if the header stands alone; or it never stood alone before an edit, and every data
      block left parses by itself, and there is a DTD, at least the native ones, with a pixel clock in each. */
  lemma {:induction false} AnySessionReparse(buf: seq<Byte>, cs: Contents, before: Tree, t: Tree, ops: seq<Op>,
      chk: Byte, stale: Tree)
    requires |buf| == BUFFER_SIZE && buf[BLOCK_SIZE..][2] <= CEA_SPACE && ParseCea(buf[BLOCK_SIZE..]) == Some(cs)
    requires ParsedTree(buf[BLOCK_SIZE..], before) == Some(t) && UsableRun(t, ops)
    ensures PossibleRun(t, ops) && ListAllowedRun(cs, ops) && Good(ListRun(cs, ops))
    ensures Assemblable(Run(t, ops).grps)
    ensures var ds := ListRun(cs, ops);
            Restored(buf, Run(t, ops), |ds| == 1 || (!EverLone(cs, ops) && Rereads(ds)), chk, stale)
  {
    ParsedOpens(buf[BLOCK_SIZE..], cs, before);
    OpenedUsable(t, cs, ops);
    RunShifts(cs, ops, false);
    RunHead(cs, ops, false);
    EitherRestored(buf, ListRun(cs, ops), EverLone(cs, ops), chk, stale);
    if ops == [] { OpenedRestored(buf, t, cs, |cs| == 1 || Rereads(cs), chk, stale); }
  }

  // ---------------------------------------------------------------- sessions of fitting edits

  lemma {:induction false} FittingUsable(cs: Contents, ops: seq<Op>, shifted: bool)
    requires Ready(cs) && FittingRun(ShiftIf(shifted, Render(cs)), ops)
    ensures UsableRun(ShiftIf(shifted, Render(cs)), ops)
    decreases |ops|
  {
    if ops != [] {
      PossibleShifts(Render(cs), ops[0]);
      FittingLooks(Render(cs), ops[0]);
      if IsSubOp(ops[0]) { FittingInScope(cs, ops[0]); }
      StepReady(cs, ops[0], shifted);
      FittingUsable(ListApply(cs, ops[0]), ops[1..], shifted || |cs| == 1);
    }
  }

  lemma {:induction false} OpenedFitting(t: Tree, cs: Contents, ops: seq<Op>)
    requires Ready(cs) && Opened(t, cs) && FittingRun(t, ops)
    ensures FittingRun(Render(cs), ops) && UsableRun(t, ops)
  {
    if ops != [] {
      OpenedStep(t, cs, ops[0]);
      FittingUsable(cs, ops, false);
    }
  }

  lemma {:induction false} ParsedAnyReady(ext: seq<Byte>, cs: Contents)
    requires IsExt(ext) && ext[2] <= CEA_SPACE && ParseCea(ext) == Some(cs)
    ensures Ready(cs)
  {
    if ext[2] == 0 {
      HeaderGood(ext);
      LoneRereads(cs);
    } else {
      ParsedReady(ext, cs);
    }
  }

  /** The same for fitting edits, in terms of what the editor can see: the same tree comes back exactly if
      the header stands alone; or it never stood alone before an edit, no audio or video block was emptied,
      and there is a DTD, at least the native ones, with a pixel clock in each. */
  lemma {:induction false} EditAssembleReparse(buf: seq<Byte>, cs: Contents, before: Tree, t: Tree, ops: seq<Op>,
      chk: Byte, stale: Tree)
    requires |buf| == BUFFER_SIZE && buf[BLOCK_SIZE..][2] <= CEA_SPACE && ParseCea(buf[BLOCK_SIZE..]) == Some(cs)
    requires ParsedTree(buf[BLOCK_SIZE..], before) == Some(t) && FittingRun(t, ops)
    ensures PossibleRun(t, ops) && ListAllowedRun(cs, ops) && Good(ListRun(cs, ops))
    ensures Assemblable(Run(t, ops).grps)
    ensures var ds := ListRun(cs, ops);
            Restored(buf, Run(t, ops), |ds| == 1 || (!EverLone(cs, ops) && Survives(ds)), chk, stale)
  {
    ParsedAnyReady(buf[BLOCK_SIZE..], cs);
    ParsedOpens(buf[BLOCK_SIZE..], cs, before);
    OpenedFitting(t, cs, ops);
    AnySessionReparse(buf, cs, before, t, ops, chk, stale);
    SessionReady(cs, ops, false);
    SurvivesIsRereads(ListRun(cs, ops));
  }

  // ---------------------------------------------------------------- two-byte headers

  lemma {:induction false} SubOpBlock(cs: Contents, op: Op)
    requires ListAllowed(cs, op) && IsSubOp(op)
    ensures op.p < |ListApply(cs, op)| && ListApply(cs, op)[op.p].tid == cs[op.p].tid
  {
  }

  /** The block a tree shows with a stored length that does not span it. */
  lemma {:induction false} ShortAt(cs: Contents, p: nat)
    requires Good(cs) && 1 <= p < |cs| && cs[p].tid != DTD
    requires 1 + BlkLen(cs[p].inst[0]) != Render(cs).grps[p].datSz
    ensures !Rereads(cs)
  {
    assert Render(cs).grps[p] == RenderAt(cs, p) && IsBlock(cs[p]);
    ShortLength(cs[p]);
  }

  /** After a sub-group was inserted into a block with a header of two bytes, or cut from it, the stored
      length is one short: the block does not parse by itself, and assembly and parsing do not give the
      tree back. */
  lemma {:induction false} ShortBlockLost(cs: Contents, op: Op)
    requires Writable(cs) && Possible(Render(cs), op) && IsSubOp(op) && InScope(Render(cs), op)
    requires (InsertsSub(op) || op.SubRemove?) && Render(cs).grps[op.p].hdrSz == 2
    ensures ListAllowed(cs, op) && Writable(ListApply(cs, op)) && !Rereads(ListApply(cs, op))
  {
    StepRefines(cs, op);
    StepHead(cs, op);
    StoredLength(cs, op);
    SubTarget(cs, op.p, op.k);
    SubOpBlock(cs, op);
    var ds := ListApply(cs, op);
    assert Render(ds).grps[op.p] == RenderAt(ds, op.p);
    ShortAt(ds, op.p);
  }
}
