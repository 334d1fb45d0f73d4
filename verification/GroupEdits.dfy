/** Every guarded edit of the tree is the plain list edit of its contents: the caches after the edit
    are those rendered from the edited list. */
module GroupEdits {
  import opened Bytes
  import opened GroupTree
  import opened GroupContent

  // ---------------------------------------------------------------- list edits

  /** A top-level update refreshes the sub-group offsets from group i on. */
  function Fresh(cs: Contents, i: nat): (r: Contents)
    ensures |r| == |cs|
    ensures forall k {:trigger r[k]} :: 0 <= k < |r| ==> r[k] == if k < i then cs[k] else cs[k].(lag := 0)
  {
    seq(|cs|, k requires 0 <= k < |cs| => if k < i then cs[k] else cs[k].(lag := 0))
  }

  /** The groups behind p moved by -d without their sub-groups' absolute offsets. */
  function Lagged(cs: Contents, p: nat, d: int): (r: Contents)
    ensures |r| == |cs|
    ensures forall k {:trigger r[k]} :: 0 <= k < |r| ==> r[k] == if k <= p then cs[k] else cs[k].(lag := cs[k].lag + d)
  {
    seq(|cs|, k requires 0 <= k < |cs| => if k <= p then cs[k] else cs[k].(lag := cs[k].lag + d))
  }

  function ListCut(cs: Contents, i: nat): Contents
    requires i < |cs|
  {
    Fresh(RemoveAt(cs, i), i)
  }

  function ListPaste(cs: Contents, i: nat, c: GrpC): Contents
    requires i < |cs|
  {
    Fresh(cs[i := c], i)
  }

  function ListMoveDn(cs: Contents, i: nat): Contents
    requires i + 1 < |cs|
  {
    Fresh(SwapAt(cs, i), i)
  }

  function ListInsertUp(cs: Contents, i: nat, c: GrpC): Contents
    requires i <= |cs|
  {
    Fresh(InsertAt(cs, i, c), i)
  }

  function ListInsertDn(cs: Contents, i: nat, c: GrpC): Contents
    requires i < |cs|
  {
    Fresh(InsertAt(cs, i + 1, c), if i + 1 < |cs| then i + 1 else i)
  }

  // ---------------------------------------------------------------- sources

  /** The contents of a group; its offsets are dropped. */
  function Strip(g: Grp): GrpC
    requires g.datSz >= 0
  {
    GrpC(g.tid, g.inst, g.hdrSz, if g.hdrSz == 0 then g.datSz else 0,
         seq(|g.subs|, k requires 0 <= k < |g.subs| => SubC(g.subs[k].tid, g.subs[k].bytes)), 0)
  }

  /** A group that may be inserted: a block whose sizes and first sub-group offset are consistent;
      every other offset is arbitrary. */
  predicate Source(g: Grp) {
    g.datSz >= 0 && IsBlock(Strip(g)) && Loose(g, Strip(g))
  }

  // ---------------------------------------------------------------- positions in edited lists

  lemma {:induction false} StartInsert(cs: Contents, i: nat, c: GrpC, n: nat)
    requires i <= |cs| && n <= |cs| + 1
    ensures Start(InsertAt(cs, i, c), n) == if n <= i then Start(cs, n) else Start(cs, n - 1) + Width(c)
  {
    if n > 0 { StartInsert(cs, i, c, n - 1); }
  }

  lemma {:induction false} StartRemove(cs: Contents, i: nat, n: nat)
    requires i < |cs| && n <= |cs| - 1
    ensures Start(RemoveAt(cs, i), n) == if n <= i then Start(cs, n) else Start(cs, n + 1) - Width(cs[i])
  {
    if n > 0 { StartRemove(cs, i, n - 1); }
  }

  lemma {:induction false} StartUpdate(cs: Contents, i: nat, c: GrpC, n: nat)
    requires i < |cs| && n <= |cs|
    ensures Start(cs[i := c], n) == Start(cs, n) + if n <= i then 0 else Width(c) - Width(cs[i])
  {
    if n > 0 { StartUpdate(cs, i, c, n - 1); }
  }

  lemma {:induction false} StartSwap(cs: Contents, i: nat, n: nat)
    requires i + 1 < |cs| && n <= |cs|
    ensures n != i + 1 ==> Start(SwapAt(cs, i), n) == Start(cs, n)
  {
    StartUpdate(cs, i, cs[i + 1], n);
    StartUpdate(cs[i := cs[i + 1]], i + 1, cs[i], n);
  }

  lemma {:induction false} StartFresh(cs: Contents, i: nat, n: nat)
    requires n <= |cs|
    ensures Start(Fresh(cs, i), n) == Start(cs, n)
  {
    if n > 0 { StartFresh(cs, i, n - 1); }
  }

  // ---------------------------------------------------------------- top-level edits render

  /** Group k of the edited list ds: rendered from cs before i, from i on with offsets to be updated. */
  predicate EditedAt(grps: seq<Grp>, cs: Contents, ds: Contents, i: nat, k: nat)
    requires k < |grps| == |ds| && i <= |cs|
  {
    if k < i then grps[k] == RenderAt(cs, k) else Loose(grps[k], ds[k].(lag := 0)) && IsBlock(ds[k])
  }

  predicate Edited(grps: seq<Grp>, cs: Contents, ds: Contents, i: nat) {
    && |grps| == |ds| && 1 <= i <= |ds| && i <= |cs| && cs[..i] == ds[..i]
    && forall k {:trigger EditedAt(grps, cs, ds, i, k)} :: 0 <= k < |ds| ==> EditedAt(grps, cs, ds, i, k)
  }

  lemma {:induction false} EditedPrefix(grps: seq<Grp>, cs: Contents, ds: Contents, i: nat, k: nat)
    requires Edited(grps, cs, ds, i) && k < i
    ensures grps[k] == RenderAt(Fresh(ds, i), k)
  {
    var r := Fresh(ds, i);
    assert EditedAt(grps, cs, ds, i, k);
    forall j | 0 <= j <= k ensures r[j] == cs[j] {
      assert cs[j] == cs[..i][j] && ds[j] == ds[..i][j];
    }
    StartSame(cs, r, k);
  }

  lemma {:induction false} EditedSettles(grps: seq<Grp>, cs: Contents, ds: Contents, i: nat, k: nat)
    requires Edited(grps, cs, ds, i) && i <= k < |ds|
    ensures Settles(grps[k], Fresh(ds, i), k, true)
  {
    var r := Fresh(ds, i);
    assert EditedAt(grps, cs, ds, i, k);
    MovedRenders(grps[k], r[k], Start(r, k), k);
  }

  /** Updating the offsets from the edited position on renders the edited list. */
  lemma {:induction false} EditRenders(grps: seq<Grp>, cs: Contents, ds: Contents, i: nat)
    requires Edited(grps, cs, ds, i) && Start(cs, i) < BLOCK_SIZE
    ensures i < |ds| ==> UpdAbs(grps, i, BLOCK_SIZE + Start(cs, i), true) == RenderGrps(Fresh(ds, i))
    ensures i == |ds| ==> grps == RenderGrps(Fresh(ds, i))
  {
    var r := Fresh(ds, i);
    if i < |ds| {
      forall k | 0 <= k < |ds| ensures HalfAt(grps, r, i, true, k) {
        if k < i { EditedPrefix(grps, cs, ds, i, k); } else { EditedSettles(grps, cs, ds, i, k); }
      }
      EditedStart(cs, ds, i);
      UpdAbsRenders(grps, r, i, true);
    } else {
      forall k {:trigger grps[k]} | 0 <= k < |ds| ensures grps[k] == RenderGrps(r)[k] {
        EditedPrefix(grps, cs, ds, i, k);
      }
      EqualGrps(grps, RenderGrps(r));
    }
  }

  lemma {:induction false} EditedStart(cs: Contents, ds: Contents, i: nat)
    requires i <= |cs| && i <= |ds| && cs[..i] == ds[..i]
    ensures Start(Fresh(ds, i), i) == Start(cs, i)
  {
    StartSame(cs[..i], ds[..i], i);
    StartPrefix(cs, i);
    StartPrefix(ds, i);
    StartFresh(ds, i, i);
  }

  lemma {:induction false} SettledRenders(grps: seq<Grp>, cs: Contents, ds: Contents, i: nat)
    requires Edited(grps, cs, ds, i) && Start(cs, i) < BLOCK_SIZE
    ensures Settled(grps, i, BLOCK_SIZE + Start(cs, i)) == Render(Fresh(ds, i))
  {
    EditRenders(grps, cs, ds, i);
    CalcRenders(Fresh(ds, i));
    SettledIs(grps, i, BLOCK_SIZE + Start(cs, i), RenderGrps(Fresh(ds, i)));
  }

  lemma {:induction false} SettledIs(grps: seq<Grp>, i: nat, abs: int, r: seq<Grp>)
    requires r == if i < |grps| then UpdAbs(grps, i, abs, true) else grps
    ensures Settled(grps, i, abs) == Calc(r)
  {
  }

  lemma {:induction false} RenderedAbs(cs: Contents, i: nat)
    requires i < |cs|
    ensures Render(cs).grps[i].abs == BLOCK_SIZE + Start(cs, i) && Render(cs).grps[i].tid == cs[i].tid
    ensures Render(cs).grps[i].datSz == Total(cs[i])
  {
    assert RenderGrps(cs)[i] == RenderAt(cs, i);
  }

  lemma {:induction false} StartPrefix(cs: Contents, i: nat)
    requires i <= |cs|
    ensures Start(cs[..i], i) == Start(cs, i)
  {
    StartSame(cs[..i], cs, i);
  }

  lemma {:induction false} LooseAnyLag(c: GrpC, at: nat, i: nat)
    ensures Loose(RenderGrp(c, at, i), c.(lag := 0))
  {
  }

  lemma {:induction false} BlockWidth(c: GrpC)
    requires IsBlock(c)
    ensures Total(c) == Width(c) >= 1
  {
  }

  /** The start of a block is inside the CEA block: the blocks before it fit and it is not empty. */
  lemma {:induction false} BlockStart(cs: Contents, i: nat)
    requires Sound(cs) && 1 <= i < |cs|
    ensures 4 <= Start(cs, i) < Start(cs, i + 1) <= CEA_SPACE
  {
    StartMono(cs, 1, i);
    assert Start(cs, 1) == Start(cs, 0) + Width(cs[0]);
    StartMono(cs, i + 1, |cs|);
    BlockWidth(cs[i]);
  }

  // ---------------------------------------------------------------- each edit renders

  /** Room for a block, as CanInsert asks. */
  predicate Room(cs: Contents, c: GrpC) {
    Start(cs, |cs|) + Width(c) <= CEA_SPACE
  }

  /** Cut and Delete. */
  lemma {:induction false} CutRenders(cs: Contents, i: nat)
    requires Sound(cs) && 1 <= i < |cs|
    ensures Sound(ListCut(cs, i)) && Cut(Render(cs), i) == Render(ListCut(cs, i))
  {
    CutSound(cs, i);
    CutEdits(cs, i);
    CutSettles(cs, i);
    BlockStart(cs, i);
    SettledRenders(RemoveAt(RenderGrps(cs), i), cs, RemoveAt(cs, i), i);
  }

  lemma {:induction false} CutSettles(cs: Contents, i: nat)
    requires i < |cs|
    ensures Cut(Render(cs), i) == Settled(RemoveAt(RenderGrps(cs), i), i, BLOCK_SIZE + Start(cs, i))
  {
    RenderedAbs(cs, i);
  }

  lemma {:induction false} CutSound(cs: Contents, i: nat)
    requires Sound(cs) && 1 <= i < |cs|
    ensures Sound(ListCut(cs, i))
  {
    var r := ListCut(cs, i);
    CutSize(cs, i);
    assert r[0] == cs[0];
    forall k {:trigger r[k]} | 1 <= k < |r| ensures IsBlock(r[k]) { CutBlock(cs, i, k); }
  }

  lemma {:induction false} CutSize(cs: Contents, i: nat)
    requires i < |cs|
    ensures |ListCut(cs, i)| == |cs| - 1 && Start(ListCut(cs, i), |cs| - 1) == Start(cs, |cs|) - Width(cs[i])
  {
    StartRemove(cs, i, |cs| - 1);
    StartFresh(RemoveAt(cs, i), i, |cs| - 1);
  }

  lemma {:induction false} CutBlock(cs: Contents, i: nat, k: nat)
    requires Sound(cs) && 1 <= i < |cs| && 1 <= k < |cs| - 1
    ensures IsBlock(ListCut(cs, i)[k])
  {
    var d := cs[if k < i then k else k + 1];
    assert IsBlock(d) && IsBlock(d.(lag := 0));
  }

  lemma {:induction false} CutEdits(cs: Contents, i: nat)
    requires Sound(cs) && 1 <= i < |cs|
    ensures Edited(RemoveAt(RenderGrps(cs), i), cs, RemoveAt(cs, i), i)
  {
    var grps, ds := RemoveAt(RenderGrps(cs), i), RemoveAt(cs, i);
    assert cs[..i] == ds[..i];
    forall k | 0 <= k < |ds| ensures EditedAt(grps, cs, ds, i, k) {
      if k >= i { LooseAnyLag(cs[k + 1], Start(cs, k + 1), k + 1); }
    }
  }

  lemma {:induction false} InsertUpRenders(cs: Contents, i: nat, g: Grp)
    requires Sound(cs) && 1 <= i < |cs| && Source(g) && Room(cs, Strip(g))
    ensures Sound(ListInsertUp(cs, i, Strip(g)))
    ensures InsertUp(Render(cs), i, g) == Render(ListInsertUp(cs, i, Strip(g)))
  {
    InsertSound(cs, i, Strip(g));
    InsertEdits(cs, i, g);
    RenderedAbs(cs, i);
    BlockStart(cs, i);
    SettledRenders(InsertAt(RenderGrps(cs), i, g), cs, InsertAt(cs, i, Strip(g)), i);
  }

  lemma {:induction false} InsertSound(cs: Contents, i: nat, c: GrpC)
    requires Sound(cs) && 1 <= i <= |cs| && IsBlock(c) && Room(cs, c)
    ensures Sound(ListInsertUp(cs, i, c))
  {
    var r := ListInsertUp(cs, i, c);
    InsertSize(cs, i, c);
    assert r[0] == cs[0];
    forall k {:trigger r[k]} | 1 <= k < |r| ensures IsBlock(r[k]) { InsertBlock(cs, i, c, k); }
  }

  lemma {:induction false} InsertSize(cs: Contents, i: nat, c: GrpC)
    requires i <= |cs|
    ensures |ListInsertUp(cs, i, c)| == |cs| + 1
    ensures Start(ListInsertUp(cs, i, c), |cs| + 1) == Start(cs, |cs|) + Width(c)
  {
    StartInsert(cs, i, c, |cs| + 1);
    StartFresh(InsertAt(cs, i, c), i, |cs| + 1);
  }

  lemma {:induction false} InsertBlock(cs: Contents, i: nat, c: GrpC, k: nat)
    requires Sound(cs) && 1 <= i <= |cs| && IsBlock(c) && 1 <= k <= |cs|
    ensures IsBlock(ListInsertUp(cs, i, c)[k])
  {
    if k != i {
      var d := cs[if k < i then k else k - 1];
      assert IsBlock(d) && IsBlock(d.(lag := 0));
    }
  }

  lemma {:induction false} InsertEdits(cs: Contents, i: nat, g: Grp)
    requires Sound(cs) && 1 <= i < |cs| && Source(g)
    ensures Edited(InsertAt(RenderGrps(cs), i, g), cs, InsertAt(cs, i, Strip(g)), i)
  {
    var grps, ds := InsertAt(RenderGrps(cs), i, g), InsertAt(cs, i, Strip(g));
    assert cs[..i] == ds[..i];
    forall k | 0 <= k < |ds| ensures EditedAt(grps, cs, ds, i, k) {
      if k > i { InsertedLater(cs, i, g, k); }
    }
  }

  lemma {:induction false} InsertedLater(cs: Contents, i: nat, g: Grp, k: nat)
    requires Sound(cs) && 1 <= i < k <= |cs| && Source(g)
    ensures EditedAt(InsertAt(RenderGrps(cs), i, g), cs, InsertAt(cs, i, Strip(g)), i, k)
  {
    LooseAnyLag(cs[k - 1], Start(cs, k - 1), k - 1);
    assert RenderGrps(cs)[k - 1] == RenderAt(cs, k - 1);
  }

  lemma {:induction false} PasteRenders(cs: Contents, i: nat, g: Grp)
    requires Sound(cs) && 1 <= i < |cs| && Source(g)
    requires Start(cs, |cs|) - Width(cs[i]) + Width(Strip(g)) <= CEA_SPACE
    ensures Sound(ListPaste(cs, i, Strip(g))) && Paste(Render(cs), i, g) == Render(ListPaste(cs, i, Strip(g)))
  {
    PasteSound(cs, i, Strip(g));
    PasteEdits(cs, i, g);
    PasteSettles(cs, i, g);
    BlockStart(cs, i);
    SettledRenders(RenderGrps(cs)[i := g], cs, cs[i := Strip(g)], i);
  }

  lemma {:induction false} PasteSettles(cs: Contents, i: nat, g: Grp)
    requires i < |cs|
    ensures Paste(Render(cs), i, g) == Settled(RenderGrps(cs)[i := g], i, BLOCK_SIZE + Start(cs, i))
  {
    RenderedAbs(cs, i);
  }

  lemma {:induction false} PasteSound(cs: Contents, i: nat, c: GrpC)
    requires Sound(cs) && 1 <= i < |cs| && IsBlock(c)
    requires Start(cs, |cs|) - Width(cs[i]) + Width(c) <= CEA_SPACE
    ensures Sound(ListPaste(cs, i, c))
  {
    StartUpdate(cs, i, c, |cs|);
    StartFresh(cs[i := c], i, |cs|);
  }

  lemma {:induction false} PasteEdits(cs: Contents, i: nat, g: Grp)
    requires Sound(cs) && 1 <= i < |cs| && Source(g)
    ensures Edited(RenderGrps(cs)[i := g], cs, cs[i := Strip(g)], i)
  {
    var grps, ds := RenderGrps(cs)[i := g], cs[i := Strip(g)];
    assert cs[..i] == ds[..i];
    forall k | 0 <= k < |ds| ensures EditedAt(grps, cs, ds, i, k) {
      if k > i { LooseAnyLag(cs[k], Start(cs, k), k); }
    }
  }

  lemma {:induction false} MoveDnRenders(cs: Contents, i: nat)
    requires Sound(cs) && 1 <= i && i + 1 < |cs|
    ensures Sound(ListMoveDn(cs, i)) && MoveDn(Render(cs), i) == Render(ListMoveDn(cs, i))
  {
    MoveSound(cs, i);
    MoveEdits(cs, i);
    RenderedAbs(cs, i);
    BlockStart(cs, i);
    EditRenders(SwapAt(RenderGrps(cs), i), cs, SwapAt(cs, i), i);
  }

  lemma {:induction false} MoveSound(cs: Contents, i: nat)
    requires Sound(cs) && 1 <= i && i + 1 < |cs|
    ensures Sound(ListMoveDn(cs, i)) && Start(ListMoveDn(cs, i), |cs|) == Start(cs, |cs|)
  {
    StartSwap(cs, i, |cs|);
    StartFresh(SwapAt(cs, i), i, |cs|);
  }

  lemma {:induction false} MoveEdits(cs: Contents, i: nat)
    requires Sound(cs) && 1 <= i && i + 1 < |cs|
    ensures Edited(SwapAt(RenderGrps(cs), i), cs, SwapAt(cs, i), i)
  {
    var grps, ds := SwapAt(RenderGrps(cs), i), SwapAt(cs, i);
    assert cs[..i] == ds[..i];
    forall k | 0 <= k < |ds| ensures EditedAt(grps, cs, ds, i, k) {
      var j := if k == i then i + 1 else if k == i + 1 then i else k;
      if k >= i { LooseAnyLag(cs[j], Start(cs, j), j); }
    }
  }

  /** InsertDn is list insertion behind i, also on the way through the last position; only a tree
      that holds nothing but its header is excepted. */
  lemma {:induction false} InsertDnRenders(cs: Contents, i: nat, g: Grp)
    requires Sound(cs) && i < |cs| && |cs| > 1 && Source(g) && Room(cs, Strip(g))
    ensures Sound(ListInsertDn(cs, i, Strip(g)))
    ensures InsertDn(Render(cs), i, g) == Render(ListInsertDn(cs, i, Strip(g)))
  {
    if i + 1 < |cs| { InsertUpRenders(cs, i + 1, g); } else { InsertLastRenders(cs, g); }
  }

  lemma {:induction false} InsertLastRenders(cs: Contents, g: Grp)
    requires Sound(cs) && |cs| > 1 && Source(g) && Room(cs, Strip(g))
    ensures Sound(ListInsertDn(cs, |cs| - 1, Strip(g)))
    ensures InsertDn(Render(cs), |cs| - 1, g) == Render(ListInsertDn(cs, |cs| - 1, Strip(g)))
  {
    var i := |cs| - 1;
    InsertUpRenders(cs, i, g);
    MoveDnRenders(ListInsertUp(cs, i, Strip(g)), i);
    InsertThenMove(cs, Strip(g));
  }

  lemma {:induction false} InsertThenMove(cs: Contents, c: GrpC)
    requires cs != []
    ensures ListMoveDn(ListInsertUp(cs, |cs| - 1, c), |cs| - 1) == ListInsertDn(cs, |cs| - 1, c)
  {
  }

  /** Below a lone header the new group is placed behind the header's total size 5, one byte behind
      its position 4 in the block: there the edit is not list insertion. */
  lemma {:induction false} InsertDnBelowLoneHeader(cs: Contents, g: Grp)
    requires Sound(cs) && |cs| == 1 && Source(g) && Room(cs, Strip(g))
    ensures InsertDn(Render(cs), 0, g).grps[1].rel == 5 && Start(ListInsertDn(cs, 0, Strip(g)), 1) == 4
    ensures InsertDn(Render(cs), 0, g) != Render(ListInsertDn(cs, 0, Strip(g)))
  {
    var t, h := Render(cs), RenderAt(cs, 0);
    assert t.grps == [h] && InsertAt(t.grps, 0, g) == [g, h];
    var up := UpdFrom([g, h], 0, BLOCK_SIZE, 0, true);
    UpdFromAt([g, h], 0, BLOCK_SIZE, 0, true, 0);
    UpdFromAt([g, h], 0, BLOCK_SIZE, 0, true, 1);
    var swapped := SwapAt(up, 0);
    UpdFromAt(swapped, 0, BLOCK_SIZE, 0, true, 1);
    assert DatTo(swapped, 1) == DatTo(swapped, 0) + swapped[0].datSz;
    var r := ListInsertDn(cs, 0, Strip(g));
    assert Start(r, 1) == Start(r, 0) + Width(r[0]);
    assert Render(r).grps[1] == RenderAt(r, 1);
  }

  // ---------------------------------------------------------------- sub-group edits render

  /** A block whose sub-groups can be edited: a header with sub-groups behind it. */
  predicate HasHeader(c: GrpC) {
    IsDbc(c) && c.hdrSz > 0
  }

  /** setDataSize: new sub-groups and their length in the header byte. */
  function WithSubsC(c: GrpC, subs: seq<SubC>): GrpC
    requires |c.inst| == 32
  {
    c.(subs := subs, inst := c.inst[0 := TagCode(c.inst[0]) * 32 + SubStart(subs, |subs|) % 32])
  }

  lemma {:induction false} HeaderByte(tag: nat, len: nat)
    requires tag < 8 && len < 32
    ensures var b := tag * 32 + len % 32; b < 256 && TagCode(b) == tag && BlkLen(b) == len
  {
  }

  /** Block p replaced; the blocks behind it move without their sub-groups. */
  function ListReplace(cs: Contents, p: nat, c: GrpC): Contents
    requires p < |cs|
  {
    Lagged(cs[p := c], p, Width(cs[p]) - Width(c))
  }

  function StripSub(s: Sub): SubC { SubC(s.tid, s.bytes) }

  predicate SubIn(cs: Contents, p: nat, k: nat) {
    1 <= p < |cs| && HasHeader(cs[p]) && k < |cs[p].subs|
  }

  function ListSubCut(cs: Contents, p: nat, k: nat): Contents
    requires SubIn(cs, p, k)
  {
    ListReplace(cs, p, WithSubsC(cs[p], RemoveAt(cs[p].subs, k)))
  }

  function ListSubInsert(cs: Contents, p: nat, k: nat, s: SubC): Contents
    requires 1 <= p < |cs| && HasHeader(cs[p]) && k <= |cs[p].subs|
  {
    ListReplace(cs, p, WithSubsC(cs[p], InsertAt(cs[p].subs, k, s)))
  }

  function ListSubMoveDn(cs: Contents, p: nat, k: nat): Contents
    requires SubIn(cs, p, k + 1)
  {
    cs[p := cs[p].(subs := SwapAt(cs[p].subs, k))]
  }

  /** Sub-groups edited from k on: updating their relative offsets renders them. */
  lemma {:induction false} SubsRender(subs: seq<Sub>, c: GrpC, d: GrpC, k: nat, base: int)
    requires SubsOf(subs, d) && k <= |c.subs| && k <= |subs| && c.subs[..k] == d.subs[..k]
    requires c.hdrSz == d.hdrSz && c.lag == d.lag
    requires forall j {:trigger subs[j]} :: 0 <= j < k ==> subs[j] == RenderSub(c, base, j)
    ensures var rel := c.hdrSz + SubStart(c.subs, k);
            UpdRel(subs, k, base + c.lag + rel, rel) == RenderSubs(d, base)
  {
    SubPrefix(c.subs, d.subs, k, k);
    forall j {:trigger subs[j]} | 0 <= j < k ensures subs[j] == RenderSub(d, base, j) {
      SubPrefix(c.subs, d.subs, k, j);
      assert c.subs[j] == c.subs[..k][j] && d.subs[j] == d.subs[..k][j];
    }
    UpdRelRenders(subs, d, k, base);
  }

  lemma {:induction false} SubPrefix(a: seq<SubC>, b: seq<SubC>, k: nat, j: nat)
    requires j <= k <= |a| && k <= |b| && a[..k] == b[..k]
    ensures SubStart(a, j) == SubStart(b, j)
  {
    forall i | 0 <= i < j ensures a[i] == b[i] {
      assert a[i] == a[..k][i] && b[i] == b[..k][i];
    }
    SubStartSame(a, b, j);
  }

  /** The block with its new sub-groups is the rendering of its new contents. */
  lemma {:induction false} WithSubsRenders(c: GrpC, subs: seq<SubC>, at: nat, p: nat)
    requires HasHeader(c)
    ensures var d := WithSubsC(c, subs);
            WithSubs(RenderGrp(c, at, p), RenderSubs(d, BLOCK_SIZE + at)) == RenderGrp(d, at, p)
  {
    var d := WithSubsC(c, subs);
    SubBytesIsStart(RenderSubs(d, BLOCK_SIZE + at), d, |subs|);
  }

  lemma {:induction false} ReplaceStart(cs: Contents, p: nat, c: GrpC, k: nat)
    requires p < |cs| && k <= |cs|
    ensures Start(ListReplace(cs, p, c), k) == Start(cs, k) + if k <= p then 0 else Width(c) - Width(cs[p])
  {
    StartUpdate(cs, p, c, k);
    StartSame(ListReplace(cs, p, c), cs[p := c], k);
  }

  lemma {:induction false} PropagateRenders(cs: Contents, p: nat, c: GrpC)
    requires Sound(cs) && 1 <= p < |cs| && IsBlock(c)
    ensures var g := RenderGrp(c, Start(cs, p), p);
            Propagate(Render(cs), p, g, g.abs, false) == Render(ListReplace(cs, p, c))
  {
    var g, r := RenderGrp(c, Start(cs, p), p), ListReplace(cs, p, c);
    var grps := RenderGrps(cs)[p := g];
    ReplaceStart(cs, p, c, p);
    BlockStart(cs, p);
    forall k | 0 <= k < |cs| ensures HalfAt(grps, r, p, false, k) {
      if k < p { ReplaceBefore(cs, p, c, k); } else { ReplaceSettles(cs, p, c, k); }
    }
    UpdAbsRenders(grps, r, p, false);
    CalcRenders(r);
  }

  lemma {:induction false} ReplaceBefore(cs: Contents, p: nat, c: GrpC, k: nat)
    requires p < |cs| && k < p
    ensures RenderGrps(cs)[p := RenderGrp(c, Start(cs, p), p)][k] == RenderAt(ListReplace(cs, p, c), k)
  {
    ReplaceStart(cs, p, c, k);
  }

  lemma {:induction false} ReplaceSettles(cs: Contents, p: nat, c: GrpC, k: nat)
    requires Sound(cs) && 1 <= p <= k < |cs| && IsBlock(c)
    ensures Settles(RenderGrps(cs)[p := RenderGrp(c, Start(cs, p), p)][k], ListReplace(cs, p, c), k, false)
  {
    ReplaceStart(cs, p, c, k);
    if k > p {
      assert RenderGrps(cs)[k] == RenderAt(cs, k);
      LaggedSettles(cs, p, c, k);
    } else {
      StayedSettles(c, Start(cs, p), p);
    }
  }

  lemma {:induction false} StayedSettles(c: GrpC, at: nat, p: nat)
    ensures Moved(RenderGrp(c, at, p), BLOCK_SIZE + at, at, p, false) == RenderGrp(c, at, p)
  {
  }

  lemma {:induction false} LaggedSettles(cs: Contents, p: nat, c: GrpC, k: nat)
    requires Sound(cs) && 1 <= p < k < |cs| && IsBlock(c)
    ensures Settles(RenderAt(cs, k), ListReplace(cs, p, c), k, false)
  {
    var r := ListReplace(cs, p, c);
    ReplaceStart(cs, p, c, k);
    assert IsBlock(cs[k]) && IsBlock(r[k]);
    MovedLags(cs[k], Start(cs, k), Start(r, k), k, k);
  }

  lemma {:induction false} ReplaceSound(cs: Contents, p: nat, c: GrpC)
    requires Sound(cs) && 1 <= p < |cs| && IsBlock(c)
    requires Start(cs, |cs|) - Width(cs[p]) + Width(c) <= CEA_SPACE
    ensures Sound(ListReplace(cs, p, c))
  {
    ReplaceStart(cs, p, c, |cs|);
  }

  lemma {:induction false} PayloadRemove(subs: seq<SubC>, k: nat, n: nat)
    requires k < |subs| && n < |subs|
    ensures SubStart(RemoveAt(subs, k), n)
         == if n <= k then SubStart(subs, n) else SubStart(subs, n + 1) - |subs[k].bytes|
  {
    if n > 0 { PayloadRemove(subs, k, n - 1); }
  }

  lemma {:induction false} PayloadInsert(subs: seq<SubC>, k: nat, s: SubC, n: nat)
    requires k <= |subs| && n <= |subs| + 1
    ensures SubStart(InsertAt(subs, k, s), n) == if n <= k then SubStart(subs, n) else SubStart(subs, n - 1) + |s.bytes|
  {
    if n > 0 { PayloadInsert(subs, k, s, n - 1); }
  }

  lemma {:induction false} PayloadSwap(subs: seq<SubC>, k: nat, n: nat)
    requires k + 1 < |subs| && n <= |subs|
    ensures SubStart(SwapAt(subs, k), n)
         == SubStart(subs, n) + if n == k + 1 then |subs[k + 1].bytes| - |subs[k].bytes| else 0
  {
    if n > 0 { PayloadSwap(subs, k, n - 1); }
  }

  /** subs edited from sub-group k on and the sizes updated: the block with its new contents. */
  lemma {:induction false} EditedBlock(c: GrpC, at: nat, p: nat, k: nat, subs: seq<Sub>, news: seq<SubC>)
    requires HasHeader(c) && k < |c.subs| && SubsOf(subs, WithSubsC(c, news)) && k <= |news| && c.subs[..k] == news[..k]
    requires forall j {:trigger subs[j]} :: 0 <= j < k ==> subs[j] == RenderSub(c, BLOCK_SIZE + at, j)
    ensures var s := RenderSub(c, BLOCK_SIZE + at, k);
            WithSubs(RenderGrp(c, at, p), UpdRel(subs, k, s.abs, s.rel)) == RenderGrp(WithSubsC(c, news), at, p)
  {
    SubsRender(subs, c, WithSubsC(c, news), k, BLOCK_SIZE + at);
    WithSubsRenders(c, news, at, p);
  }

  /** ... and the blocks behind: the new contents rendered. */
  lemma {:induction false} SubEditRenders(cs: Contents, p: nat, k: nat, subs: seq<Sub>, news: seq<SubC>)
    requires Sound(cs) && SubIn(cs, p, k) && HasHeader(WithSubsC(cs[p], news))
    requires SubsOf(subs, WithSubsC(cs[p], news)) && k <= |news| && cs[p].subs[..k] == news[..k]
    requires forall j {:trigger subs[j]} :: 0 <= j < k ==> subs[j] == RenderSub(cs[p], BLOCK_SIZE + Start(cs, p), j)
    ensures var (g, at) := (RenderAt(cs, p), RenderSub(cs[p], BLOCK_SIZE + Start(cs, p), k));
            Propagate(Render(cs), p, WithSubs(g, UpdRel(subs, k, at.abs, at.rel)), g.abs, false)
            == Render(ListReplace(cs, p, WithSubsC(cs[p], news)))
  {
    EditedBlock(cs[p], Start(cs, p), p, k, subs, news);
    PropagateRenders(cs, p, WithSubsC(cs[p], news));
  }

  lemma {:induction false} SubCutRenders(cs: Contents, p: nat, k: nat)
    requires Sound(cs) && SubIn(cs, p, k)
    ensures Sound(ListSubCut(cs, p, k)) && SubCut(Render(cs), p, k) == Render(ListSubCut(cs, p, k))
  {
    var c, g := cs[p], RenderAt(cs, p);
    var news := RemoveAt(c.subs, k);
    SubCutSound(cs, p, k);
    RenderedBlock(cs, p, k);
    assert c.subs[..k] == news[..k];
    SubEditRenders(cs, p, k, RemoveAt(g.subs, k), news);
  }

  lemma {:induction false} SubCutSound(cs: Contents, p: nat, k: nat)
    requires Sound(cs) && SubIn(cs, p, k)
    ensures Sound(ListSubCut(cs, p, k)) && HasHeader(WithSubsC(cs[p], RemoveAt(cs[p].subs, k)))
  {
    PayloadRemove(cs[p].subs, k, |cs[p].subs| - 1);
    ReplaceSound(cs, p, WithSubsC(cs[p], RemoveAt(cs[p].subs, k)));
  }

  lemma {:induction false} RenderedBlock(cs: Contents, p: nat, k: nat)
    requires SubIn(cs, p, k)
    ensures Render(cs).grps[p] == RenderAt(cs, p)
    ensures RenderAt(cs, p).subs[k] == RenderSub(cs[p], BLOCK_SIZE + Start(cs, p), k)
    ensures Editable(Render(cs), p, k)
  {
  }

  /** Room for a sub-group in its block and in the CEA block. */
  predicate SubRoom(cs: Contents, p: nat, s: SubC)
    requires p < |cs|
  {
    Payload(cs[p]) + |s.bytes| <= Cap(cs[p].tid) && Start(cs, |cs|) + |s.bytes| <= CEA_SPACE
  }

  lemma {:induction false} SubInsertSound(cs: Contents, p: nat, k: nat, s: SubC)
    requires Sound(cs) && 1 <= p < |cs| && HasHeader(cs[p]) && k <= |cs[p].subs| && SubRoom(cs, p, s)
    ensures Sound(ListSubInsert(cs, p, k, s)) && HasHeader(WithSubsC(cs[p], InsertAt(cs[p].subs, k, s)))
  {
    PayloadInsert(cs[p].subs, k, s, |cs[p].subs| + 1);
    ReplaceSound(cs, p, WithSubsC(cs[p], InsertAt(cs[p].subs, k, s)));
  }

  lemma {:induction false} SubInsertUpRenders(cs: Contents, p: nat, k: nat, s: Sub)
    requires Sound(cs) && SubIn(cs, p, k) && SubRoom(cs, p, StripSub(s))
    ensures Sound(ListSubInsert(cs, p, k, StripSub(s)))
    ensures SubInsertUp(Render(cs), p, k, s) == Render(ListSubInsert(cs, p, k, StripSub(s)))
  {
    var c, g := cs[p], RenderAt(cs, p);
    var news := InsertAt(c.subs, k, StripSub(s));
    SubInsertSound(cs, p, k, StripSub(s));
    RenderedBlock(cs, p, k);
    assert c.subs[..k] == news[..k];
    SubEditRenders(cs, p, k, InsertAt(g.subs, k, s), news);
  }

  lemma {:induction false} SubMoveDnRenders(cs: Contents, p: nat, k: nat)
    requires Sound(cs) && SubIn(cs, p, k + 1)
    ensures Sound(ListSubMoveDn(cs, p, k)) && SubMoveDn(Render(cs), p, k) == Render(ListSubMoveDn(cs, p, k))
  {
    SwappedBlock(cs[p], Start(cs, p), p, k);
    RenderedBlock(cs, p, k + 1);
    SameSizeRenders(cs, p, cs[p].(subs := SwapAt(cs[p].subs, k)));
  }

  /** The block with two sub-groups swapped. */
  lemma {:induction false} SwappedBlock(c: GrpC, at: nat, p: nat, k: nat)
    requires HasHeader(c) && k + 1 < |c.subs|
    ensures var (g, d) := (RenderGrp(c, at, p), c.(subs := SwapAt(c.subs, k)));
            Payload(d) == Payload(c) && IsDbc(d)
            && g.(subs := UpdRel(SwapAt(g.subs, k), k, g.subs[k].abs, g.subs[k].rel)) == RenderGrp(d, at, p)
  {
    var d, g := c.(subs := SwapAt(c.subs, k)), RenderGrp(c, at, p);
    PayloadSwap(c.subs, k, |c.subs|);
    assert g.subs[k] == RenderSub(c, BLOCK_SIZE + at, k);
    assert c.subs[..k] == d.subs[..k];
    SubsRender(SwapAt(g.subs, k), c, d, k, BLOCK_SIZE + at);
  }

  /** A block replaced by one of its size. */
  lemma {:induction false} SameSizeRenders(cs: Contents, p: nat, d: GrpC)
    requires Sound(cs) && 1 <= p < |cs| && IsBlock(d) && Width(d) == Width(cs[p])
    ensures Sound(cs[p := d])
    ensures Tree(RenderGrps(cs)[p := RenderGrp(d, Start(cs, p), p)], Render(cs).used, Render(cs).free)
        == Render(cs[p := d])
  {
    var r := cs[p := d];
    StartUpdate(cs, p, d, |cs|);
    var (grps, rs) := (RenderGrps(cs)[p := RenderGrp(d, Start(cs, p), p)], RenderGrps(r));
    forall j {:trigger grps[j]} | 0 <= j < |grps| ensures grps[j] == rs[j] {
      StartUpdate(cs, p, d, j);
      assert rs[j] == RenderAt(r, j) && RenderGrps(cs)[j] == RenderAt(cs, j);
    }
    EqualGrps(grps, rs);
  }

  lemma {:induction false} SubInsertDnRenders(cs: Contents, p: nat, k: nat, s: Sub)
    requires Sound(cs) && SubIn(cs, p, k) && SubRoom(cs, p, StripSub(s))
    ensures Sound(ListSubInsert(cs, p, k + 1, StripSub(s)))
    ensures SubInsertDn(Render(cs), p, k, s) == Render(ListSubInsert(cs, p, k + 1, StripSub(s)))
  {
    var c := cs[p];
    assert Render(cs).grps[p] == RenderAt(cs, p);
    if k + 1 < |c.subs| {
      SubInsertUpRenders(cs, p, k + 1, s);
    } else {
      var mid := ListSubInsert(cs, p, k, StripSub(s));
      SubInsertSound(cs, p, k, StripSub(s));
      SubInsertSound(cs, p, k + 1, StripSub(s));
      SubInsertUpRenders(cs, p, k, s);
      SubMoveDnRenders(mid, p, k);
      InsertThenSwap(cs, p, k, StripSub(s));
    }
  }

  lemma {:induction false} InsertThenSwap(cs: Contents, p: nat, k: nat, s: SubC)
    requires Sound(cs) && SubIn(cs, p, k) && k + 1 == |cs[p].subs| && SubRoom(cs, p, s)
    ensures var mid := ListSubInsert(cs, p, k, s);
            SubIn(mid, p, k + 1) && ListSubMoveDn(mid, p, k) == ListSubInsert(cs, p, k + 1, s)
  {
    var c := cs[p];
    var n := |c.subs| + 1;
    PayloadInsert(c.subs, k, s, n);
    PayloadInsert(c.subs, k + 1, s, n);
    SubInsertSound(cs, p, k, s);
    assert SwapAt(InsertAt(c.subs, k, s), k) == InsertAt(c.subs, k + 1, s);
  }
}
