/** The whole tree after a sub-group was pasted over another: the block is put where its old part was, and
    everything behind it moves along. */
module SubPasteTree {
  import opened Bytes
  import opened GroupTree
  import opened GroupContent
  import opened GroupEdits
  import opened GroupRuns
  import opened GroupShift
  import opened GroupBooks
  import opened GroupCapacity
  import opened GroupItems

  /** The parts with part k replaced, before the offsets are updated. */
  function Pasted(subs: seq<Sub>, k: nat, s: Sub): (r: seq<Sub>)
    requires k < |subs|
    ensures |r| == |subs|
  {
    subs[k := s.(abs := subs[k].abs, rel := subs[k].rel, idx := k)]
  }

  lemma {:induction false} PastedBytes(subs: seq<Sub>, k: nat, s: Sub, n: nat)
    requires k < |subs| && n <= |subs|
    ensures SubBytes(Pasted(subs, k, s), n)
         == SubBytes(subs, n) + if n > k then |s.bytes| - |subs[k].bytes| else 0
  {
    if n > 0 { PastedBytes(subs, k, s, n - 1); }
  }

  /** The block with the new part, still at its place. */
  function PastedBlock(g: Grp, k: nat, s: Sub): Grp
    requires k < |g.subs| && |g.inst| == 32
  {
    WithSubs(g, Pasted(g.subs, k, s))
  }

  /** A block with a header part as rendered contents have it. */
  predicate Headed(g: Grp) {
    && |g.inst| == 32 && g.hdrSz > 0 && g.used == AllBytes(g.subs) && g.datSz == g.hdrSz + g.used
    && g.free == Cap(g.tid) - g.used && RelsOk(g.subs, g.hdrSz)
  }

  /** Part j after the paste: the new type and bytes at k, relative offsets behind k moved by the growth,
      absolute ones in step with the block. */
  predicate PartPasted(h: Grp, g: Grp, k: nat, s: Sub, growth: int, j: nat)
    requires j < |h.subs| == |g.subs|
  {
    && h.subs[j].tid == (if j == k then s.tid else g.subs[j].tid)
    && h.subs[j].bytes == (if j == k then s.bytes else g.subs[j].bytes)
    && h.subs[j].rel == g.subs[j].rel + (if j > k then growth else 0)
    && h.subs[j].abs == h.abs + h.subs[j].rel && h.subs[j].idx == j
  }

  predicate PartsPasted(h: Grp, g: Grp, k: nat, s: Sub, growth: int) {
    |h.subs| == |g.subs|
    && forall j {:trigger PartPasted(h, g, k, s, growth, j)} :: 0 <= j < |h.subs| ==> PartPasted(h, g, k, s, growth, j)
  }

  /** The edited block: at the absolute offset of the replaced part, grown by the growth of that part, its
      length field the new number of bytes beside the old tag. */
  predicate BlockPasted(h: Grp, g: Grp, k: nat, s: Sub)
    requires k < |g.subs|
  {
    var growth := |s.bytes| - |g.subs[k].bytes|;
    && h.tid == g.tid && h.hdrSz == g.hdrSz && h.idx == g.idx && h.abs == g.subs[k].abs && h.rel == h.abs % 128
    && h.datSz == g.datSz + growth && h.used == g.used + growth && h.free == g.free - growth
    && |h.inst| == |g.inst| == 32 && h.inst[0] == g.inst[0] / 32 * 32 + h.used % 32 && h.inst[1..] == g.inst[1..]
    && PartsPasted(h, g, k, s, growth)
  }

  /** A later block: moved by what the edited one was misplaced and grew, its parts in step. */
  predicate LaterPasted(h: Grp, g: Grp, abs: int, rel: int) {
    && h.(abs := g.abs, rel := g.rel, subs := g.subs) == g && h.abs == g.abs + abs && h.rel == g.rel + rel
    && |h.subs| == |g.subs|
    && forall j {:trigger h.subs[j]} :: 0 <= j < |h.subs| ==> h.subs[j] == g.subs[j].(abs := h.abs + g.subs[j].rel)
  }

  // ---------------------------------------------------------------- one block

  lemma {:induction false} MovedSubs(h: Grp, g: Grp, k: nat, s: Sub, abs: int, rel: int, i: nat)
    requires Headed(g) && k < |g.subs| && h == Moved(PastedBlock(g, k, s), abs, rel, i, true)
    ensures h.subs == UpdRel(Pasted(g.subs, k, s), 0, abs + g.hdrSz, g.hdrSz) && h.abs == abs
  {
    assert Pasted(g.subs, k, s)[0].rel == g.subs[0].rel == g.hdrSz + SubBytes(g.subs, 0) == g.hdrSz;
  }

  lemma {:induction false} MovedPart(h: Grp, g: Grp, k: nat, s: Sub, growth: int, j: nat)
    requires RelsOk(g.subs, g.hdrSz) && k < |g.subs| && j < |g.subs| && growth == |s.bytes| - |g.subs[k].bytes|
    requires h.subs == UpdRel(Pasted(g.subs, k, s), 0, h.abs + g.hdrSz, g.hdrSz)
    ensures |h.subs| == |g.subs| && PartPasted(h, g, k, s, growth, j)
  {
    PastedRel(g.subs, g.hdrSz, k, s, h.abs, j);
  }

  lemma {:induction false} PastedRel(subs: seq<Sub>, hdrSz: nat, k: nat, s: Sub, abs: int, j: nat)
    requires RelsOk(subs, hdrSz) && k < |subs| && j < |subs|
    ensures var (a, b) := (UpdRel(Pasted(subs, k, s), 0, abs + hdrSz, hdrSz)[j], subs[j]);
            && a.tid == (if j == k then s.tid else b.tid) && a.bytes == (if j == k then s.bytes else b.bytes)
            && a.rel == b.rel + (if j > k then |s.bytes| - |subs[k].bytes| else 0) && a.abs == abs + a.rel && a.idx == j
  {
    UpdRelAt(Pasted(subs, k, s), 0, abs + hdrSz, hdrSz, j);
    PastedBytes(subs, k, s, j);
  }

  lemma {:induction false} PastedSizes(g: Grp, k: nat, s: Sub)
    requires Headed(g) && k < |g.subs|
    ensures var (h, growth) := (PastedBlock(g, k, s), |s.bytes| - |g.subs[k].bytes|);
            && h.tid == g.tid && h.hdrSz == g.hdrSz && h.datSz == g.datSz + growth && h.used == g.used + growth
            && h.free == g.free - growth && Own(h) == Own(g) + growth
  {
    PastedBytes(g.subs, k, s, |g.subs|);
  }

  lemma {:induction false} PastedLength(g: Grp, k: nat, s: Sub)
    requires |g.inst| == 32 && k < |g.subs|
    ensures var h := PastedBlock(g, k, s);
            |h.inst| == 32 && h.inst[0] == g.inst[0] / 32 * 32 + h.used % 32 && h.inst[1..] == g.inst[1..]
  {
    var h := PastedBlock(g, k, s);
    TagBits(g.inst[0]);
    assert h.inst[0] == TagCode(g.inst[0]) * 32 + h.used % 32;
    assert h.inst[1..] == g.inst[1..];
  }

  lemma {:induction false} TagBits(b: Byte)
    ensures TagCode(b) == b / 32
  {
  }

  lemma {:induction false} MovedParts(h: Grp, g: Grp, k: nat, s: Sub, growth: int, abs: int, rel: int, i: nat)
    requires Headed(g) && k < |g.subs| && growth == |s.bytes| - |g.subs[k].bytes|
    requires h == Moved(PastedBlock(g, k, s), abs, rel, i, true)
    ensures PartsPasted(h, g, k, s, growth)
  {
    MovedSubs(h, g, k, s, abs, rel, i);
    forall j {:trigger PartPasted(h, g, k, s, growth, j)} | 0 <= j < |h.subs|
      ensures PartPasted(h, g, k, s, growth, j)
    {
      MovedPart(h, g, k, s, growth, j);
    }
  }

  lemma {:induction false} MovedBlock(h: Grp, g: Grp, k: nat, s: Sub, abs: int, rel: int, i: nat)
    requires Headed(g) && k < |g.subs| && g.idx == i && abs == g.subs[k].abs && rel == abs % 128
    requires h == Moved(PastedBlock(g, k, s), abs, rel, i, true)
    ensures BlockPasted(h, g, k, s)
  {
    PastedSizes(g, k, s);
    PastedLength(g, k, s);
    MovedParts(h, g, k, s, |s.bytes| - |g.subs[k].bytes|, abs, rel, i);
  }

  lemma {:induction false} MovedLater(g: Grp, abs: int, rel: int, i: nat)
    requires BlockOk(g) && g.idx == i
    ensures LaterPasted(Moved(g, abs, rel, i, true), g, abs - g.abs, rel - g.rel)
  {
    var h := Moved(g, abs, rel, i, true);
    forall j {:trigger h.subs[j]} | 0 <= j < |h.subs| ensures h.subs[j] == g.subs[j].(abs := h.abs + g.subs[j].rel) {
      assert g.subs[0].rel == g.hdrSz + SubBytes(g.subs, 0) == g.hdrSz;
      UpdRelAt(g.subs, 0, abs + g.hdrSz, g.hdrSz, j);
    }
  }

  // ---------------------------------------------------------------- the tree

  lemma {:induction false} RenderedHeaded(cs: Contents, p: nat, k: nat)
    requires Good(cs) && SubIn(cs, p, k)
    ensures var g := Render(cs).grps[p];
            Headed(g) && k < |g.subs| && g.idx == p && Editable(Render(cs), p, k)
  {
    RenderedBooks(cs);
    assert BlockOk(Render(cs).grps[p]) && Render(cs).grps[p] == RenderAt(cs, p);
  }

  /** Sizes before and after the replacement. */
  lemma {:induction false} DatPasted(grps: seq<Grp>, p: nat, h: Grp, q: nat)
    requires p < q <= |grps|
    ensures DatTo(grps[p := h], q) - DatTo(grps[p := h], p) == DatTo(grps, q) - DatTo(grps, p) + h.datSz - grps[p].datSz
    decreases q
  {
    if q == p + 1 { DatBefore(grps, p, h, p); } else { DatPasted(grps, p, h, q - 1); }
  }

  lemma {:induction false} DatBefore(grps: seq<Grp>, p: nat, h: Grp, q: nat)
    requires q <= p < |grps|
    ensures DatTo(grps[p := h], q) == DatTo(grps, q)
  {
    if q > 0 { DatBefore(grps, p, h, q - 1); }
  }

  lemma {:induction false} PlacesApart(cs: Contents, p: nat, q: nat)
    requires Good(cs) && 1 <= p < q < |cs|
    ensures var t := Render(cs);
            && t.grps[q].abs - t.grps[p].abs == DatTo(t.grps, q) - DatTo(t.grps, p)
            && t.grps[q].rel - t.grps[p].rel == DatTo(t.grps, q) - DatTo(t.grps, p)
            && BlockOk(t.grps[q]) && t.grps[q].idx == q
  {
    var t := Render(cs);
    RenderedBooks(cs);
    assert t.grps[p] == RenderAt(cs, p) && t.grps[q] == RenderAt(cs, q);
    RenderedDat(cs, p);
    RenderedDat(cs, q);
  }

  /** The groups after the paste. */
  function PastedGrps(t: Tree, p: nat, k: nat, s: Sub): seq<Grp>
    requires Editable(t, p, k)
  {
    UpdAbs(t.grps[p := PastedBlock(t.grps[p], k, s)], p, t.grps[p].subs[k].abs, true)
  }

  lemma {:induction false} PasteIs(t: Tree, p: nat, k: nat, s: Sub)
    requires Editable(t, p, k)
    ensures SubPaste(t, p, k, s) == Calc(PastedGrps(t, p, k, s))
  {
  }

  lemma {:induction false} PastedBefore(t: Tree, p: nat, k: nat, s: Sub, i: nat)
    requires Editable(t, p, k) && i < p
    ensures |PastedGrps(t, p, k, s)| == |t.grps| && PastedGrps(t, p, k, s)[i] == t.grps[i]
  {
    var (h, abs) := (PastedBlock(t.grps[p], k, s), t.grps[p].subs[k].abs);
    UpdFromAt(t.grps[p := h], p, abs, abs % BLOCK_SIZE, true, i);
  }

  lemma {:induction false} PastedHere(t: Tree, p: nat, k: nat, s: Sub)
    requires Editable(t, p, k) && Headed(t.grps[p]) && t.grps[p].idx == p
    ensures |PastedGrps(t, p, k, s)| == |t.grps| && BlockPasted(PastedGrps(t, p, k, s)[p], t.grps[p], k, s)
  {
    var (h, abs) := (PastedBlock(t.grps[p], k, s), t.grps[p].subs[k].abs);
    UpdFromAt(t.grps[p := h], p, abs, abs % BLOCK_SIZE, true, p);
    MovedBlock(PastedGrps(t, p, k, s)[p], t.grps[p], k, s, abs, abs % BLOCK_SIZE, p);
  }

  lemma {:induction false} PastedLater(cs: Contents, p: nat, k: nat, s: Sub, q: nat)
    requires Good(cs) && SubIn(cs, p, k) && p < q < |cs|
    ensures Editable(Render(cs), p, k)
    ensures var (t, g) := (Render(cs), Render(cs).grps[p]);
            var growth := |s.bytes| - |g.subs[k].bytes|;
            && |PastedGrps(t, p, k, s)| == |t.grps|
            && LaterPasted(PastedGrps(t, p, k, s)[q], t.grps[q], g.subs[k].abs - g.abs + growth,
                           g.subs[k].abs % 128 - g.rel + growth)
  {
    RenderedHeaded(cs, p, k);
    var (t, g) := (Render(cs), Render(cs).grps[p]);
    PlacesApart(cs, p, q);
    PastedLaterAt(t, p, k, s, q, DatTo(t.grps, q) - DatTo(t.grps, p), |s.bytes| - |g.subs[k].bytes|);
  }

  lemma {:induction false} PastedLaterAt(t: Tree, p: nat, k: nat, s: Sub, q: nat, d: int, growth: int)
    requires Editable(t, p, k) && Headed(t.grps[p]) && p < q < |t.grps| && BlockOk(t.grps[q]) && t.grps[q].idx == q
    requires d == DatTo(t.grps, q) - DatTo(t.grps, p) && growth == |s.bytes| - |t.grps[p].subs[k].bytes|
    requires t.grps[q].abs == t.grps[p].abs + d && t.grps[q].rel == t.grps[p].rel + d
    ensures var g := t.grps[p];
            && |PastedGrps(t, p, k, s)| == |t.grps|
            && LaterPasted(PastedGrps(t, p, k, s)[q], t.grps[q], g.subs[k].abs - g.abs + growth,
                           g.subs[k].abs % 128 - g.rel + growth)
  {
    var g := t.grps[p];
    var (abs, rel) := (g.subs[k].abs, g.subs[k].abs % 128);
    PastedAt(t, p, k, s, q, d + growth);
    MovedBy(PastedGrps(t, p, k, s)[q], t.grps[q], abs + (d + growth), rel + (d + growth), q,
      abs - g.abs + growth, rel - g.rel + growth);
  }

  lemma {:induction false} MovedBy(h: Grp, g: Grp, abs: int, rel: int, i: nat, da: int, dr: int)
    requires BlockOk(g) && g.idx == i && da == abs - g.abs && dr == rel - g.rel && h == Moved(g, abs, rel, i, true)
    ensures LaterPasted(h, g, da, dr)
  {
    MovedLater(g, abs, rel, i);
  }

  lemma {:induction false} PastedAt(t: Tree, p: nat, k: nat, s: Sub, q: nat, d: int)
    requires Editable(t, p, k) && Headed(t.grps[p]) && p < q < |t.grps|
    requires d == DatTo(t.grps, q) - DatTo(t.grps, p) + |s.bytes| - |t.grps[p].subs[k].bytes|
    ensures var abs := t.grps[p].subs[k].abs;
            && |PastedGrps(t, p, k, s)| == |t.grps|
            && PastedGrps(t, p, k, s)[q] == Moved(t.grps[q], abs + d, abs % 128 + d, q, true)
  {
    var (h, abs) := (PastedBlock(t.grps[p], k, s), t.grps[p].subs[k].abs);
    PastedSizes(t.grps[p], k, s);
    DatPasted(t.grps, p, h, q);
    UpdFromBy(t.grps[p := h], p, abs, abs % BLOCK_SIZE, true, q, d);
  }

  lemma {:induction false} PastedCounters(cs: Contents, p: nat, k: nat, s: Sub)
    requires Good(cs) && SubIn(cs, p, k)
    ensures Editable(Render(cs), p, k)
    ensures var (t, u) := (Render(cs), Calc(PastedGrps(Render(cs), p, k, s)));
            var growth := |s.bytes| - |t.grps[p].subs[k].bytes|;
            u.used == t.used + growth && u.free == t.free - growth
  {
    RenderedHeaded(cs, p, k);
    RenderedBooks(cs);
    var (t, h) := (Render(cs), PastedBlock(Render(cs).grps[p], k, s));
    PastedSizes(t.grps[p], k, s);
    TotalsUpdate(t.grps, p, h);
    UpdItems(t.grps[p := h], p, t.grps[p].subs[k].abs, true);
    SameItemDats(PastedGrps(t, p, k, s), t.grps[p := h], |t.grps|);
  }

  /** What the paste of s over part k of block p makes of the groups: those before the block are untouched;
      the block and its parts are as BlockPasted says; every later block moves by what the block was
      misplaced and grew, with its parts in step. */
  predicate GroupsPasted(us: seq<Grp>, ts: seq<Grp>, p: nat, k: nat, s: Sub)
    requires p < |ts| && k < |ts[p].subs|
  {
    var g := ts[p];
    var growth := |s.bytes| - |g.subs[k].bytes|;
    && |us| == |ts| && BlockPasted(us[p], g, k, s)
    && (forall i {:trigger us[i]} :: 0 <= i < p ==> us[i] == ts[i])
    && forall q {:trigger us[q]} :: p < q < |us| ==>
      LaterPasted(us[q], ts[q], g.subs[k].abs - g.abs + growth, g.subs[k].abs % 128 - g.rel + growth)
  }

  lemma {:induction false} PastedAll(cs: Contents, p: nat, k: nat, s: Sub)
    requires Good(cs) && SubIn(cs, p, k)
    ensures Editable(Render(cs), p, k)
    ensures GroupsPasted(PastedGrps(Render(cs), p, k, s), Render(cs).grps, p, k, s)
  {
    RenderedHeaded(cs, p, k);
    var t := Render(cs);
    var us := PastedGrps(t, p, k, s);
    PastedHere(t, p, k, s);
    forall i {:trigger us[i]} | 0 <= i < p ensures us[i] == t.grps[i] { PastedBefore(t, p, k, s, i); }
    var (g, growth) := (t.grps[p], |s.bytes| - |t.grps[p].subs[k].bytes|);
    forall q {:trigger us[q]} | p < q < |us|
      ensures LaterPasted(us[q], t.grps[q], g.subs[k].abs - g.abs + growth, g.subs[k].abs % 128 - g.rel + growth)
    {
      PastedLater(cs, p, k, s, q);
    }
  }

  /** Paste of sub-group s over part k of block p: the groups are as GroupsPasted says, and the counters grow
      as the part did. */
  lemma {:induction false} SubPasteWhole(cs: Contents, p: nat, k: nat, s: Sub)
    requires Good(cs) && SubIn(cs, p, k)
    ensures Editable(Render(cs), p, k)
    ensures var (t, u) := (Render(cs), SubPaste(Render(cs), p, k, s));
            var growth := |s.bytes| - |t.grps[p].subs[k].bytes|;
            u.used == t.used + growth && u.free == t.free - growth && GroupsPasted(u.grps, t.grps, p, k, s)
  {
    PastedAll(cs, p, k, s);
    PasteIs(Render(cs), p, k, s);
    PastedCounters(cs, p, k, s);
  }
}
