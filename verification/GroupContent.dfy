/** What the caches of a tree cache: a plain list of group contents.  Render computes every cached
    offset, size, index and free-space counter from that list. */
module GroupContent {
  import opened Bytes
  import opened GroupTree

  datatype SubC = SubC(tid: Tid, bytes: seq<Byte>)

  /** flat: the total size of a group without header part.  lag: how far the cached absolute offsets
      of the sub-groups are ahead of the group's own. */
  datatype GrpC = GrpC(tid: Tid, inst: seq<Byte>, hdrSz: nat, flat: nat, subs: seq<SubC>, lag: int)

  type Contents = seq<GrpC>

  // ---------------------------------------------------------------- sizes and positions

  function SubStart(subs: seq<SubC>, n: nat): nat
    requires n <= |subs|
  {
    if n == 0 then 0 else SubStart(subs, n - 1) + |subs[n - 1].bytes|
  }

  function Payload(c: GrpC): nat { SubStart(c.subs, |c.subs|) }

  /** The bytes a group occupies in the assembled block. */
  function Width(c: GrpC): nat {
    (if c.hdrSz == 0 then c.flat else c.hdrSz) + Payload(c)
  }

  /** getTotalSize: the CEA header counts the checksum byte it also keeps. */
  function Total(c: GrpC): nat {
    if c.hdrSz == 0 then c.flat else if c.tid == CHD then c.hdrSz + 1 else c.hdrSz + Payload(c)
  }

  /** The byte position of group n in the assembled block. */
  function Start(cs: Contents, n: nat): nat
    requires n <= |cs|
  {
    if n == 0 then 0 else Start(cs, n - 1) + Width(cs[n - 1])
  }

  // ---------------------------------------------------------------- well-formed contents

  predicate IsHdr(c: GrpC) {
    c.tid == CHD && c.hdrSz == 4 && c.flat == 0 && |c.inst| == 32 && c.subs == []
  }

  predicate IsDtd(c: GrpC) {
    c.tid == DTD && c.hdrSz == 0 && c.flat == 18 && |c.inst| == 32 && c.subs == []
  }

  predicate DbcType(tid: Tid) {
    tid.edid == 0 && tid.sub == 0 && !Fixed(tid)
    && ((2 <= tid.cea <= 7 && tid.ext == 0) || (tid.cea == 0 && 1 <= tid.ext <= 15))
  }

  /** Parts of a flat block: no bytes of their own, and nothing moves or cuts them. */
  predicate FixedParts(subs: seq<SubC>) {
    forall k {:trigger subs[k]} :: 0 <= k < |subs| ==> subs[k].tid.dbcFixed && subs[k].bytes == []
  }

  /** A data block: flat, perhaps shown in fixed parts, or a header followed by sub-groups. */
  predicate IsDbc(c: GrpC) {
    DbcType(c.tid) && |c.inst| == 32
    && if c.hdrSz == 0 then 1 <= c.flat <= 32 && Payload(c) == 0 && FixedParts(c.subs)
       else c.hdrSz == 32 - Cap(c.tid) && c.flat == 0 && Payload(c) <= Cap(c.tid)
  }

  predicate IsBlock(c: GrpC) { IsDtd(c) || IsDbc(c) }

  /** The header first, then blocks that fit. */
  predicate Sound(cs: Contents) {
    && |cs| >= 1 && IsHdr(cs[0])
    && (forall i {:trigger cs[i]} :: 1 <= i < |cs| ==> IsBlock(cs[i]))
    && Start(cs, |cs|) <= CEA_SPACE
  }

  /** Every data block before every DTD. */
  predicate DtdsLast(cs: Contents) {
    forall i, j {:trigger cs[i], cs[j]} :: 1 <= i < j < |cs| && IsDtd(cs[i]) ==> IsDtd(cs[j])
  }

  predicate Good(cs: Contents) {
    Sound(cs) && DtdsLast(cs)
  }

  // ---------------------------------------------------------------- rendering

  function RenderSub(c: GrpC, base: int, k: nat): Sub
    requires k < |c.subs|
  {
    var rel := c.hdrSz + SubStart(c.subs, k);
    Sub(c.subs[k].tid, c.subs[k].bytes, base + c.lag + rel, rel, k)
  }

  function RenderSubs(c: GrpC, base: int): (r: seq<Sub>)
    ensures |r| == |c.subs| && forall k {:trigger r[k]} :: 0 <= k < |r| ==> r[k] == RenderSub(c, base, k)
  {
    seq(|c.subs|, k requires 0 <= k < |c.subs| => RenderSub(c, base, k))
  }

  function RenderGrp(c: GrpC, at: nat, i: nat): Grp {
    Grp(c.tid, c.inst, c.hdrSz, Total(c), BLOCK_SIZE + at, at, i, RenderSubs(c, BLOCK_SIZE + at),
        Payload(c), Cap(c.tid) - Payload(c))
  }

  /** Group i of the rendering. */
  function RenderAt(cs: Contents, i: nat): Grp
    requires i < |cs|
  {
    RenderGrp(cs[i], Start(cs, i), i)
  }

  function RenderGrps(cs: Contents): (r: seq<Grp>)
    ensures |r| == |cs| && forall i {:trigger r[i]} :: 0 <= i < |r| ==> r[i] == RenderAt(cs, i)
  {
    seq(|cs|, i requires 0 <= i < |cs| => RenderAt(cs, i))
  }

  function Render(cs: Contents): Tree {
    Tree(RenderGrps(cs), Start(cs, |cs|), CEA_SPACE - Start(cs, |cs|))
  }

  // ---------------------------------------------------------------- positions in changed lists

  lemma {:induction false} StartSame(a: Contents, b: Contents, n: nat)
    requires n <= |a| && n <= |b| && forall i :: 0 <= i < n ==> Width(a[i]) == Width(b[i])
    ensures Start(a, n) == Start(b, n)
  {
    if n > 0 { StartSame(a, b, n - 1); }
  }

  lemma {:induction false} StartMono(cs: Contents, i: nat, j: nat)
    requires i <= j <= |cs|
    ensures Start(cs, i) <= Start(cs, j)
  {
    if i < j { StartMono(cs, i, j - 1); }
  }

  lemma {:induction false} SubStartSame(a: seq<SubC>, b: seq<SubC>, n: nat)
    requires n <= |a| && n <= |b| && forall i :: 0 <= i < n ==> |a[i].bytes| == |b[i].bytes|
    ensures SubStart(a, n) == SubStart(b, n)
  {
    if n > 0 { SubStartSame(a, b, n - 1); }
  }

  // ---------------------------------------------------------------- groups not yet updated

  /** The sub-groups carry the contents' types and bytes, whatever their offsets. */
  predicate SubsOf(subs: seq<Sub>, c: GrpC) {
    && |subs| == |c.subs|
    && forall k {:trigger subs[k]} :: 0 <= k < |subs| ==>
      subs[k].tid == c.subs[k].tid && subs[k].bytes == c.subs[k].bytes
  }

  /** A group with these contents; its offsets and index, and all offsets of its sub-groups except
      the first relative one, may be stale. */
  predicate Loose(g: Grp, c: GrpC) {
    && g.tid == c.tid && g.inst == c.inst && g.hdrSz == c.hdrSz && g.datSz == Total(c)
    && g.used == Payload(c) && g.free == Cap(c.tid) - Payload(c)
    && SubsOf(g.subs, c) && (g.subs != [] ==> g.subs[0].rel == c.hdrSz)
  }

  lemma {:induction false} SubBytesSame(a: seq<Sub>, b: seq<Sub>, n: nat)
    requires n <= |a| == |b| && forall k :: 0 <= k < |a| ==> a[k].bytes == b[k].bytes
    ensures SubBytes(a, n) == SubBytes(b, n)
  {
    if n > 0 { SubBytesSame(a, b, n - 1); }
  }

  /** What UpdateRelOffs leaves at position j. */
  lemma {:induction false} UpdRelAt(subs: seq<Sub>, k: nat, abs: int, rel: int, j: nat)
    requires j < |subs|
    ensures var r := UpdRel(subs, k, abs, rel);
            |r| == |subs|
            && r[j] == if j < k then subs[j]
                       else var d := SubBytes(subs, j) - SubBytes(subs, k);
                            subs[j].(abs := abs + d, rel := rel + d, idx := j)
    decreases |subs| - k
  {
    if k < |subs| {
      var n := |subs[k].bytes|;
      var next := subs[k := subs[k].(abs := abs, rel := rel, idx := k)];
      UpdRelAt(next, k + 1, abs + n, rel + n, j);
      SubBytesSame(subs, next, j);
      SubBytesSame(subs, next, k + 1);
    }
  }

  lemma {:induction false} SubBytesIsStart(subs: seq<Sub>, c: GrpC, n: nat)
    requires SubsOf(subs, c) && n <= |subs|
    ensures SubBytes(subs, n) == SubStart(c.subs, n)
  {
    if n > 0 { SubBytesIsStart(subs, c, n - 1); }
  }

  /** UpdateRelOffs makes the offsets of sub-groups k.. the rendered ones. */
  lemma {:induction false} UpdRelRenders(subs: seq<Sub>, c: GrpC, k: nat, base: int)
    requires SubsOf(subs, c) && k <= |subs|
    requires forall j {:trigger subs[j]} :: 0 <= j < k ==> subs[j] == RenderSub(c, base, j)
    ensures var rel := c.hdrSz + SubStart(c.subs, k);
            UpdRel(subs, k, base + c.lag + rel, rel) == RenderSubs(c, base)
  {
    var rel := c.hdrSz + SubStart(c.subs, k);
    var r := UpdRel(subs, k, base + c.lag + rel, rel);
    forall j | 0 <= j < |subs| ensures r[j] == RenderSub(c, base, j) {
      UpdRelAt(subs, k, base + c.lag + rel, rel, j);
      SubBytesIsStart(subs, c, j);
      SubBytesIsStart(subs, c, k);
    }
    assert r == RenderSubs(c, base);
  }

  lemma {:induction false} MovedRenders(g: Grp, c: GrpC, at: nat, i: nat)
    requires Loose(g, c) && c.lag == 0
    ensures Moved(g, BLOCK_SIZE + at, at, i, true) == RenderGrp(c, at, i)
  {
    if g.subs != [] {
      UpdRelRenders(g.subs, c, 0, BLOCK_SIZE + at);
    } else {
      assert g.subs == RenderSubs(c, BLOCK_SIZE + at);
    }
  }

  /** A block that moved from its old place while its sub-groups' offsets stayed. */
  lemma {:induction false} MovedLags(c: GrpC, oldAt: nat, at: nat, j: nat, i: nat)
    ensures Moved(RenderGrp(c, oldAt, j), BLOCK_SIZE + at, at, i, false)
         == RenderGrp(c.(lag := c.lag + oldAt - at), at, i)
  {
    var c' := c.(lag := c.lag + oldAt - at);
    assert RenderSubs(c, BLOCK_SIZE + oldAt) == RenderSubs(c', BLOCK_SIZE + at);
  }

  // ---------------------------------------------------------------- UpdateAbsOffs renders

  /** Total sizes of the first n groups. */
  function DatTo(grps: seq<Grp>, n: nat): int
    requires n <= |grps|
  {
    if n == 0 then 0 else DatTo(grps, n - 1) + grps[n - 1].datSz
  }

  lemma {:induction false} DatToSame(a: seq<Grp>, b: seq<Grp>, n: nat)
    requires n <= |a| == |b| && forall k :: 0 <= k < |a| ==> a[k].datSz == b[k].datSz
    ensures DatTo(a, n) == DatTo(b, n)
  {
    if n > 0 { DatToSame(a, b, n - 1); }
  }

  /** What UpdateAbsOffs leaves at position j. */
  lemma {:induction false} UpdFromAt(grps: seq<Grp>, i: nat, abs: int, rel: int, soffs: bool, j: nat)
    requires j < |grps|
    ensures var r := UpdFrom(grps, i, abs, rel, soffs);
            |r| == |grps|
            && r[j] == if j < i then grps[j]
                       else var d := DatTo(grps, j) - DatTo(grps, i);
                            Moved(grps[j], abs + d, rel + d, j, soffs)
    decreases |grps| - i
  {
    if i < |grps| {
      var n := grps[i].datSz;
      var next := grps[i := Moved(grps[i], abs, rel, i, soffs)];
      UpdFromAt(next, i + 1, abs + n, rel + n, soffs, j);
      DatToSame(grps, next, j);
      DatToSame(grps, next, i + 1);
    }
  }

  /** The block after it was moved to its place: this is what UpdateAbsOffs has to make of it. */
  predicate Settles(g: Grp, cs: Contents, i: nat, soffs: bool)
    requires i < |cs|
  {
    && IsBlock(cs[i]) && g.datSz == Total(cs[i])
    && Moved(g, BLOCK_SIZE + Start(cs, i), Start(cs, i), i, soffs) == RenderAt(cs, i)
  }

  /** Group k is rendered if it stands before i, and to be moved to its place from i on. */
  predicate HalfAt(grps: seq<Grp>, cs: Contents, i: nat, soffs: bool, k: nat)
    requires k < |grps| == |cs|
  {
    if k < i then grps[k] == RenderAt(cs, k) else Settles(grps[k], cs, k, soffs)
  }

  predicate HalfSettled(grps: seq<Grp>, cs: Contents, i: nat, soffs: bool) {
    && |grps| == |cs| && 1 <= i < |cs|
    && forall k {:trigger HalfAt(grps, cs, i, soffs, k)} :: 0 <= k < |cs| ==> HalfAt(grps, cs, i, soffs, k)
  }

  /** Behind the header, total sizes are widths. */
  lemma {:induction false} DatToIsStart(grps: seq<Grp>, cs: Contents, i: nat, n: nat, soffs: bool)
    requires HalfSettled(grps, cs, i, soffs) && i <= n <= |cs|
    ensures DatTo(grps, n) - DatTo(grps, i) == Start(cs, n) - Start(cs, i)
  {
    if i < n {
      DatToIsStart(grps, cs, i, n - 1, soffs);
      assert HalfAt(grps, cs, i, soffs, n - 1);
    }
  }

  /** Updating from group i on completes the rendering. */
  lemma {:induction false} UpdAbsRenders(grps: seq<Grp>, cs: Contents, i: nat, soffs: bool)
    requires HalfSettled(grps, cs, i, soffs) && Start(cs, i) < BLOCK_SIZE
    ensures UpdAbs(grps, i, BLOCK_SIZE + Start(cs, i), soffs) == RenderGrps(cs)
  {
    UpdAbsIs(grps, i, Start(cs, i), soffs);
    UpdFromRenders(grps, cs, i, soffs);
  }

  lemma {:induction false} UpdAbsIs(grps: seq<Grp>, i: nat, at: nat, soffs: bool)
    requires at < BLOCK_SIZE
    ensures UpdAbs(grps, i, BLOCK_SIZE + at, soffs) == UpdFrom(grps, i, BLOCK_SIZE + at, at, soffs)
  {
    InBlock(at);
  }

  lemma {:induction false} InBlock(at: nat)
    requires at < BLOCK_SIZE
    ensures (BLOCK_SIZE + at) % BLOCK_SIZE == at
  {
  }

  lemma {:induction false} UpdFromRenders(grps: seq<Grp>, cs: Contents, i: nat, soffs: bool)
    requires HalfSettled(grps, cs, i, soffs)
    ensures UpdFrom(grps, i, BLOCK_SIZE + Start(cs, i), Start(cs, i), soffs) == RenderGrps(cs)
  {
    var at := Start(cs, i);
    var r, s := UpdFrom(grps, i, BLOCK_SIZE + at, at, soffs), RenderGrps(cs);
    forall k {:trigger r[k]} | 0 <= k < |s| ensures r[k] == s[k] {
      UpdFromSettles(grps, cs, i, soffs, k);
    }
    EqualGrps(r, s);
  }

  lemma {:induction false} EqualGrps(a: seq<Grp>, b: seq<Grp>)
    requires |a| == |b| && forall k {:trigger a[k]} :: 0 <= k < |a| ==> a[k] == b[k]
    ensures a == b
  {
  }

  lemma {:induction false} UpdFromSettles(grps: seq<Grp>, cs: Contents, i: nat, soffs: bool, k: nat)
    requires HalfSettled(grps, cs, i, soffs) && k < |cs|
    ensures var at := Start(cs, i);
            var r := UpdFrom(grps, i, BLOCK_SIZE + at, at, soffs);
            |r| == |cs| && r[k] == RenderAt(cs, k)
  {
    if i <= k { UpdFromLater(grps, cs, i, soffs, k); } else { UpdFromBefore(grps, cs, i, soffs, k); }
  }

  lemma {:induction false} UpdFromBefore(grps: seq<Grp>, cs: Contents, i: nat, soffs: bool, k: nat)
    requires HalfSettled(grps, cs, i, soffs) && k < i
    ensures var at := Start(cs, i);
            var r := UpdFrom(grps, i, BLOCK_SIZE + at, at, soffs);
            |r| == |cs| && r[k] == RenderAt(cs, k)
  {
    assert HalfAt(grps, cs, i, soffs, k);
    UpdFromAt(grps, i, BLOCK_SIZE + Start(cs, i), Start(cs, i), soffs, k);
  }

  lemma {:induction false} UpdFromLater(grps: seq<Grp>, cs: Contents, i: nat, soffs: bool, k: nat)
    requires HalfSettled(grps, cs, i, soffs) && i <= k < |cs|
    ensures var at := Start(cs, i);
            var r := UpdFrom(grps, i, BLOCK_SIZE + at, at, soffs);
            |r| == |cs| && r[k] == RenderAt(cs, k)
  {
    assert HalfAt(grps, cs, i, soffs, k);
    DatToIsStart(grps, cs, i, k, soffs);
    UpdFromBy(grps, i, BLOCK_SIZE + Start(cs, i), Start(cs, i), soffs, k, Start(cs, k) - Start(cs, i));
  }

  lemma {:induction false} UpdFromBy(grps: seq<Grp>, i: nat, abs: int, rel: int, soffs: bool, k: nat, d: int)
    requires i <= k < |grps| && DatTo(grps, k) - DatTo(grps, i) == d
    ensures |UpdFrom(grps, i, abs, rel, soffs)| == |grps|
    ensures UpdFrom(grps, i, abs, rel, soffs)[k] == Moved(grps[k], abs + d, rel + d, k, soffs)
  {
    UpdFromAt(grps, i, abs, rel, soffs, k);
  }

  lemma {:induction false} GrpBytesNext(grps: seq<Grp>, n: nat, g: Grp)
    requires n < |grps| && grps[n] == g
    ensures GrpBytes(grps, n + 1) == GrpBytes(grps, n) + (DataSize(g) + SubBytes(g.subs, |g.subs|))
  {
  }

  lemma {:induction false} BytesAreWidths(grps: seq<Grp>, cs: Contents, n: nat)
    requires n <= |grps| == |cs| && forall k {:trigger grps[k]} :: 0 <= k < |cs| ==> Own(grps[k]) == Width(cs[k])
    ensures GrpBytes(grps, n) == Start(cs, n)
  {
    if n > 0 {
      BytesAreWidths(grps, cs, n - 1);
      assert Own(grps[n - 1]) == Width(cs[n - 1]);
    }
  }

  lemma {:induction false} GrpBytesIsStart(cs: Contents, n: nat)
    requires n <= |cs|
    ensures GrpBytes(RenderGrps(cs), n) == Start(cs, n)
  {
    var grps := RenderGrps(cs);
    forall k {:trigger grps[k]} | 0 <= k < |cs| ensures Own(grps[k]) == Width(cs[k]) {
      assert grps[k] == RenderAt(cs, k);
      WidthParts(cs[k], Start(cs, k), k);
    }
    BytesAreWidths(grps, cs, n);
  }

  lemma {:induction false} WidthParts(c: GrpC, at: nat, i: nat)
    ensures var g := RenderGrp(c, at, i);
            DataSize(g) + SubBytes(g.subs, |g.subs|) == Width(c)
  {
    var g := RenderGrp(c, at, i);
    SubBytesIsStart(g.subs, c, |g.subs|);
  }

  lemma {:induction false} CalcRenders(cs: Contents)
    ensures Calc(RenderGrps(cs)) == Render(cs)
  {
    GrpBytesIsStart(cs, |cs|);
  }
}
