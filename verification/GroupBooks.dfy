/** What holds after every run of guarded edits, also those the layout does not survive: insertion below
    a lone header, and parts added to a block without a header part.  The books are the sizes, counters
    and offsets such a run leaves; they tell exactly when the layout holds and when space is overdrawn. */
module GroupBooks {
  import opened Bytes
  import opened GroupTree
  import opened GroupContent
  import opened GroupEdits
  import opened GroupRuns
  import opened GroupShift

  // ---------------------------------------------------------------- the books

  /** The sizes and counters of a block.  A block without a header part that was edited has the size of
      its parts; until then it has none with bytes. */
  predicate Sizes(g: Grp) {
    && |g.inst| == 32 && g.used == SubBytes(g.subs, |g.subs|) && g.used + g.free == Cap(g.tid) && g.free >= 0
    && if g.tid == DTD then g.hdrSz == 0 && g.datSz == 18 && g.subs == []
       else DbcType(g.tid) && if g.hdrSz > 0 then g.hdrSz == 32 - Cap(g.tid) && g.datSz == g.hdrSz + g.used
                              else 0 <= g.datSz <= 32 && (g.used == 0 || g.datSz == g.used)
  }

  /** The offsets and indices of sub-groups behind a header part. */
  predicate RelsOk(subs: seq<Sub>, hdrSz: nat) {
    forall k {:trigger subs[k]} :: 0 <= k < |subs| ==> subs[k].rel == hdrSz + SubBytes(subs, k) && subs[k].idx == k
  }

  predicate SubsOk(g: Grp) { RelsOk(g.subs, g.hdrSz) }

  predicate BlockOk(g: Grp) { Sizes(g) && SubsOk(g) }

  predicate HeadOk(g: Grp) {
    g.tid == CHD && g.hdrSz == 4 && g.datSz == 5 && |g.inst| == 32 && g.subs == [] && g.used == 0 && g.free == Cap(CHD)
  }

  /** Offsets and index of group i.  The header counts one byte more than it contributes, so behind it
      offsets are one less than the sum of sizes, or equal to it once they were computed from the header on. */
  predicate PosAt(grps: seq<Grp>, sh: nat, i: nat)
    requires i < |grps|
  {
    && grps[i].idx == i
    && if i == 0 then grps[0].abs == BLOCK_SIZE && grps[0].rel == 0
       else var at := CEA_SPACE + sh + DatTo(grps, i);
            grps[i].abs == at && (at < 2 * BLOCK_SIZE ==> grps[i].rel == at - BLOCK_SIZE)
  }

  predicate AllOk(grps: seq<Grp>) {
    |grps| >= 1 && HeadOk(grps[0]) && forall i {:trigger grps[i]} :: 1 <= i < |grps| ==> BlockOk(grps[i])
  }

  predicate AllAt(grps: seq<Grp>, sh: nat) {
    forall i {:trigger PosAt(grps, sh, i)} :: 0 <= i < |grps| ==> PosAt(grps, sh, i)
  }

  /** sh is 1 once the header stood alone before an edit. */
  predicate Books(t: Tree, sh: nat) {
    && sh <= 1 && AllOk(t.grps) && AllAt(t.grps, sh) && DatTo(t.grps, |t.grps|) <= BLOCK_SIZE
    && t.used == GrpBytes(t.grps, |t.grps|) && t.used + t.free == CEA_SPACE
  }

  // ---------------------------------------------------------------- sums

  function Sum(xs: seq<int>, n: nat): int
    requires n <= |xs|
  {
    if n == 0 then 0 else Sum(xs, n - 1) + xs[n - 1]
  }

  lemma {:induction false} SumSame(a: seq<int>, b: seq<int>, n: nat)
    requires n <= |a| && n <= |b| && a[..n] == b[..n]
    ensures Sum(a, n) == Sum(b, n)
  {
    if n > 0 {
      assert a[..n][n - 1] == a[n - 1] && b[..n][n - 1] == b[n - 1];
      assert a[..n - 1] == a[..n][..n - 1] && b[..n - 1] == b[..n][..n - 1];
      SumSame(a, b, n - 1);
    }
  }

  lemma {:induction false} SumInsert(xs: seq<int>, i: nat, x: int, n: nat)
    requires i <= |xs| && n <= |xs| + 1
    ensures Sum(InsertAt(xs, i, x), n) == if n <= i then Sum(xs, n) else Sum(xs, n - 1) + x
  {
    if n > 0 { SumInsert(xs, i, x, n - 1); }
  }

  lemma {:induction false} SumRemove(xs: seq<int>, i: nat, n: nat)
    requires i < |xs| && n <= |xs| - 1
    ensures Sum(RemoveAt(xs, i), n) == if n <= i then Sum(xs, n) else Sum(xs, n + 1) - xs[i]
  {
    if n > 0 { SumRemove(xs, i, n - 1); }
  }

  lemma {:induction false} SumUpdate(xs: seq<int>, i: nat, x: int, n: nat)
    requires i < |xs| && n <= |xs|
    ensures Sum(xs[i := x], n) == if n <= i then Sum(xs, n) else Sum(xs, n) - xs[i] + x
  {
    if n > 0 { SumUpdate(xs, i, x, n - 1); }
  }

  lemma {:induction false} SumSwap(xs: seq<int>, i: nat, n: nat)
    requires i + 1 < |xs| && n <= |xs| && n != i + 1
    ensures Sum(SwapAt(xs, i), n) == Sum(xs, n)
  {
    SumUpdate(xs, i, xs[i + 1], n);
    SumUpdate(xs[i := xs[i + 1]], i + 1, xs[i], n);
  }

  function Dats(grps: seq<Grp>): (r: seq<int>)
    ensures |r| == |grps| && forall i {:trigger r[i]} :: 0 <= i < |r| ==> r[i] == grps[i].datSz
  {
    seq(|grps|, i requires 0 <= i < |grps| => grps[i].datSz)
  }

  function Owns(grps: seq<Grp>): (r: seq<int>)
    ensures |r| == |grps| && forall i {:trigger r[i]} :: 0 <= i < |r| ==> r[i] == Own(grps[i])
  {
    seq(|grps|, i requires 0 <= i < |grps| => Own(grps[i]))
  }

  lemma {:induction false} DatToIsSum(grps: seq<Grp>, n: nat)
    requires n <= |grps|
    ensures DatTo(grps, n) == Sum(Dats(grps), n)
  {
    if n > 0 { DatToIsSum(grps, n - 1); }
  }

  lemma {:induction false} BytesAreSum(grps: seq<Grp>, n: nat)
    requires n <= |grps|
    ensures GrpBytes(grps, n) == Sum(Owns(grps), n)
  {
    if n > 0 { BytesAreSum(grps, n - 1); }
  }

  /** What a group counts is at least its cached size. */
  lemma {:induction false} OwnCovers(g: Grp)
    requires Sizes(g)
    ensures Own(g) >= g.datSz >= 0
    ensures g.hdrSz > 0 || g.used == 0 ==> Own(g) == g.datSz
    ensures g.hdrSz == 0 && g.used > 0 ==> Own(g) == 2 * g.used
  {
  }

  lemma {:induction false} OwnsCover(grps: seq<Grp>, n: nat)
    requires AllOk(grps) && 1 <= n <= |grps|
    ensures GrpBytes(grps, n) >= DatTo(grps, n) - 1
  {
    if n == 1 {
      assert DatTo(grps, 1) == DatTo(grps, 0) + grps[0].datSz;
      assert GrpBytes(grps, 1) == GrpBytes(grps, 0) + DataSize(grps[0]) + SubBytes(grps[0].subs, 0);
    } else {
      OwnsCover(grps, n - 1);
      OwnCovers(grps[n - 1]);
    }
  }

  /** No size is negative. */
  predicate NoneNegative(grps: seq<Grp>, n: nat) {
    forall k {:trigger grps[k]} :: 0 <= k < |grps| && k < n ==> grps[k].datSz >= 0
  }

  lemma {:induction false} DatMono(grps: seq<Grp>, i: nat, n: nat)
    requires NoneNegative(grps, n) && i <= n <= |grps|
    ensures DatTo(grps, i) <= DatTo(grps, n)
  {
    if i < n { DatMono(grps, i, n - 1); }
  }

  lemma {:induction false} OkDat(g: Grp)
    requires BlockOk(g)
    ensures g.datSz >= 0
  {
    OwnCovers(g);
  }

  lemma {:induction false} OkSizes(grps: seq<Grp>)
    requires AllOk(grps)
    ensures NoneNegative(grps, |grps|)
  {
    forall k {:trigger grps[k]} | 0 <= k < |grps| ensures grps[k].datSz >= 0 {
      if k > 0 { OkDat(grps[k]); }
    }
  }

  // ---------------------------------------------------------------- updating offsets

  /** A group UpdateAbsOffs may meet. */
  predicate Entry(g: Grp, soffs: bool) {
    Sizes(g) && if soffs then g.subs != [] ==> g.subs[0].rel == g.hdrSz else SubsOk(g)
  }

  /** The same group but for offsets and indices. */
  predicate SameBut(h: Grp, g: Grp) {
    && h.tid == g.tid && h.inst == g.inst && h.hdrSz == g.hdrSz && h.datSz == g.datSz && h.used == g.used
    && h.free == g.free && SubTwins(h.subs, g.subs)
  }

  lemma {:induction false} SameSizes(h: Grp, g: Grp)
    requires SameBut(h, g)
    ensures Own(h) == Own(g) && (Sizes(h) <==> Sizes(g))
  {
    TwinBytes(h.subs, g.subs, |g.subs|);
  }

  /** The group after an update that put it at abs. */
  predicate MovedTo(h: Grp, g: Grp, abs: int, rel: int, i: nat) {
    SameBut(h, g) && BlockOk(h) && h.abs == abs && h.rel == rel && h.idx == i
  }

  lemma {:induction false} MovedOk(g: Grp, abs: int, rel: int, i: nat, soffs: bool)
    requires Entry(g, soffs)
    ensures MovedTo(Moved(g, abs, rel, i, soffs), g, abs, rel, i)
  {
    var h := Moved(g, abs, rel, i, soffs);
    forall k {:trigger h.subs[k]} | 0 <= k < |g.subs|
      ensures |h.subs| == |g.subs| && h.subs[k].tid == g.subs[k].tid && h.subs[k].bytes == g.subs[k].bytes
      ensures h.subs[k].rel == g.hdrSz + SubBytes(g.subs, k) && h.subs[k].idx == k
    {
      if soffs { UpdRelAt(g.subs, 0, abs + g.subs[0].rel, g.subs[0].rel, k); }
    }
    SameSizes(h, g);
    forall k {:trigger h.subs[k]} | 0 <= k < |h.subs| ensures SubBytes(h.subs, k) == SubBytes(g.subs, k) {
      TwinBytes(h.subs, g.subs, k);
    }
  }

  /** Right before i, and entries from i on. */
  predicate Pending(gs: seq<Grp>, i: nat, sh: nat, soffs: bool) {
    && sh <= 1 && 1 <= i <= |gs| && HeadOk(gs[0]) && DatTo(gs, |gs|) <= BLOCK_SIZE
    && (forall k {:trigger gs[k]} :: 1 <= k < |gs| ==> if k < i then BlockOk(gs[k]) else Entry(gs[k], soffs))
    && forall k {:trigger PosAt(gs, sh, k)} :: 0 <= k < i ==> PosAt(gs, sh, k)
  }

  /** The update of all groups from i on. */
  function Updated(gs: seq<Grp>, i: nat, abs: int, soffs: bool): seq<Grp> {
    if i < |gs| then UpdAbs(gs, i, abs, soffs) else gs
  }

  lemma {:induction false} UpdatedAt(gs: seq<Grp>, i: nat, abs: int, rel: int, soffs: bool, k: nat, d: int)
    requires 1 <= i <= k < |gs| && Entry(gs[k], soffs) && d == DatTo(gs, k) - DatTo(gs, i)
    ensures |UpdFrom(gs, i, abs, rel, soffs)| == |gs|
    ensures MovedTo(UpdFrom(gs, i, abs, rel, soffs)[k], gs[k], abs + d, rel + d, k)
  {
    UpdFromBy(gs, i, abs, rel, soffs, k, d);
    MovedTwin(UpdFrom(gs, i, abs, rel, soffs)[k], gs[k], abs + d, rel + d, k, soffs);
  }

  lemma {:induction false} MovedTwin(h: Grp, g: Grp, abs: int, rel: int, i: nat, soffs: bool)
    requires Entry(g, soffs) && h == Moved(g, abs, rel, i, soffs)
    ensures MovedTo(h, g, abs, rel, i)
  {
    MovedOk(g, abs, rel, i, soffs);
  }

  lemma {:induction false} UpdatedBefore(gs: seq<Grp>, i: nat, abs: int, soffs: bool, k: nat)
    requires k < i <= |gs| && k < |gs|
    ensures |Updated(gs, i, abs, soffs)| == |gs| && Updated(gs, i, abs, soffs)[k] == gs[k]
  {
    if i < |gs| { UpdFromAt(gs, i, abs, abs % BLOCK_SIZE, soffs, k); }
  }

  lemma {:induction false} PendingStart(gs: seq<Grp>, i: nat)
    requires 1 <= i <= |gs| && HeadOk(gs[0]) && NoneNegative(gs, i)
    ensures DatTo(gs, i) >= 5
  {
    DatMono(gs, 1, i);
    assert DatTo(gs, 1) == DatTo(gs, 0) + gs[0].datSz;
  }

  predicate SameAll(hs: seq<Grp>, gs: seq<Grp>) {
    |hs| == |gs| && forall k {:trigger hs[k]} :: 0 <= k < |hs| ==> SameBut(hs[k], gs[k])
  }

  lemma {:induction false} SameSums(hs: seq<Grp>, gs: seq<Grp>, n: nat)
    requires SameAll(hs, gs) && n <= |hs|
    ensures DatTo(hs, n) == DatTo(gs, n) && GrpBytes(hs, n) == GrpBytes(gs, n)
  {
    if n > 0 {
      SameSums(hs, gs, n - 1);
      var h, g := hs[n - 1], gs[n - 1];
      assert SameBut(h, g);
      SameSizes(h, g);
    }
  }

  lemma {:induction false} SelfSame(g: Grp)
    ensures SameBut(g, g)
  {
  }

  /** Offset abs of group i is the sum of sizes before it. */
  predicate StartsAt(gs: seq<Grp>, i: nat, sh: nat, abs: int)
    requires i <= |gs|
  {
    i < |gs| ==> abs == CEA_SPACE + sh + DatTo(gs, i)
  }

  lemma {:induction false} UpdatedSame(gs: seq<Grp>, i: nat, sh: nat, abs: int, soffs: bool)
    requires Pending(gs, i, sh, soffs)
    ensures SameAll(Updated(gs, i, abs, soffs), gs)
  {
    var r := Updated(gs, i, abs, soffs);
    assert |r| == |gs|;
    forall k {:trigger r[k]} | 0 <= k < |r| ensures SameBut(r[k], gs[k]) {
      SelfSame(gs[k]);
      if k < i { UpdatedBefore(gs, i, abs, soffs, k); }
      else { UpdatedAt(gs, i, abs, abs % BLOCK_SIZE, soffs, k, DatTo(gs, k) - DatTo(gs, i)); }
    }
  }

  lemma {:induction false} UpdatedOk(gs: seq<Grp>, i: nat, sh: nat, abs: int, soffs: bool)
    requires Pending(gs, i, sh, soffs)
    ensures AllOk(Updated(gs, i, abs, soffs))
  {
    var r := Updated(gs, i, abs, soffs);
    UpdatedBefore(gs, i, abs, soffs, 0);
    forall k {:trigger r[k]} | 1 <= k < |r| ensures BlockOk(r[k]) {
      if k < i { UpdatedBefore(gs, i, abs, soffs, k); }
      else { UpdatedAt(gs, i, abs, abs % BLOCK_SIZE, soffs, k, DatTo(gs, k) - DatTo(gs, i)); }
    }
  }

  lemma {:induction false} UpdatedPosLater(gs: seq<Grp>, i: nat, sh: nat, abs: int, rel: int, soffs: bool,
      r: seq<Grp>, k: nat)
    requires 1 <= i <= k < |gs| && Entry(gs[k], soffs) && abs == CEA_SPACE + sh + DatTo(gs, i)
    requires r == UpdFrom(gs, i, abs, rel, soffs) && |r| == |gs| && (abs < 2 * BLOCK_SIZE ==> rel == abs - BLOCK_SIZE)
    requires DatTo(r, k) == DatTo(gs, k) >= DatTo(gs, i)
    ensures PosAt(r, sh, k)
  {
    var d := DatTo(gs, k) - DatTo(gs, i);
    UpdatedAt(gs, i, abs, rel, soffs, k, d);
    LandedAt(r, gs[k], sh, k, abs, rel, d);
  }

  lemma {:induction false} RelInBlock(abs: int)
    requires abs >= BLOCK_SIZE
    ensures abs < 2 * BLOCK_SIZE ==> abs % BLOCK_SIZE == abs - BLOCK_SIZE
  {
    if abs < 2 * BLOCK_SIZE { InBlock(abs - BLOCK_SIZE); }
  }

  lemma {:induction false} LandedAt(r: seq<Grp>, g: Grp, sh: nat, k: nat, abs: int, rel: int, d: nat)
    requires 1 <= k < |r| && MovedTo(r[k], g, abs + d, rel + d, k) && abs + d == CEA_SPACE + sh + DatTo(r, k)
    requires abs < 2 * BLOCK_SIZE ==> rel == abs - BLOCK_SIZE
    ensures PosAt(r, sh, k)
  {
  }

  lemma {:induction false} UpdatedPosBefore(gs: seq<Grp>, i: nat, sh: nat, abs: int, soffs: bool, k: nat)
    requires Pending(gs, i, sh, soffs) && k < i && k < |gs|
    requires |Updated(gs, i, abs, soffs)| == |gs| && DatTo(Updated(gs, i, abs, soffs), k) == DatTo(gs, k)
    ensures PosAt(Updated(gs, i, abs, soffs), sh, k)
  {
    UpdatedBefore(gs, i, abs, soffs, k);
    assert PosAt(gs, sh, k);
  }

  /** After the update of the offsets from group i on, the books are right again. */
  lemma {:induction false} UpdatedBooks(gs: seq<Grp>, i: nat, sh: nat, abs: int, soffs: bool)
    requires Pending(gs, i, sh, soffs) && StartsAt(gs, i, sh, abs)
    ensures Books(Calc(Updated(gs, i, abs, soffs)), sh)
    ensures Calc(Updated(gs, i, abs, soffs)).used == GrpBytes(gs, |gs|)
    ensures SameAll(Updated(gs, i, abs, soffs), gs)
  {
    var r := Updated(gs, i, abs, soffs);
    UpdatedSame(gs, i, sh, abs, soffs);
    UpdatedOk(gs, i, sh, abs, soffs);
    OkSizes(r);
    SameSums(r, gs, i);
    SameSums(r, gs, |gs|);
    PendingStart(r, i);
    forall k {:trigger PosAt(r, sh, k)} | 0 <= k < |r| ensures PosAt(r, sh, k) {
      SameSums(r, gs, k);
      if k < i { UpdatedPosBefore(gs, i, sh, abs, soffs, k); }
      else {
        DatMono(r, i, k);
        RelInBlock(abs);
        UpdatedPosLater(gs, i, sh, abs, abs % BLOCK_SIZE, soffs, r, k);
      }
    }
  }

  // ---------------------------------------------------------------- totals of edited arrays

  /** Cached sizes and counted bytes of all groups. */
  function Totals(grps: seq<Grp>): (int, int) { (DatTo(grps, |grps|), GrpBytes(grps, |grps|)) }

  lemma {:induction false} TotalsAreSums(grps: seq<Grp>)
    ensures Totals(grps) == (Sum(Dats(grps), |grps|), Sum(Owns(grps), |grps|))
  {
    DatToIsSum(grps, |grps|);
    BytesAreSum(grps, |grps|);
  }

  lemma {:induction false} TotalsInsert(grps: seq<Grp>, i: nat, g: Grp)
    requires i <= |grps|
    ensures Totals(InsertAt(grps, i, g)) == (Totals(grps).0 + g.datSz, Totals(grps).1 + Own(g))
  {
    var gs := InsertAt(grps, i, g);
    TotalsAreSums(grps);
    TotalsAreSums(gs);
    assert Dats(gs) == InsertAt(Dats(grps), i, g.datSz) && Owns(gs) == InsertAt(Owns(grps), i, Own(g));
    SumInsert(Dats(grps), i, g.datSz, |gs|);
    SumInsert(Owns(grps), i, Own(g), |gs|);
  }

  lemma {:induction false} TotalsRemove(grps: seq<Grp>, i: nat)
    requires i < |grps|
    ensures Totals(RemoveAt(grps, i)) == (Totals(grps).0 - grps[i].datSz, Totals(grps).1 - Own(grps[i]))
  {
    var gs := RemoveAt(grps, i);
    TotalsAreSums(grps);
    TotalsAreSums(gs);
    assert Dats(gs) == RemoveAt(Dats(grps), i) && Owns(gs) == RemoveAt(Owns(grps), i);
    SumRemove(Dats(grps), i, |gs|);
    SumRemove(Owns(grps), i, |gs|);
  }

  lemma {:induction false} TotalsUpdate(grps: seq<Grp>, i: nat, g: Grp)
    requires i < |grps|
    ensures Totals(grps[i := g])
         == (Totals(grps).0 - grps[i].datSz + g.datSz, Totals(grps).1 - Own(grps[i]) + Own(g))
  {
    var gs := grps[i := g];
    TotalsAreSums(grps);
    TotalsAreSums(gs);
    assert Dats(gs) == Dats(grps)[i := g.datSz] && Owns(gs) == Owns(grps)[i := Own(g)];
    SumUpdate(Dats(grps), i, g.datSz, |gs|);
    SumUpdate(Owns(grps), i, Own(g), |gs|);
  }

  lemma {:induction false} TotalsSwap(grps: seq<Grp>, i: nat)
    requires i + 1 < |grps|
    ensures Totals(SwapAt(grps, i)) == Totals(grps)
  {
    var gs := SwapAt(grps, i);
    TotalsAreSums(grps);
    TotalsAreSums(gs);
    assert Dats(gs) == SwapAt(Dats(grps), i) && Owns(gs) == SwapAt(Owns(grps), i);
    SumSwap(Dats(grps), i, |gs|);
    SumSwap(Owns(grps), i, |gs|);
  }

  lemma {:induction false} DatPrefix(a: seq<Grp>, b: seq<Grp>, i: nat, n: nat)
    requires n <= i <= |a| && i <= |b| && a[..i] == b[..i]
    ensures DatTo(a, n) == DatTo(b, n)
  {
    if n > 0 {
      DatPrefix(a, b, i, n - 1);
      assert a[..i][n - 1] == a[n - 1] && b[..i][n - 1] == b[n - 1];
    }
  }

  // ---------------------------------------------------------------- edits of blocks

  lemma {:induction false} OkEntry(g: Grp)
    requires BlockOk(g)
    ensures Entry(g, true) && Entry(g, false)
  {
    if g.subs != [] { assert g.subs[0].rel == g.hdrSz + SubBytes(g.subs, 0); }
  }

  lemma {:induction false} SourceEntry(g: Grp)
    requires Source(g)
    ensures Entry(g, true) && Own(g) == g.datSz
  {
    SubBytesIsStart(g.subs, Strip(g), |g.subs|);
  }

  /** Nothing but entries from i on. */
  predicate Entries(gs: seq<Grp>, i: nat, soffs: bool) {
    forall k {:trigger gs[k]} :: i <= k < |gs| ==> Entry(gs[k], soffs)
  }

  lemma {:induction false} PrefixPos(t: Tree, sh: nat, gs: seq<Grp>, i: nat, k: nat)
    requires Books(t, sh) && k < i <= |t.grps| && i <= |gs| && gs[..i] == t.grps[..i]
    ensures PosAt(gs, sh, k) && gs[k] == t.grps[k]
  {
    DatPrefix(gs, t.grps, i, k);
    assert gs[..i][k] == gs[k] && t.grps[..i][k] == t.grps[k];
    assert PosAt(t.grps, sh, k);
    if k > 0 { DatPrefix(gs, t.grps, i, 0); assert gs[..i][0] == gs[0]; }
  }

  /** An edit from group i on leaves an array that waits for the update. */
  lemma {:induction false} EditPending(t: Tree, sh: nat, gs: seq<Grp>, i: nat, soffs: bool)
    requires Books(t, sh) && 1 <= i <= |t.grps| && i <= |gs| && gs[..i] == t.grps[..i]
    requires Entries(gs, i, soffs) && DatTo(gs, |gs|) <= BLOCK_SIZE
    ensures Pending(gs, i, sh, soffs) && DatTo(gs, i) == DatTo(t.grps, i)
  {
    DatPrefix(gs, t.grps, i, i);
    forall k {:trigger PosAt(gs, sh, k)} | 0 <= k < i ensures PosAt(gs, sh, k) { PrefixPos(t, sh, gs, i, k); }
    PrefixPos(t, sh, gs, i, 0);
    forall k {:trigger gs[k]} | 1 <= k < |gs| ensures if k < i then BlockOk(gs[k]) else Entry(gs[k], soffs) {
      if k < i { PrefixPos(t, sh, gs, i, k); }
    }
  }

  /** The result of an edit that updates from group i on. */
  predicate Booked(u: Tree, gs: seq<Grp>, sh: nat) {
    Books(u, sh) && SameAll(u.grps, gs) && u.used == Totals(gs).1
  }

  lemma {:induction false} EditBooks(t: Tree, sh: nat, gs: seq<Grp>, i: nat, abs: int, soffs: bool)
    requires Books(t, sh) && 1 <= i <= |t.grps| && i <= |gs| && gs[..i] == t.grps[..i]
    requires Entries(gs, i, soffs) && DatTo(gs, |gs|) <= BLOCK_SIZE
    requires i < |gs| ==> i < |t.grps| && abs == t.grps[i].abs
    ensures Booked(Calc(Updated(gs, i, abs, soffs)), gs, sh)
  {
    EditPending(t, sh, gs, i, soffs);
    if i < |gs| { assert PosAt(t.grps, sh, i); }
    UpdatedBooks(gs, i, sh, abs, soffs);
  }

  lemma {:induction false} GrpEntry(t: Tree, sh: nat, j: nat)
    requires Books(t, sh) && 1 <= j < |t.grps|
    ensures Entry(t.grps[j], true) && Entry(t.grps[j], false) && Own(t.grps[j]) >= t.grps[j].datSz >= 0
  {
    OkEntry(t.grps[j]);
    OwnCovers(t.grps[j]);
  }

  /** Room left is room also by cached sizes. */
  lemma {:induction false} RoomLeft(t: Tree, sh: nat, n: int)
    requires Books(t, sh) && n <= t.free
    ensures DatTo(t.grps, |t.grps|) + n <= BLOCK_SIZE
  {
    OwnsCover(t.grps, |t.grps|);
  }

  lemma {:induction false} CutBooks(t: Tree, sh: nat, i: nat)
    requires Books(t, sh) && 1 <= i < |t.grps|
    ensures Booked(Cut(t, i), RemoveAt(t.grps, i), sh) && Cut(t, i).free == t.free + Own(t.grps[i])
  {
    var gs := RemoveAt(t.grps, i);
    TotalsRemove(t.grps, i);
    GrpEntry(t, sh, i);
    forall k {:trigger gs[k]} | i <= k < |gs| ensures Entry(gs[k], true) { GrpEntry(t, sh, k + 1); }
    EditBooks(t, sh, gs, i, t.grps[i].abs, true);
  }

  lemma {:induction false} InsertUpBooks(t: Tree, sh: nat, i: nat, g: Grp)
    requires Books(t, sh) && 1 <= i < |t.grps| && Source(g) && g.datSz <= t.free
    ensures Booked(InsertUp(t, i, g), InsertAt(t.grps, i, g), sh) && InsertUp(t, i, g).free == t.free - g.datSz
  {
    var gs := InsertAt(t.grps, i, g);
    TotalsInsert(t.grps, i, g);
    SourceEntry(g);
    RoomLeft(t, sh, g.datSz);
    forall k {:trigger gs[k]} | i <= k < |gs| ensures Entry(gs[k], true) { if k > i { GrpEntry(t, sh, k - 1); } }
    EditBooks(t, sh, gs, i, t.grps[i].abs, true);
  }

  lemma {:induction false} PasteBooks(t: Tree, sh: nat, i: nat, g: Grp)
    requires Books(t, sh) && 1 <= i < |t.grps| && Source(g)
    requires g.datSz > t.grps[i].datSz ==> g.datSz - t.grps[i].datSz <= t.free
    ensures Booked(Paste(t, i, g), t.grps[i := g], sh) && Paste(t, i, g).free == t.free + Own(t.grps[i]) - g.datSz
  {
    var gs := t.grps[i := g];
    TotalsUpdate(t.grps, i, g);
    SourceEntry(g);
    if g.datSz > t.grps[i].datSz { RoomLeft(t, sh, g.datSz - t.grps[i].datSz); }
    forall k {:trigger gs[k]} | i <= k < |gs| ensures Entry(gs[k], true) { if k > i { GrpEntry(t, sh, k); } }
    EditBooks(t, sh, gs, i, t.grps[i].abs, true);
  }

  lemma {:induction false} MoveDnBooks(t: Tree, sh: nat, i: nat)
    requires Books(t, sh) && 1 <= i && i + 1 < |t.grps|
    ensures Booked(MoveDn(t, i), SwapAt(t.grps, i), sh) && MoveDn(t, i).free == t.free
  {
    var gs := SwapAt(t.grps, i);
    TotalsSwap(t.grps, i);
    forall k {:trigger gs[k]} | i <= k < |gs| ensures Entry(gs[k], true) {
      GrpEntry(t, sh, if k == i then i + 1 else if k == i + 1 then i else k);
    }
    EditBooks(t, sh, gs, i, t.grps[i].abs, true);
    assert MoveDn(t, i) == Calc(Updated(gs, i, t.grps[i].abs, true));
  }

  lemma {:induction false} SameTrans(a: seq<Grp>, b: seq<Grp>, c: seq<Grp>)
    requires SameAll(a, b) && SameAll(b, c)
    ensures SameAll(a, c)
  {
    forall k {:trigger a[k]} | 0 <= k < |a| ensures SameBut(a[k], c[k]) { assert SameBut(b[k], c[k]); }
  }

  /** Behind the last block: insertion above it, then a move. */
  lemma {:induction false} InsertLastBooks(t: Tree, sh: nat, g: Grp)
    requires Books(t, sh) && |t.grps| > 1 && Source(g) && g.datSz <= t.free
    ensures var u := InsertDn(t, |t.grps| - 1, g);
            Books(u, sh) && SameAll(u.grps, t.grps + [g]) && u.free == t.free - g.datSz
  {
    var i := |t.grps| - 1;
    var v := InsertUp(t, i, g);
    InsertUpBooks(t, sh, i, g);
    MoveDnBooks(v, sh, i);
    var (a, b) := (SwapAt(v.grps, i), t.grps + [g]);
    forall k {:trigger a[k]} | 0 <= k < |a| ensures SameBut(a[k], b[k]) {
      var j := if k == i then i + 1 else if k == i + 1 then i else k;
      assert SameBut(v.grps[j], InsertAt(t.grps, i, g)[j]);
    }
    SameTrans(MoveDn(v, i).grps, a, b);
  }

  lemma {:induction false} InsertDnBooks(t: Tree, sh: nat, i: nat, g: Grp)
    requires Books(t, sh) && |t.grps| > 1 && i < |t.grps| && Source(g) && g.datSz <= t.free
    ensures Books(InsertDn(t, i, g), sh) && InsertDn(t, i, g).free == t.free - g.datSz
    ensures SameAll(InsertDn(t, i, g).grps, InsertAt(t.grps, i + 1, g))
  {
    if i + 1 < |t.grps| { InsertMidBooks(t, sh, i, g); } else { InsertEndBooks(t, sh, g); }
  }

  lemma {:induction false} InsertMidBooks(t: Tree, sh: nat, i: nat, g: Grp)
    requires Books(t, sh) && i + 1 < |t.grps| && Source(g) && g.datSz <= t.free
    ensures Books(InsertDn(t, i, g), sh) && InsertDn(t, i, g).free == t.free - g.datSz
    ensures SameAll(InsertDn(t, i, g).grps, InsertAt(t.grps, i + 1, g))
  {
    InsertUpBooks(t, sh, i + 1, g);
    assert InsertDn(t, i, g) == InsertUp(t, i + 1, g);
  }

  lemma {:induction false} InsertEndBooks(t: Tree, sh: nat, g: Grp)
    requires Books(t, sh) && |t.grps| > 1 && Source(g) && g.datSz <= t.free
    ensures var u := InsertDn(t, |t.grps| - 1, g);
            Books(u, sh) && SameAll(u.grps, InsertAt(t.grps, |t.grps|, g)) && u.free == t.free - g.datSz
  {
    InsertLastBooks(t, sh, g);
    assert InsertAt(t.grps, |t.grps|, g) == t.grps + [g];
  }

  // ---------------------------------------------------------------- edits of sub-groups

  function Lens(subs: seq<Sub>): (r: seq<int>)
    ensures |r| == |subs| && forall k {:trigger r[k]} :: 0 <= k < |r| ==> r[k] == |subs[k].bytes|
  {
    seq(|subs|, k requires 0 <= k < |subs| => |subs[k].bytes|)
  }

  lemma {:induction false} SubBytesAreSum(subs: seq<Sub>, n: nat)
    requires n <= |subs|
    ensures SubBytes(subs, n) == Sum(Lens(subs), n)
  {
    if n > 0 { SubBytesAreSum(subs, n - 1); }
  }

  function AllBytes(subs: seq<Sub>): nat { SubBytes(subs, |subs|) }

  lemma {:induction false} BytesInsert(subs: seq<Sub>, k: nat, s: Sub)
    requires k <= |subs|
    ensures AllBytes(InsertAt(subs, k, s)) == AllBytes(subs) + |s.bytes|
  {
    var ss := InsertAt(subs, k, s);
    SubBytesAreSum(subs, |subs|);
    SubBytesAreSum(ss, |ss|);
    assert Lens(ss) == InsertAt(Lens(subs), k, |s.bytes|);
    SumInsert(Lens(subs), k, |s.bytes|, |ss|);
  }

  lemma {:induction false} BytesRemove(subs: seq<Sub>, k: nat)
    requires k < |subs|
    ensures AllBytes(RemoveAt(subs, k)) == AllBytes(subs) - |subs[k].bytes|
  {
    var ss := RemoveAt(subs, k);
    SubBytesAreSum(subs, |subs|);
    SubBytesAreSum(ss, |ss|);
    assert Lens(ss) == RemoveAt(Lens(subs), k);
    SumRemove(Lens(subs), k, |ss|);
  }

  lemma {:induction false} BytesSwap(subs: seq<Sub>, k: nat)
    requires k + 1 < |subs|
    ensures AllBytes(SwapAt(subs, k)) == AllBytes(subs)
  {
    var ss := SwapAt(subs, k);
    SubBytesAreSum(subs, |subs|);
    SubBytesAreSum(ss, |ss|);
    assert Lens(ss) == SwapAt(Lens(subs), k);
    SumSwap(Lens(subs), k, |ss|);
  }

  lemma {:induction false} BytesPrefix(a: seq<Sub>, b: seq<Sub>, k: nat, n: nat)
    requires n <= k <= |a| && k <= |b| && a[..k] == b[..k]
    ensures SubBytes(a, n) == SubBytes(b, n)
  {
    if n > 0 {
      BytesPrefix(a, b, k, n - 1);
      assert a[..k][n - 1] == a[n - 1] && b[..k][n - 1] == b[n - 1];
    }
  }

  /** What a block counts with n bytes in its sub-groups after an edit of them: without a header part
      its size is those bytes, and they are counted twice. */
  function OwnWith(g: Grp, n: int): int {
    if g.hdrSz > 0 then g.hdrSz + n else 2 * n
  }

  /** Sub-group j of r is that of edited, at its place. */
  predicate RelAt(r: seq<Sub>, edited: seq<Sub>, hdrSz: nat, j: nat)
    requires j < |r| == |edited|
  {
    && r[j].tid == edited[j].tid && r[j].bytes == edited[j].bytes
    && r[j].rel == hdrSz + SubBytes(edited, j) && r[j].idx == j
  }

  lemma {:induction false} RelsFrom(edited: seq<Sub>, k: nat, abs: int, hdrSz: nat, j: nat)
    requires k <= j < |edited|
    ensures RelAt(UpdRel(edited, k, abs, hdrSz + SubBytes(edited, k)), edited, hdrSz, j)
  {
    UpdRelAt(edited, k, abs, hdrSz + SubBytes(edited, k), j);
  }

  lemma {:induction false} RelsBefore(subs: seq<Sub>, hdrSz: nat, edited: seq<Sub>, k: nat, abs: int, rel: int, j: nat)
    requires RelsOk(subs, hdrSz) && j < k <= |subs| && k <= |edited| && edited[..k] == subs[..k]
    ensures RelAt(UpdRel(edited, k, abs, rel), edited, hdrSz, j)
  {
    UpdRelAt(edited, k, abs, rel, j);
    assert edited[..k][j] == edited[j] && subs[..k][j] == subs[j];
    BytesPrefix(edited, subs, k, j);
  }

  lemma {:induction false} RelsGiveOk(r: seq<Sub>, edited: seq<Sub>, hdrSz: nat)
    requires |r| == |edited|
    requires forall j {:trigger RelAt(r, edited, hdrSz, j)} :: 0 <= j < |edited| ==> RelAt(r, edited, hdrSz, j)
    ensures AllBytes(r) == AllBytes(edited) && RelsOk(r, hdrSz)
  {
    forall j {:trigger r[j]} | 0 <= j < |r| ensures r[j].tid == edited[j].tid && r[j].bytes == edited[j].bytes {
      assert RelAt(r, edited, hdrSz, j);
    }
    TwinBytes(r, edited, |r|);
    forall j {:trigger r[j]} | 0 <= j < |r| ensures r[j].rel == hdrSz + SubBytes(r, j) && r[j].idx == j {
      assert RelAt(r, edited, hdrSz, j);
      TwinBytes(r, edited, j);
    }
  }

  /** Sub-groups edited from k on, with updated offsets. */
  lemma {:induction false} SubsUpdated(subs: seq<Sub>, hdrSz: nat, edited: seq<Sub>, k: nat, abs: int, rel: int)
    requires RelsOk(subs, hdrSz) && k <= |subs| && k <= |edited| && edited[..k] == subs[..k]
    requires rel == hdrSz + SubBytes(subs, k)
    ensures var r := UpdRel(edited, k, abs, rel);
            AllBytes(r) == AllBytes(edited) && RelsOk(r, hdrSz)
  {
    var r := UpdRel(edited, k, abs, rel);
    BytesPrefix(edited, subs, k, k);
    forall j {:trigger RelAt(r, edited, hdrSz, j)} | 0 <= j < |r| ensures RelAt(r, edited, hdrSz, j) {
      if j < k { RelsBefore(subs, hdrSz, edited, k, abs, rel, j); } else { RelsFrom(edited, k, abs, hdrSz, j); }
    }
    RelsGiveOk(r, edited, hdrSz);
  }

  lemma {:induction false} SizesWith(g: Grp, subs: seq<Sub>)
    requires Sizes(g) && g.tid != DTD && AllBytes(subs) <= Cap(g.tid)
    ensures var h := WithSubs(g, subs);
            Sizes(h) && Own(h) == OwnWith(g, AllBytes(subs)) && h.datSz == g.hdrSz + AllBytes(subs)
  {
  }

  /** Block h is block g with sub-groups of n bytes. */
  predicate Resized(h: Grp, g: Grp, n: nat) {
    BlockOk(h) && h.tid == g.tid && h.hdrSz == g.hdrSz && Own(h) == OwnWith(g, n) && h.datSz == g.hdrSz + n
  }

  lemma {:induction false} ResizedWith(g: Grp, r: seq<Sub>, n: nat)
    requires Sizes(g) && g.tid != DTD && RelsOk(r, g.hdrSz) && n == AllBytes(r) <= Cap(g.tid)
    ensures Resized(WithSubs(g, r), g, n)
  {
    SizesWith(g, r);
  }

  lemma {:induction false} PropagateBooks(t: Tree, sh: nat, p: nat, g: Grp)
    requires Books(t, sh) && 1 <= p < |t.grps| && BlockOk(g)
    requires DatTo(t.grps, |t.grps|) - t.grps[p].datSz + g.datSz <= BLOCK_SIZE
    ensures var u := Propagate(t, p, g, t.grps[p].abs, false);
            Booked(u, t.grps[p := g], sh) && u.free == t.free + Own(t.grps[p]) - Own(g)
  {
    var gs := t.grps[p := g];
    TotalsUpdate(t.grps, p, g);
    OkEntry(g);
    forall k {:trigger gs[k]} | p <= k < |gs| ensures Entry(gs[k], false) { if k > p { GrpEntry(t, sh, k); } }
    EditBooks(t, sh, gs, p, t.grps[p].abs, false);
  }

  /** A block with sub-groups is one that may be edited. */
  lemma {:induction false} SubBlock(t: Tree, sh: nat, p: nat, k: nat)
    requires Books(t, sh) && SubAt(t, p, k)
    ensures 1 <= p && BlockOk(t.grps[p]) && t.grps[p].tid != DTD && Editable(t, p, k)
    ensures t.grps[p].subs[k].rel == t.grps[p].hdrSz + SubBytes(t.grps[p].subs, k)
    ensures t.grps[p].used == AllBytes(t.grps[p].subs) == Cap(t.grps[p].tid) - t.grps[p].free
    ensures 0 <= t.grps[p].used <= t.grps[p].datSz - t.grps[p].hdrSz || t.grps[p].used == 0
  {
  }

  /** The size of a block never grows by more than the bytes added. */
  lemma {:induction false} Grows(t: Tree, sh: nat, p: nat, k: nat, n: nat)
    requires Books(t, sh) && SubAt(t, p, k)
    requires n <= t.grps[p].used || (n - t.grps[p].used <= t.free)
    ensures DatTo(t.grps, |t.grps|) - t.grps[p].datSz + t.grps[p].hdrSz + n <= BLOCK_SIZE
  {
    SubBlock(t, sh, p, k);
    GrpEntry(t, sh, p);
    var g := t.grps[p];
    assert g.hdrSz + n - g.datSz <= if n <= g.used then 0 else n - g.used;
    if n > g.used { RoomLeft(t, sh, n - g.used); }
  }

  /** The end of a sub-group edit that left the block with n bytes in its sub-groups. */
  lemma {:induction false} ResizeBooks(t: Tree, sh: nat, p: nat, k: nat, h: Grp, n: nat)
    requires Books(t, sh) && SubAt(t, p, k) && Resized(h, t.grps[p], n)
    requires n <= t.grps[p].used || (n - t.grps[p].used <= t.free)
    ensures var u := Propagate(t, p, h, t.grps[p].abs, false);
            Booked(u, t.grps[p := h], sh) && u.free == t.free + Own(t.grps[p]) - OwnWith(t.grps[p], n)
  {
    SubBlock(t, sh, p, k);
    Grows(t, sh, p, k, n);
    PropagateBooks(t, sh, p, h);
  }

  lemma {:induction false} CutSubs(subs: seq<Sub>, hdrSz: nat, k: nat)
    requires RelsOk(subs, hdrSz) && k < |subs|
    ensures var (s, r) := (subs[k], UpdRel(RemoveAt(subs, k), k, subs[k].abs, subs[k].rel));
            AllBytes(r) == AllBytes(subs) - |s.bytes| && RelsOk(r, hdrSz)
  {
    BytesRemove(subs, k);
    assert RemoveAt(subs, k)[..k] == subs[..k];
    SubsUpdated(subs, hdrSz, RemoveAt(subs, k), k, subs[k].abs, subs[k].rel);
  }

  lemma {:induction false} SubCutBooks(t: Tree, sh: nat, p: nat, k: nat)
    requires Books(t, sh) && SubAt(t, p, k)
    ensures Editable(t, p, k) && Books(SubCut(t, p, k), sh) && SameTids(SubCut(t, p, k), t)
    ensures var g := t.grps[p];
            SubCut(t, p, k).free == t.free + Own(g) - OwnWith(g, g.used - |g.subs[k].bytes|)
  {
    SubBlock(t, sh, p, k);
    var (g, s) := (t.grps[p], t.grps[p].subs[k]);
    CutSubs(g.subs, g.hdrSz, k);
    var r, n := UpdRel(RemoveAt(g.subs, k), k, s.abs, s.rel), g.used - |s.bytes|;
    ResizedWith(g, r, n);
    ResizeBooks(t, sh, p, k, WithSubs(g, r), n);
    ReplacedTids(SubCut(t, p, k), t, p, WithSubs(g, r));
  }

  predicate SameTids(u: Tree, t: Tree) {
    |u.grps| == |t.grps| && forall i {:trigger u.grps[i]} :: 0 <= i < |u.grps| ==> u.grps[i].tid == t.grps[i].tid
  }

  lemma {:induction false} ReplacedTids(u: Tree, t: Tree, p: nat, h: Grp)
    requires p < |t.grps| && SameAll(u.grps, t.grps[p := h]) && h.tid == t.grps[p].tid
    ensures SameTids(u, t)
  {
  }

  lemma {:induction false} InsertSubs(subs: seq<Sub>, hdrSz: nat, k: nat, s: Sub)
    requires RelsOk(subs, hdrSz) && k < |subs|
    ensures var r := UpdRel(InsertAt(subs, k, s), k, subs[k].abs, subs[k].rel);
            AllBytes(r) == AllBytes(subs) + |s.bytes| && RelsOk(r, hdrSz)
  {
    BytesInsert(subs, k, s);
    assert InsertAt(subs, k, s)[..k] == subs[..k];
    SubsUpdated(subs, hdrSz, InsertAt(subs, k, s), k, subs[k].abs, subs[k].rel);
  }

  /** The books after a sub-group insertion into block p. */
  predicate SubBooked(u: Tree, t: Tree, sh: nat, p: nat, s: Sub)
    requires p < |t.grps|
  {
    Books(u, sh) && SameTids(u, t) && u.free == t.free + Own(t.grps[p]) - OwnWith(t.grps[p], t.grps[p].used + |s.bytes|)
  }

  lemma {:induction false} SubInsertUpBooks(t: Tree, sh: nat, p: nat, k: nat, s: Sub)
    requires Books(t, sh) && SubAt(t, p, k) && SubFits(t, p, s)
    ensures Editable(t, p, k) && SubBooked(SubInsertUp(t, p, k, s), t, sh, p, s)
  {
    SubBlock(t, sh, p, k);
    var (g, at) := (t.grps[p], t.grps[p].subs[k]);
    InsertSubs(g.subs, g.hdrSz, k, s);
    var r, n := UpdRel(InsertAt(g.subs, k, s), k, at.abs, at.rel), g.used + |s.bytes|;
    ResizedWith(g, r, n);
    ResizeBooks(t, sh, p, k, WithSubs(g, r), n);
    ReplacedTids(SubInsertUp(t, p, k, s), t, p, WithSubs(g, r));
  }

  /** A block replaced by one of the same size at the same place. */
  lemma {:induction false} ReplaceBooks(t: Tree, sh: nat, p: nat, h: Grp)
    requires Books(t, sh) && 1 <= p < |t.grps| && BlockOk(h) && Own(h) == Own(t.grps[p])
    requires h == t.grps[p].(subs := h.subs)
    ensures Books(t.(grps := t.grps[p := h]), sh)
  {
    var gs := t.grps[p := h];
    TotalsUpdate(t.grps, p, h);
    forall k {:trigger PosAt(gs, sh, k)} | 0 <= k < |gs| ensures PosAt(gs, sh, k) {
      assert PosAt(t.grps, sh, k);
      DatToSame(gs, t.grps, k);
    }
  }

  lemma {:induction false} SwapSubs(subs: seq<Sub>, hdrSz: nat, k: nat)
    requires RelsOk(subs, hdrSz) && k + 1 < |subs|
    ensures var r := UpdRel(SwapAt(subs, k), k, subs[k].abs, subs[k].rel);
            AllBytes(r) == AllBytes(subs) && RelsOk(r, hdrSz)
  {
    BytesSwap(subs, k);
    assert SwapAt(subs, k)[..k] == subs[..k];
    SubsUpdated(subs, hdrSz, SwapAt(subs, k), k, subs[k].abs, subs[k].rel);
  }

  lemma {:induction false} ReorderedOk(g: Grp, r: seq<Sub>)
    requires Sizes(g) && g.tid != DTD && RelsOk(r, g.hdrSz) && AllBytes(r) == g.used
    ensures BlockOk(g.(subs := r)) && Own(g.(subs := r)) == Own(g)
  {
  }

  lemma {:induction false} SubMoveDnBooks(t: Tree, sh: nat, p: nat, k: nat)
    requires Books(t, sh) && SubAt(t, p, k + 1)
    ensures var u := SubMoveDn(t, p, k);
            Books(u, sh) && SameTids(u, t) && u.free == t.free
  {
    SubBlock(t, sh, p, k + 1);
    var (g, s) := (t.grps[p], t.grps[p].subs[k]);
    SwapSubs(g.subs, g.hdrSz, k);
    var r := UpdRel(SwapAt(g.subs, k), k, s.abs, s.rel);
    ReorderedOk(g, r);
    ReplaceBooks(t, sh, p, g.(subs := r));
  }

  lemma {:induction false} SubAppendBooks(t: Tree, sh: nat, p: nat, k: nat, s: Sub)
    requires Books(t, sh) && Editable(t, p, k) && SubFits(t, p, s) && k + 1 == |t.grps[p].subs|
    ensures SubBooked(SubInsertDn(t, p, k, s), t, sh, p, s)
  {
    var u := SubInsertUp(t, p, k, s);
    SubInsertUpBooks(t, sh, p, k, s);
    SubInsertUpShape(t, p, k, s);
    SubMoveDnBooks(u, sh, p, k);
    assert SubInsertDn(t, p, k, s) == SubMoveDn(u, p, k);
  }

  lemma {:induction false} SubInsertDnBooks(t: Tree, sh: nat, p: nat, k: nat, s: Sub)
    requires Books(t, sh) && Editable(t, p, k) && SubFits(t, p, s)
    ensures SubBooked(SubInsertDn(t, p, k, s), t, sh, p, s)
  {
    if k + 1 < |t.grps[p].subs| {
      SubInsertUpBooks(t, sh, p, k + 1, s);
    } else {
      SubAppendBooks(t, sh, p, k, s);
    }
  }
}
