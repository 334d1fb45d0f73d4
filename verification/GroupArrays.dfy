/** The group arrays of src/grpar.cpp in place: arrays of group objects whose methods update sizes,
    offsets and indices of the objects they hold.  Every method leaves the tree that GroupTree says. */
module GroupArrays {
  import opened Bytes
  import opened GroupTree

  /** A sub-group. */
  class SubGrp {
    const tid: Tid
    const bytes: seq<Byte>
    var absOffs: int
    var relOffs: int
    var grpIdx: int

    ghost function View(): Sub
      reads this
    {
      Sub(tid, bytes, absOffs, relOffs, grpIdx)
    }

    constructor (tid: Tid, bytes: seq<Byte>)
      ensures View() == Sub(tid, bytes, 0, 0, 0)
    {
      this.tid, this.bytes := tid, bytes;
      absOffs, relOffs, grpIdx := 0, 0, 0;
    }

    method Place(abs: int, rel: int, idx: int)
      modifies this
      ensures View() == old(View()).(abs := abs, rel := rel, idx := idx)
    {
      absOffs, relOffs, grpIdx := abs, rel, idx;
    }
  }

  ghost function SubViews(subs: seq<SubGrp>): (r: seq<Sub>)
    reads subs
    ensures |r| == |subs| && forall i {:trigger r[i]} :: 0 <= i < |r| ==> r[i] == subs[i].View()
  {
    seq(|subs|, i requires 0 <= i < |subs| reads subs => subs[i].View())
  }

  predicate Distinct<T(==)>(s: seq<T>) {
    forall i, j {:trigger s[i], s[j]} :: 0 <= i < j < |s| ==> s[i] != s[j]
  }

  lemma {:induction false} RemoveDistinct(subs: seq<SubGrp>, k: nat)
    requires Distinct(subs) && k < |subs|
    ensures Distinct(RemoveAt(subs, k)) && SubViews(RemoveAt(subs, k)) == RemoveAt(SubViews(subs), k)
    ensures forall s :: s in RemoveAt(subs, k) ==> s in subs
  {
  }

  /** What the edits of its sub-groups make of a block. */
  ghost function CutIn(g: Grp, k: nat): Grp
    requires k < |g.subs| && |g.inst| == 32
  {
    WithSubs(g, UpdRel(RemoveAt(g.subs, k), k, g.subs[k].abs, g.subs[k].rel))
  }

  ghost function InsertIn(g: Grp, k: nat, s: Sub): Grp
    requires k < |g.subs| && |g.inst| == 32
  {
    WithSubs(g, UpdRel(InsertAt(g.subs, k, s), k, g.subs[k].abs, g.subs[k].rel))
  }

  ghost function PasteIn(g: Grp, k: nat, s: Sub): Grp
    requires k < |g.subs| && |g.inst| == 32
  {
    WithSubs(g, g.subs[k := s.(abs := g.subs[k].abs, rel := g.subs[k].rel, idx := k)])
  }

  ghost function MoveIn(g: Grp, k: nat): Grp
    requires k + 1 < |g.subs|
  {
    g.(subs := UpdRel(SwapAt(g.subs, k), k, g.subs[k].abs, g.subs[k].rel))
  }

  /** A top-level group with its sub-group array inside (edi_grp_cl, dbc_grp_cl, DBC_GrpAr_cl). */
  class BlkGrp {
    const tid: Tid
    const hdrSz: nat
    var inst: seq<Byte>
    var datSz: int
    var absOffs: int
    var relOffs: int
    var grpIdx: int
    var subs: seq<SubGrp>
    var usedSz: int
    var freeSz: int

    ghost function View(): Grp
      reads this, subs
    {
      Grp(tid, inst, hdrSz, datSz, absOffs, relOffs, grpIdx, SubViews(subs), usedSz, freeSz)
    }

    constructor (tid: Tid, hdrSz: nat, inst: seq<Byte>, datSz: int, subs: seq<SubGrp>)
      ensures this.subs == subs
      ensures View() == Grp(tid, inst, hdrSz, datSz, 0, 0, 0, SubViews(subs), 0, Cap(tid))
    {
      this.tid, this.hdrSz, this.inst, this.datSz, this.subs := tid, hdrSz, inst, datSz, subs;
      absOffs, relOffs, grpIdx, usedSz, freeSz := 0, 0, 0, 0, Cap(tid);
    }

    method PlaceSub(k: nat, abs: int, rel: int)
      requires Distinct(subs) && k < |subs|
      modifies subs[k]
      ensures SubViews(subs) == old(SubViews(subs))[k := old(subs[k].View()).(abs := abs, rel := rel, idx := k)]
    {
      subs[k].Place(abs, rel, k);
      assert forall j {:trigger subs[j]} :: 0 <= j < |subs| && j != k ==> subs[j] != subs[k];
    }

    /** UpdateRelOffs of the sub-group array. */
    method UpdateRelOffs(i: nat, abs: int, rel: int)
      requires Distinct(subs)
      modifies subs
      ensures SubViews(subs) == UpdRel(old(SubViews(subs)), i, abs, rel)
    {
      var idx, absOffset, relOffset := i, abs, rel;
      ghost var whole := UpdRel(SubViews(subs), i, abs, rel);
      while idx < |subs|
        invariant i <= idx && whole == UpdRel(SubViews(subs), idx, absOffset, relOffset)
      {
        var n := |subs[idx].bytes|;
        PlaceSub(idx, absOffset, relOffset);
        idx, absOffset, relOffset := idx + 1, absOffset + n, relOffset + n;
      }
    }

    /** The turn of UpdateAbsOffs for this group. */
    method Place(abs: int, rel: int, idx: nat, updtSoffs: bool)
      requires Distinct(subs)
      modifies this, subs
      ensures subs == old(subs) && View() == Moved(old(View()), abs, rel, idx, updtSoffs)
    {
      if updtSoffs && |subs| > 0 {
        var subRel := subs[0].relOffs;
        UpdateRelOffs(0, abs + subRel, subRel);
      }
      absOffs, relOffs, grpIdx := abs, rel, idx;
    }

    method SubSize() returns (n: int)
      ensures n == SubBytes(SubViews(subs), |subs|)
    {
      n := 0;
      for k := 0 to |subs|
        invariant n == SubBytes(SubViews(subs), k)
      {
        n := n + |subs[k].bytes|;
      }
    }

    /** CalcDataSZ of the sub-group array. */
    method CalcDataSZ()
      modifies this`usedSz, this`freeSz
      ensures usedSz == SubBytes(SubViews(subs), |subs|) && freeSz == Cap(tid) - usedSz
    {
      usedSz := SubSize();
      freeSz := Cap(tid) - usedSz;
    }

    /** The payload length goes to the 5-bit length field. */
    method SetDataSize(blklen: nat)
      requires |inst| == 32
      modifies this`inst, this`datSz
      ensures inst == old(inst)[0 := TagCode(old(inst)[0]) * 32 + blklen % 32] && datSz == hdrSz + blklen
    {
      inst := inst[0 := TagCode(inst[0]) * 32 + blklen % 32];
      datSz := hdrSz + blklen;
    }

    /** The part of DBC_GrpAr_cl::Cut and Delete that stays inside the block. */
    method RemoveSub(k: nat) returns (s: SubGrp)
      requires Distinct(subs) && k < |subs| && |inst| == 32
      modifies this, subs
      ensures s == old(subs[k]) && subs == RemoveAt(old(subs), k)
      ensures View() == CutIn(old(View()), k)
    {
      s := subs[k];
      ghost var view := View();
      assert view.subs[k] == s.View();
      RemoveDistinct(subs, k);
      subs := subs[..k] + subs[k + 1..];
      assert View() == view.(subs := RemoveAt(view.subs, k));
      Resize(k, s.absOffs, s.relOffs);
    }

    /** New relative offsets from sub-group k on, if there is one, and new sizes. */
    method Resize(k: nat, abs: int, rel: int)
      requires Distinct(subs) && |inst| == 32
      modifies this`usedSz, this`freeSz, this`inst, this`datSz, subs
      ensures View() == WithSubs(old(View()), UpdRel(old(SubViews(subs)), k, abs, rel))
    {
      if k < |subs| { UpdateRelOffs(k, abs, rel); }
      CalcDataSZ();
      SetDataSize(usedSz);
    }

    /** The part of DBC_GrpAr_cl::InsertUp that stays inside the block. */
    method InsertSub(k: nat, s: SubGrp)
      requires Distinct(subs) && k < |subs| && |inst| == 32 && s !in subs
      modifies this, subs, s
      ensures subs == InsertAt(old(subs), k, s)
      ensures View() == InsertIn(old(View()), k, old(s.View()))
    {
      var absOffset, relOffset := subs[k].absOffs, subs[k].relOffs;
      ghost var views, view := SubViews(subs), s.View();
      subs := subs[..k] + [s] + subs[k..];
      assert SubViews(subs) == InsertAt(views, k, view);
      Resize(k, absOffset, relOffset);
    }

    /** The part of DBC_GrpAr_cl::Paste that stays inside the block. */
    method ReplaceSub(k: nat, s: SubGrp)
      requires Distinct(subs) && k < |subs| && |inst| == 32 && s !in subs
      modifies this, s
      ensures subs == old(subs)[k := s]
      ensures View() == PasteIn(old(View()), k, old(s.View()))
    {
      ghost var views := SubViews(subs);
      s.Place(subs[k].absOffs, subs[k].relOffs, k);
      subs := subs[k := s];
      assert SubViews(subs) == views[k := s.View()];
      CalcDataSZ();
      SetDataSize(usedSz);
    }

    /** DBC_GrpAr_cl::MoveDn. */
    method MoveSubDn(k: nat)
      requires Distinct(subs) && k + 1 < |subs|
      modifies this`subs, subs
      ensures subs == SwapAt(old(subs), k)
      ensures View() == MoveIn(old(View()), k)
    {
      var s := subs[k];
      ghost var views := SubViews(subs);
      subs := subs[..k] + subs[k + 1..];
      subs := subs[..k + 1] + [s] + subs[k + 1..];
      assert subs == SwapAt(old(subs), k);
      assert SubViews(subs) == SwapAt(views, k);
      UpdateRelOffs(k, s.absOffs, s.relOffs);
    }
  }

  ghost function AllSubs(items: seq<BlkGrp>): set<SubGrp>
    reads items
  {
    set g, s | g in items && s in g.subs :: s
  }

  ghost function Views(items: seq<BlkGrp>): (r: seq<Grp>)
    reads items, AllSubs(items)
    ensures |r| == |items| && forall i {:trigger r[i]} :: 0 <= i < |r| ==> r[i] == items[i].View()
  {
    seq(|items|, i requires 0 <= i < |items| reads items, AllSubs(items) =>
      assert items[i] in items && forall s :: s in items[i].subs ==> s in AllSubs(items);
      items[i].View())
  }

  /** No object stands at two places. */
  ghost predicate Separate(items: seq<BlkGrp>)
    reads items
  {
    && Distinct(items)
    && (forall g :: g in items ==> Distinct(g.subs))
    && forall g, h, s :: g in items && h in items && s in g.subs && s in h.subs ==> g == h
  }

  /** The array of the CEA block (GroupAr_cl, CEA_GrpAr_cl). */
  class CeaGrpAr {
    var items: seq<BlkGrp>
    var usedSz: int
    var freeSz: int

    ghost function View(): Tree
      reads this, items, AllSubs(items)
    {
      Tree(Views(items), usedSz, freeSz)
    }

    ghost predicate Valid()
      reads this, items
    {
      Separate(items)
    }

    constructor ()
      ensures Valid() && items == [] && View() == Tree([], 0, 0)
    {
      items, usedSz, freeSz := [], 0, 0;
    }

    method PlaceAt(i: nat, abs: int, rel: int, soffs: bool)
      requires Valid() && i < |items|
      modifies items[i], items[i].subs
      ensures Valid() && items[i].subs == old(items[i].subs)
      ensures Views(items) == old(Views(items))[i := Moved(old(items[i].View()), abs, rel, i, soffs)]
    {
      var g := items[i];
      g.Place(abs, rel, i, soffs);
      forall j {:trigger items[j]} | 0 <= j < |items| && j != i
        ensures items[j].View() == old(items[j].View())
      {
        var h := items[j];
        assert h != g && h.subs == old(h.subs) && forall s :: s in h.subs ==> s !in g.subs;
        forall k {:trigger h.subs[k]} | 0 <= k < |h.subs| ensures h.subs[k].View() == old(h.subs[k].View()) {
          assert h.subs[k] in h.subs;
        }
      }
    }

    /** One turn of UpdateAbsOffs, on the way to whole. */
    method Turn(i: nat, abs: int, rel: int, soffs: bool, ghost whole: seq<Grp>) returns (n: int)
      requires Valid() && i < |items| && Turning(whole, Views(items), i, abs, rel, soffs)
      modifies items[i], items[i].subs
      ensures Valid() && forall g :: g in items ==> g.subs == old(g.subs)
      ensures Turning(whole, Views(items), i + 1, abs + n, rel + n, soffs)
    {
      n := items[i].datSz;
      ghost var before := Views(items);
      assert before[i] == items[i].View();
      PlaceAt(i, abs, rel, soffs);
      UpdTurn(whole, before, i, abs, rel, soffs);
    }

    /** UpdateAbsOffs. */
    method UpdateAbsOffs(i: nat, abs: int, soffs: bool, ghost all: set<SubGrp>)
      requires Valid() && Within(items, all)
      modifies items, all
      ensures Valid() && Within(items, all) && forall g :: g in items ==> g.subs == old(g.subs)
      ensures Views(items) == UpdAbs(old(Views(items)), i, abs, soffs)
    {
      var idx, absOffset, relOffset := i, abs, abs % BLOCK_SIZE;
      ghost var whole := UpdAbs(Views(items), i, abs, soffs);
      while idx < |items|
        invariant Valid() && Within(items, all) && forall g :: g in items ==> g.subs == old(g.subs)
        invariant i <= idx && Turning(whole, Views(items), idx, absOffset, relOffset, soffs)
      {
        assert items[idx] in items;
        var n := Turn(idx, absOffset, relOffset, soffs, whole);
        idx, absOffset, relOffset := idx + 1, absOffset + n, relOffset + n;
      }
      UpdDone(whole, Views(items), idx, absOffset, relOffset, soffs);
    }

    /** base_CalcDataSZ over groups and their sub-groups. */
    method CalcDataSZ()
      modifies this`usedSz, this`freeSz
      ensures View() == Calc(Views(items)) && Views(items) == old(Views(items))
    {
      ghost var views := Views(items);
      var used, grpIndex := 0, 0;
      while grpIndex < |items|
        invariant grpIndex <= |items| && used == GrpBytes(views, grpIndex)
      {
        var g := items[grpIndex];
        assert views[grpIndex] == g.View();
        var subSize := g.SubSize();
        used := used + (if g.hdrSz == 0 then g.datSz else g.hdrSz) + subSize;
        grpIndex := grpIndex + 1;
      }
      usedSz := used;
      freeSz := CEA_SPACE - used;
      assert Views(items) == views;
    }

    /** The end of base_Cut, base_Paste and base_InsertUp. */
    method Settle(i: nat, abs: int, ghost all: set<SubGrp>)
      requires Valid() && Within(items, all)
      modifies this`usedSz, this`freeSz, items, all
      ensures Valid() && Within(items, all) && forall g :: g in items ==> g.subs == old(g.subs)
      ensures View() == Settled(old(Views(items)), i, abs)
    {
      if i < |items| { UpdateAbsOffs(i, abs, true, all); }
      CalcDataSZ();
    }

    // -------------------------------------------------------------- edits

    /** Takes a group out; the others use no object of it. */
    method Detach(i: nat, ghost all: set<SubGrp>) returns (g: BlkGrp, ghost rest: set<SubGrp>)
      requires Valid() && i < |items| && Within(items, all)
      modifies this`items
      ensures Valid() && items == RemoveAt(old(items), i) && g == old(items[i]) && g !in items
      ensures Within(items, rest) && rest <= all && forall s :: s in g.subs ==> s !in rest
      ensures Views(items) == RemoveAt(old(Views(items)), i)
    {
      g, rest := items[i], set s | s in all && s !in items[i].subs;
      RemoveSeparate(items, i, all);
      items := items[..i] + items[i + 1..];
    }

    /** base_Cut and base_Delete; the group taken out keeps its state. */
    method Cut(i: nat, ghost all: set<SubGrp>) returns (g: BlkGrp)
      requires Valid() && i < |items| && Within(items, all)
      modifies this, items, all
      ensures Valid() && Within(items, all) && items == RemoveAt(old(items), i)
      ensures g == old(items[i]) && unchanged(g) && forall s :: s in g.subs ==> unchanged(s)
      ensures View() == GroupTree.Cut(old(View()), i)
    {
      ghost var rest;
      assert View().grps[i] == items[i].View();
      g, rest := Detach(i, all);
      Settle(i, g.absOffs, rest);
    }

    /** base_Paste: g replaces the group at i. */
    method Paste(i: nat, g: BlkGrp, ghost all: set<SubGrp>)
      requires Valid() && i < |items| && Within(items, all) && Apart(g, items) && forall s :: s in g.subs ==> s in all
      modifies this, items, g, all
      ensures Valid() && Within(items, all) && items == old(items)[i := g]
      ensures View() == GroupTree.Paste(old(View()), i, old(g.View()))
    {
      var abs := items[i].absOffs;
      ghost var views := Views(items);
      assert views[i] == items[i].View();
      ReplaceSeparate(items, i, g, all);
      items := items[i := g];
      assert Views(items) == views[i := g.View()];
      Settle(i, abs, all);
    }

    method InsertUp(i: nat, g: BlkGrp, ghost all: set<SubGrp>)
      requires Valid() && i < |items| && Within(items, all) && Apart(g, items) && forall s :: s in g.subs ==> s in all
      modifies this, items, g, all
      ensures Valid() && Within(items, all) && items == InsertAt(old(items), i, g)
      ensures View() == GroupTree.InsertUp(old(View()), i, old(g.View()))
    {
      var abs := items[i].absOffs;
      ghost var views := Views(items);
      assert views[i] == items[i].View();
      InsertSeparate(items, i, g, all);
      items := items[..i] + [g] + items[i..];
      assert Views(items) == InsertAt(views, i, g.View());
      Settle(i, abs, all);
    }

    method MoveDn(i: nat, ghost all: set<SubGrp>)
      requires Valid() && i + 1 < |items| && Within(items, all)
      modifies this, items, all
      ensures Valid() && Within(items, all) && items == SwapAt(old(items), i)
      ensures View() == GroupTree.MoveDn(old(View()), i)
    {
      var g := items[i];
      ghost var views := Views(items);
      assert views[i] == g.View();
      SwapSeparate(items, i, all);
      items := items[..i] + items[i + 1..];
      items := items[..i + 1] + [g] + items[i + 1..];
      assert items == SwapAt(old(items), i);
      assert Views(items) == SwapAt(views, i);
      UpdateAbsOffs(i, g.absOffs, true, all);
    }

    /** MoveUp(i) is MoveDn(i - 1). */
    method MoveUp(i: nat, ghost all: set<SubGrp>)
      requires Valid() && 0 < i < |items| && Within(items, all)
      modifies this, items, all
      ensures Valid() && Within(items, all) && items == SwapAt(old(items), i - 1)
      ensures View() == GroupTree.MoveUp(old(View()), i)
    {
      MoveDn(i - 1, all);
    }

    method InsertDn(i: nat, g: BlkGrp, ghost all: set<SubGrp>)
      requires Valid() && i < |items| && Within(items, all) && Apart(g, items) && forall s :: s in g.subs ==> s in all
      modifies this, items, g, all
      ensures Valid() && Within(items, all) && items == InsertAt(old(items), i + 1, g)
      ensures View() == GroupTree.InsertDn(old(View()), i, old(g.View()))
    {
      if i + 1 < |items| { InsertUp(i + 1, g, all); } else { InsertLast(g, all); }
    }

    /** Behind the last group: insert above it, then move the new one down. */
    method InsertLast(g: BlkGrp, ghost all: set<SubGrp>)
      requires Valid() && items != [] && Within(items, all) && Apart(g, items) && forall s :: s in g.subs ==> s in all
      modifies this, items, g, all
      ensures Valid() && Within(items, all) && items == old(items) + [g]
      ensures View() == GroupTree.InsertDn(old(View()), |old(items)| - 1, old(g.View()))
    {
      var i := |items| - 1;
      ghost var t, h := View(), g.View();
      InsertUp(i, g, all);
      ghost var u := View();
      LastSwapped(old(items), g);
      MoveDn(i, all);
      InsertDnLast(t, h, u, View());
    }

    // -------------------------------------------------------------- edits of the sub-groups of block p

    /** Only block p, its sub-groups and perhaps s were changed. */
    twostate lemma OthersKept(p: nat)
      requires old(Separate(items)) && p < |items| && items == old(items)
      requires forall h, s :: h in items && h != items[p] && s in h.subs ==> unchanged(h) && unchanged(s)
      requires forall h :: h in items && h != items[p] ==> unchanged(h)
      ensures Views(items) == old(Views(items))[p := items[p].View()]
    {
      forall j {:trigger items[j]} | 0 <= j < |items| && j != p ensures items[j].View() == old(items[j].View()) {
        var h := items[j];
        assert h != items[p] && h in items && h.subs == old(h.subs);
        forall k {:trigger h.subs[k]} | 0 <= k < |h.subs| ensures h.subs[k].View() == old(h.subs[k].View()) {
          assert h.subs[k] in h.subs;
        }
      }
    }

    method CutSub(p: nat, k: nat) returns (s: SubGrp)
      requires Valid() && p < |items| && k < |items[p].subs| && |items[p].inst| == 32
      modifies items[p], items[p].subs
      ensures Valid() && s == old(items[p].subs[k]) && items[p].subs == RemoveAt(old(items[p].subs), k)
      ensures forall h :: h in items && h != items[p] ==> h.subs == old(h.subs)
      ensures Views(items) == old(Views(items))[p := CutIn(old(items[p].View()), k)]
    {
      var g := items[p];
      s := g.RemoveSub(k);
      OthersKept(p);
    }

    method AddSub(p: nat, k: nat, s: SubGrp)
      requires Valid() && p < |items| && k < |items[p].subs| && |items[p].inst| == 32 && Unused(s, items)
      modifies items[p], items[p].subs, s
      ensures Valid() && items[p].subs == InsertAt(old(items[p].subs), k, s)
      ensures forall h :: h in items && h != items[p] ==> h.subs == old(h.subs)
      ensures Views(items) == old(Views(items))[p := InsertIn(old(items[p].View()), k, old(s.View()))]
    {
      var g := items[p];
      g.InsertSub(k, s);
      OthersKept(p);
    }

    method SwapSub(p: nat, k: nat, s: SubGrp)
      requires Valid() && p < |items| && k < |items[p].subs| && |items[p].inst| == 32 && Unused(s, items)
      modifies items[p], items[p].subs, s
      ensures Valid() && items[p].subs == old(items[p].subs)[k := s]
      ensures forall h :: h in items && h != items[p] ==> h.subs == old(h.subs)
      ensures Views(items) == old(Views(items))[p := PasteIn(old(items[p].View()), k, old(s.View()))]
    {
      var g := items[p];
      g.ReplaceSub(k, s);
      OthersKept(p);
    }

    /** DBC_GrpAr_cl::MoveDn. */
    method SubMoveDn(p: nat, k: nat)
      requires Valid() && p < |items| && k + 1 < |items[p].subs|
      modifies items[p], items[p].subs
      ensures Valid() && items[p].subs == SwapAt(old(items[p].subs), k)
      ensures forall h :: h in items && h != items[p] ==> h.subs == old(h.subs)
      ensures View() == GroupTree.SubMoveDn(old(View()), p, k)
    {
      var g := items[p];
      g.MoveSubDn(k);
      OthersKept(p);
    }

    /** DBC_GrpAr_cl::MoveUp. */
    method SubMoveUp(p: nat, k: nat)
      requires Valid() && p < |items| && 0 < k < |items[p].subs|
      modifies items[p], items[p].subs
      ensures Valid() && items[p].subs == SwapAt(old(items[p].subs), k - 1)
      ensures View() == GroupTree.SubMoveUp(old(View()), p, k)
    {
      SubMoveDn(p, k - 1);
    }

    /** The block changed size: the blocks from its index on move. */
    method PropagateSize(p: nat, abs: int, soffs: bool, ghost all: set<SubGrp>)
      requires Valid() && Within(items, all) && p < |items| && items[p].grpIdx == p
      modifies this`usedSz, this`freeSz, items, all
      ensures Valid() && Within(items, all) && forall g :: g in items ==> g.subs == old(g.subs)
      ensures View() == Calc(UpdAbs(old(Views(items)), p, abs, soffs))
    {
      UpdateAbsOffs(items[p].grpIdx, abs, soffs, all);
      CalcDataSZ();
    }

    /** DBC_GrpAr_cl::Cut and Delete. */
    method SubCut(p: nat, k: nat, ghost all: set<SubGrp>) returns (s: SubGrp)
      requires Valid() && Within(items, all) && p < |items| && items[p].grpIdx == p
      requires k < |items[p].subs| && |items[p].inst| == 32
      modifies this`usedSz, this`freeSz, items, all
      ensures Valid() && Within(items, all) && s == old(items[p].subs[k])
      ensures items[p].subs == RemoveAt(old(items[p].subs), k)
      ensures View() == GroupTree.SubCut(old(View()), p, k)
    {
      assert items[p] in items && Views(items)[p] == items[p].View();
      s := CutSub(p, k);
      assert Views(items)[p] == items[p].View();
      PropagateSize(p, items[p].absOffs, false, all);
    }

    /** DBC_GrpAr_cl::Paste, with the offset it hands to the parent's update. */
    method SubPaste(p: nat, k: nat, s: SubGrp, ghost all: set<SubGrp>)
      requires Valid() && Within(items, all) && p < |items| && items[p].grpIdx == p
      requires k < |items[p].subs| && |items[p].inst| == 32 && Unused(s, items) && s in all
      modifies this`usedSz, this`freeSz, items, all
      ensures Valid() && Within(items, all) && items[p].subs == old(items[p].subs)[k := s]
      ensures View() == GroupTree.SubPaste(old(View()), p, k, old(s.View()))
    {
      var absOffset := items[p].subs[k].absOffs;
      assert items[p] in items && Views(items)[p] == items[p].View()
          && items[p].View().subs[k] == items[p].subs[k].View();
      SwapSub(p, k, s);
      assert Views(items)[p] == items[p].View();
      PropagateSize(p, absOffset, true, all);
    }

    /** DBC_GrpAr_cl::InsertUp. */
    method SubInsertUp(p: nat, k: nat, s: SubGrp, ghost all: set<SubGrp>)
      requires Valid() && Within(items, all) && p < |items| && items[p].grpIdx == p
      requires k < |items[p].subs| && |items[p].inst| == 32 && Unused(s, items) && s in all
      modifies this`usedSz, this`freeSz, items, all
      ensures Valid() && Within(items, all) && items[p].subs == InsertAt(old(items[p].subs), k, s)
      ensures View() == GroupTree.SubInsertUp(old(View()), p, k, old(s.View()))
    {
      assert items[p] in items && Views(items)[p] == items[p].View();
      AddSub(p, k, s);
      assert Views(items)[p] == items[p].View();
      PropagateSize(p, items[p].absOffs, false, all);
    }

    /** Behind the last sub-group: insert above it, then move the new one down. */
    method SubAppend(p: nat, k: nat, s: SubGrp, ghost all: set<SubGrp>)
      requires Valid() && Within(items, all) && p < |items| && items[p].grpIdx == p
      requires k + 1 == |items[p].subs| && |items[p].inst| == 32 && Unused(s, items) && s in all
      modifies this`usedSz, this`freeSz, items, all
      ensures Valid() && Within(items, all) && items[p].subs == old(items[p].subs) + [s]
      ensures View() == GroupTree.SubInsertDn(old(View()), p, k, old(s.View()))
    {
      ghost var t, v := View(), s.View();
      assert Views(items)[p] == items[p].View();
      SubInsertUp(p, k, s, all);
      ghost var u := View();
      assert items[p] in items;
      LastSwapped(old(items[p].subs), s);
      SubMoveDn(p, k);
      SubInsertDnLast(t, p, k, v, u, View());
    }

    /** DBC_GrpAr_cl::InsertDn. */
    method SubInsertDn(p: nat, k: nat, s: SubGrp, ghost all: set<SubGrp>)
      requires Valid() && Within(items, all) && p < |items| && items[p].grpIdx == p
      requires k < |items[p].subs| && |items[p].inst| == 32 && Unused(s, items) && s in all
      modifies this`usedSz, this`freeSz, items, all
      ensures Valid() && Within(items, all) && items[p].subs == InsertAt(old(items[p].subs), k + 1, s)
      ensures View() == GroupTree.SubInsertDn(old(View()), p, k, old(s.View()))
    {
      if k + 1 < |items[p].subs| { SubInsertUp(p, k + 1, s, all); } else { SubAppend(p, k, s, all); }
    }
  }

  /** s is no sub-group of the items. */
  ghost predicate Unused(s: SubGrp, items: seq<BlkGrp>)
    reads items
  {
    forall h :: h in items ==> s !in h.subs
  }

  /** g can be added to the items: it is none of them and shares no sub-group with them. */
  ghost predicate Apart(g: BlkGrp, items: seq<BlkGrp>)
    reads g, items
  {
    g !in items && Distinct(g.subs) && forall h, s :: h in items && s in h.subs ==> s !in g.subs
  }

  ghost predicate Within(items: seq<BlkGrp>, all: set<SubGrp>)
    reads items
  {
    forall g, s :: g in items && s in g.subs ==> s in all
  }

  lemma {:induction false} RemoveSeparate(items: seq<BlkGrp>, i: nat, all: set<SubGrp>)
    requires Separate(items) && Within(items, all) && i < |items|
    ensures var r := RemoveAt(items, i);
            Separate(r) && Within(r, set s | s in all && s !in items[i].subs)
            && Views(r) == RemoveAt(Views(items), i) && items[i] !in r
  {
  }

  lemma {:induction false} ReplaceSeparate(items: seq<BlkGrp>, i: nat, g: BlkGrp, all: set<SubGrp>)
    requires Separate(items) && Within(items, all) && i < |items| && Apart(g, items)
        && forall s :: s in g.subs ==> s in all
    ensures var r := items[i := g];
            Separate(r) && Within(r, all) && Views(r) == Views(items)[i := g.View()]
  {
  }

  lemma {:induction false} InsertSeparate(items: seq<BlkGrp>, i: nat, g: BlkGrp, all: set<SubGrp>)
    requires Separate(items) && Within(items, all) && i <= |items| && Apart(g, items)
        && forall s :: s in g.subs ==> s in all
    ensures var r := InsertAt(items, i, g);
            Separate(r) && Within(r, all) && Views(r) == InsertAt(Views(items), i, g.View())
  {
  }

  lemma {:induction false} SwapSeparate(items: seq<BlkGrp>, i: nat, all: set<SubGrp>)
    requires Separate(items) && Within(items, all) && i + 1 < |items|
    ensures var r := SwapAt(items, i);
            Separate(r) && Within(r, all) && Views(r) == SwapAt(Views(items), i)
  {
  }

  lemma {:induction false} SubInsertDnLast(t: Tree, p: nat, k: nat, s: Sub, u: Tree, v: Tree)
    requires Editable(t, p, k) && k + 1 == |t.grps[p].subs| && u == GroupTree.SubInsertUp(t, p, k, s)
    requires SubAt(u, p, k + 1) && v == GroupTree.SubMoveDn(u, p, k)
    ensures v == GroupTree.SubInsertDn(t, p, k, s)
  {
  }

  lemma {:induction false} LastSwapped<T>(s: seq<T>, x: T)
    requires s != []
    ensures SwapAt(InsertAt(s, |s| - 1, x), |s| - 1) == s + [x]
  {
  }

  lemma {:induction false} InsertDnLast(t: Tree, g: Grp, u: Tree, v: Tree)
    requires t.grps != [] && u == GroupTree.InsertUp(t, |t.grps| - 1, g)
    requires |u.grps| == |t.grps| + 1 && v == GroupTree.MoveDn(u, |t.grps| - 1)
    ensures v == GroupTree.InsertDn(t, |t.grps| - 1, g)
  {
  }

  /** whole is what the loop of UpdateAbsOffs makes of grps from i on. */
  ghost predicate Turning(whole: seq<Grp>, grps: seq<Grp>, i: nat, abs: int, rel: int, soffs: bool) {
    whole == UpdFrom(grps, i, abs, rel, soffs)
  }

  lemma {:induction false} UpdDone(whole: seq<Grp>, grps: seq<Grp>, i: nat, abs: int, rel: int, soffs: bool)
    requires i >= |grps| && Turning(whole, grps, i, abs, rel, soffs)
    ensures whole == grps
  {
  }

  lemma {:induction false} UpdTurn(whole: seq<Grp>, grps: seq<Grp>, i: nat, abs: int, rel: int, soffs: bool)
    requires i < |grps| && Turning(whole, grps, i, abs, rel, soffs)
    ensures var n := grps[i].datSz;
            Turning(whole, grps[i := Moved(grps[i], abs, rel, i, soffs)], i + 1, abs + n, rel + n, soffs)
  {
  }
}