/** Laying fields over a data block without sub-groups (src/CEA_class.cpp).  What matters of a field
    table here is which bytes it claims; every byte left over becomes an unknown-byte field. */
module FlatSplit {
  import opened Bytes
  import opened GroupTree
  import opened GroupContent
  import opened BlockSplit

  /** A field group: cnt instances of datSz bytes with fcount fields, or, with a flexible layout,
      single fields of the given sizes taken while they fit. */
  datatype FldGrp = FldGrp(flexLayout: bool, flexLen: bool, fcount: nat, datSz: nat, cnt: int, sizes: seq<nat>)

  /** inst_cnt as the loop compares it: cast to 32 bits, -1 is the largest count. */
  function Count(g: FldGrp): nat {
    if g.cnt >= 0 then g.cnt else if g.cnt == -1 then UNTIL_END else 0
  }

  datatype FlatDsc = FlatDsc(tid: Tid, flexLayout: bool, minLen: nat, maxLen: nat, hdrSz: nat, hdrFcnt: nat,
      grps: seq<FldGrp>)

  /** Bytes at .. at + len - 1 carry this many fields. */
  datatype Claim = Claim(at: nat, len: nat, fields: nat)

  /** The claims made, the bytes left and the offset behind the claims, and the return code. */
  datatype Laid = Laid(claims: seq<Claim>, dlen: nat, offs: nat, rc: Rcode)

  /** base_DBC_Init_GrpFields: fields of the sizes given from number n on, while they fit. */
  function TakeFields(sizes: seq<nat>, n: nat, dlen: nat, offs: nat): Laid
    requires n <= |sizes|
    decreases |sizes| - n
  {
    if n == |sizes| || dlen < sizes[n] then Laid([], dlen, offs, True)
    else
      var l := TakeFields(sizes, n + 1, dlen - sizes[n], offs + sizes[n]);
      l.(claims := [Claim(offs, sizes[n], 1)] + l.claims)
  }

  /** The fields taken must add up to the group unless its length is flexible too. */
  function FlexGroup(g: FldGrp, dlen: nat, offs: nat): Laid {
    var l := TakeFields(g.sizes, 0, dlen, offs);
    l.(rc := if l.offs - offs != g.datSz && !g.flexLen then Fault else True)
  }

  /** The groups from gi (already k instances of it) on, up to the payload step. */
  function Lay(d: FlatDsc, gi: nat, k: nat, dlen: nat, offs: nat, rc: Rcode): Laid
    requires gi <= |d.grps|
    decreases |d.grps| - gi, if gi < |d.grps| && Count(d.grps[gi]) > k then Count(d.grps[gi]) - k else 0
  {
    if gi == |d.grps| then Laid([], dlen, offs, rc)
    else
      var g := d.grps[gi];
      if g.flexLayout && k == 0 then
        var l := FlexGroup(g, dlen, offs);
        if l.rc == Fault then l.(rc := FaultMsg)
        else
          var m := Lay(d, gi + 1, 0, l.dlen, l.offs, True);
          m.(claims := l.claims + m.claims)
      else if k >= Count(g) then Lay(d, gi + 1, 0, dlen, offs, rc)
      else if dlen < g.datSz then
        Laid([], dlen, offs, if d.flexLayout || g.cnt < 0 then rc else FaultMsg)
      else
        var m := Lay(d, gi, k + 1, dlen - g.datSz, offs + g.datSz, rc);
        m.(claims := [Claim(offs, g.datSz, g.fcount)] + m.claims)
  }

  /** The claims lie one behind the other between the two offsets. */
  predicate Tile(claims: seq<Claim>, from: nat, to: nat) {
    if claims == [] then from == to
    else claims[0].at == from && Tile(claims[1..], from + claims[0].len, to)
  }

  lemma {:induction false} TileAppend(a: seq<Claim>, b: seq<Claim>, from: nat, mid: nat, to: nat)
    requires Tile(a, from, mid) && Tile(b, mid, to)
    ensures Tile(a + b, from, to)
  {
    if a == [] {
      assert a + b == b;
    } else {
      assert (a + b)[1..] == a[1..] + b;
      TileAppend(a[1..], b, from + a[0].len, mid, to);
    }
  }

  lemma {:induction false} TakeFieldsTiles(sizes: seq<nat>, n: nat, dlen: nat, offs: nat)
    requires n <= |sizes|
    ensures var l := TakeFields(sizes, n, dlen, offs);
            Tile(l.claims, offs, l.offs) && l.offs + l.dlen == offs + dlen
    decreases |sizes| - n
  {
    if n < |sizes| && dlen >= sizes[n] {
      TakeFieldsTiles(sizes, n + 1, dlen - sizes[n], offs + sizes[n]);
      var l := TakeFields(sizes, n + 1, dlen - sizes[n], offs + sizes[n]);
      assert ([Claim(offs, sizes[n], 1)] + l.claims)[1..] == l.claims;
    }
  }

  /** At every step, through nested flexible groups, offset and remaining length add up; the claims
      tile what lies behind. */
  lemma {:induction false} LayTiles(d: FlatDsc, gi: nat, k: nat, dlen: nat, offs: nat, rc: Rcode)
    requires gi <= |d.grps|
    ensures var l := Lay(d, gi, k, dlen, offs, rc);
            Tile(l.claims, offs, l.offs) && l.offs + l.dlen == offs + dlen
    decreases |d.grps| - gi, if gi < |d.grps| && Count(d.grps[gi]) > k then Count(d.grps[gi]) - k else 0
  {
    if gi < |d.grps| {
      var g := d.grps[gi];
      if g.flexLayout && k == 0 {
        var l := FlexGroup(g, dlen, offs);
        TakeFieldsTiles(g.sizes, 0, dlen, offs);
        if l.rc != Fault {
          LayTiles(d, gi + 1, 0, l.dlen, l.offs, True);
          var m := Lay(d, gi + 1, 0, l.dlen, l.offs, True);
          TileAppend(l.claims, m.claims, offs, l.offs, m.offs);
        }
      } else if k >= Count(g) {
        LayTiles(d, gi + 1, 0, dlen, offs, rc);
      } else if dlen >= g.datSz {
        LayTiles(d, gi, k + 1, dlen - g.datSz, offs + g.datSz, rc);
        var m := Lay(d, gi, k + 1, dlen - g.datSz, offs + g.datSz, rc);
        assert ([Claim(offs, g.datSz, g.fcount)] + m.claims)[1..] == m.claims;
      }
    }
  }

  /** The block laid out: claimed bytes, then one unknown-byte field for each byte left. */
  datatype FlatInit = FlatRejected | FlatInit(rc: Rcode, claims: seq<Claim>, unknown: seq<nat>)

  /** One field per offset from .. from + n - 1. */
  function Offsets(from: nat, n: nat): (r: seq<nat>)
    ensures |r| == n && forall i :: 0 <= i < n ==> r[i] == from + i
  {
    seq(n, i requires 0 <= i < n => from + i)
  }

  function InitFlat(len: nat, d: FlatDsc, edit: bool): FlatInit
    requires 1 <= d.hdrSz <= 2
  {
    if len < d.minLen && !edit then FlatRejected
    else
      var l := Lay(d, 0, 0, if len + 1 >= d.hdrSz then len + 1 - d.hdrSz else len, d.hdrSz,
                   if len < d.minLen then FaultMsg else Ok);
      FlatInit(if len > d.maxLen then FaultMsg else l.rc, l.claims, Offsets(l.offs, l.dlen))
  }

  /** Claims and unknown bytes tile the block behind its header: each byte is claimed once or is one
      unknown-byte field. */
  lemma {:induction false} FlatTiles(len: nat, d: FlatDsc, edit: bool)
    requires 1 <= d.hdrSz <= 2 && d.hdrSz <= len + 1 && InitFlat(len, d, edit) != FlatRejected
    ensures var r := InitFlat(len, d, edit);
            var split := len + 1 - |r.unknown|;
            d.hdrSz <= split && Tile(r.claims, d.hdrSz, split)
            && forall i :: 0 <= i < |r.unknown| ==> r.unknown[i] == split + i
  {
    var rc := if len < d.minLen then FaultMsg else Ok;
    LayTiles(d, 0, 0, len + 1 - d.hdrSz, d.hdrSz, rc);
    var l := Lay(d, 0, 0, len + 1 - d.hdrSz, d.hdrSz, rc);
    TileGrows(l.claims, d.hdrSz, l.offs);
  }

  lemma {:induction false} TileGrows(claims: seq<Claim>, from: nat, to: nat)
    requires Tile(claims, from, to)
    ensures from <= to
  {
    if claims != [] { TileGrows(claims[1..], from + claims[0].len, to); }
  }

  // ---------------------------------------------------------------- the loops

  method InitGrpFields(g: FldGrp, dlen0: nat, offs0: nat) returns (l: Laid)
    ensures l == FlexGroup(g, dlen0, offs0)
  {
    var claims, dlen, offs, nfld, grlen := [], dlen0, offs0, 0, 0;
    ghost var whole := TakeFields(g.sizes, 0, dlen0, offs0);
    assert [] + whole.claims == whole.claims;
    while nfld < |g.sizes|
      invariant nfld <= |g.sizes| && offs == offs0 + grlen
      invariant whole == var m := TakeFields(g.sizes, nfld, dlen, offs); m.(claims := claims + m.claims)
    {
      var fldlen := g.sizes[nfld];
      if dlen < fldlen { break; }
      ghost var m := TakeFields(g.sizes, nfld + 1, dlen - fldlen, offs + fldlen);
      assert claims + ([Claim(offs, fldlen, 1)] + m.claims) == (claims + [Claim(offs, fldlen, 1)]) + m.claims;
      claims := claims + [Claim(offs, fldlen, 1)];
      dlen := dlen - fldlen;
      grlen := grlen + fldlen;
      offs := offs + fldlen;
      nfld := nfld + 1;
    }
    assert claims + [] == claims;
    var rc := True;
    if grlen != g.datSz && !g.flexLen { rc := Fault; }
    l := Laid(claims, dlen, offs, rc);
  }

  /** What is left to lay at group gi after k instances, put behind the claims made. */
  predicate LayFrom(whole: Laid, d: FlatDsc, gi: nat, k: nat, claims: seq<Claim>, dlen: nat, offs: nat, rc: Rcode) {
    gi <= |d.grps| && var m := Lay(d, gi, k, dlen, offs, rc); whole == m.(claims := claims + m.claims)
  }

  /** The first step at a group: a flexible one is laid at once. */
  lemma {:induction false} FlexStep(whole: Laid, d: FlatDsc, gi: nat, claims: seq<Claim>, dlen: nat, offs: nat,
      rc: Rcode)
    requires LayFrom(whole, d, gi, 0, claims, dlen, offs, rc) && gi < |d.grps| && d.grps[gi].flexLayout
    ensures var l := FlexGroup(d.grps[gi], dlen, offs);
            if l.rc == Fault then whole == Laid(claims + l.claims, l.dlen, l.offs, FaultMsg)
            else LayFrom(whole, d, gi + 1, 0, claims + l.claims, l.dlen, l.offs, True)
  {
    var l := FlexGroup(d.grps[gi], dlen, offs);
    if l.rc != Fault {
      var m := Lay(d, gi + 1, 0, l.dlen, l.offs, True);
      assert claims + (l.claims + m.claims) == (claims + l.claims) + m.claims;
    }
  }

  lemma {:induction false} LayStep(whole: Laid, d: FlatDsc, gi: nat, k: nat, claims: seq<Claim>, dlen: nat,
      offs: nat, rc: Rcode)
    requires LayFrom(whole, d, gi, k, claims, dlen, offs, rc) && gi < |d.grps| && !d.grps[gi].flexLayout
    ensures var g := d.grps[gi];
            if k >= Count(g) then LayFrom(whole, d, gi + 1, 0, claims, dlen, offs, rc)
            else if dlen < g.datSz then
              whole == Laid(claims, dlen, offs, if d.flexLayout || g.cnt < 0 then rc else FaultMsg)
            else LayFrom(whole, d, gi, k + 1, claims + [Claim(offs, g.datSz, g.fcount)], dlen - g.datSz,
                offs + g.datSz, rc)
  {
    var g := d.grps[gi];
    if k < Count(g) {
      if dlen < g.datSz {
        assert claims + [] == claims;
      } else {
        var m := Lay(d, gi, k + 1, dlen - g.datSz, offs + g.datSz, rc);
        assert claims + ([Claim(offs, g.datSz, g.fcount)] + m.claims)
            == (claims + [Claim(offs, g.datSz, g.fcount)]) + m.claims;
      }
    }
  }

  /** The loops over field groups and instances of base_DBC_Init_FlatGrp. */
  method LayFields(d: FlatDsc, dlen0: nat, rc0: Rcode) returns (l: Laid)
    ensures l == Lay(d, 0, 0, dlen0, d.hdrSz, rc0)
  {
    var claims: seq<Claim>, dlen: nat, offs: nat, retU2 := [], dlen0, d.hdrSz, rc0;
    ghost var whole := Lay(d, 0, 0, dlen0, d.hdrSz, rc0);
    assert [] + whole.claims == whole.claims;
    var gi := 0;
    while gi < |d.grps|
      invariant LayFrom(whole, d, gi, 0, claims, dlen, offs, retU2)
    {
      var g := d.grps[gi];
      if g.flexLayout {
        FlexStep(whole, d, gi, claims, dlen, offs, retU2);
        var f := InitGrpFields(g, dlen, offs);
        claims, dlen, offs := claims + f.claims, f.dlen, f.offs;
        if f.rc == Fault { return Laid(claims, dlen, offs, FaultMsg); }
        retU2 := True;
      } else {
        var k := 0;
        while k < Count(g)
          invariant k <= Count(g) && LayFrom(whole, d, gi, k, claims, dlen, offs, retU2)
        {
          LayStep(whole, d, gi, k, claims, dlen, offs, retU2);
          if dlen < g.datSz {
            if !(d.flexLayout || g.cnt < 0) { retU2 := FaultMsg; }
            return Laid(claims, dlen, offs, retU2);
          }
          claims := claims + [Claim(offs, g.datSz, g.fcount)];
          dlen := dlen - g.datSz;
          offs := offs + g.datSz;
          k := k + 1;
        }
        LayStep(whole, d, gi, k, claims, dlen, offs, retU2);
      }
      gi := gi + 1;
    }
    assert claims + [] == claims;
    return Laid(claims, dlen, offs, retU2);
  }

  /** insert_unk_byte */
  method InsertUnkByte(n: nat, offs: nat) returns (unknown: seq<nat>)
    ensures unknown == Offsets(offs, n)
  {
    var sOffs := offs;
    unknown := [];
    for cnt := 0 to n
      invariant sOffs == offs + cnt && unknown == Offsets(offs, cnt)
    {
      unknown := unknown + [sOffs];
      sOffs := sOffs + 1;
    }
  }

  /** base_DBC_Init_FlatGrp, with insert_unk_byte for the bytes left. */
  method InitFlatGrp(len: nat, d: FlatDsc, edit: bool) returns (r: FlatInit, dynFcnt: nat)
    requires 1 <= d.hdrSz <= 2
    ensures r == InitFlat(len, d, edit)
    ensures r != FlatRejected ==> dynFcnt == d.hdrFcnt + FieldCount(r.claims) + |r.unknown|
  {
    var retU2 := Ok;
    dynFcnt := 0;
    if len < d.minLen {
      retU2 := FaultMsg;
      if !edit { return FlatRejected, 0; }
    }
    var dlen := len + 1;
    dlen := if dlen >= d.hdrSz then dlen - d.hdrSz else dlen - 1;
    var l := LayFields(d, dlen, retU2);
    retU2 := if len > d.maxLen then FaultMsg else l.rc;
    var unknown := InsertUnkByte(l.dlen, l.offs);
    dynFcnt := d.hdrFcnt + FieldCount(l.claims) + l.dlen;
    r := FlatInit(retU2, l.claims, unknown);
  }

  function FieldCount(claims: seq<Claim>): nat {
    if claims == [] then 0 else claims[0].fields + FieldCount(claims[1..])
  }
}
