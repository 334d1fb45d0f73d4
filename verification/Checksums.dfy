/** Block checksums, and the assembly that renews them (wxEDID_Frame::AssembleEDID_main). */
module Checksums {
  import opened Bytes
  import opened GroupTree
  import opened GroupContent
  import opened DataBlocks
  import opened Assembler
  import opened CeaImage
  import opened BaseBlock
  import opened GroupShift
  import opened ShiftedBlock

  // ---------------------------------------------------------------- one block

  function Sum(b: seq<Byte>): nat {
    if b == [] then 0 else Sum(b[..|b| - 1]) + (b[|b| - 1] as int)
  }

  predicate IsBlk(b: seq<Byte>) { |b| == BLOCK_SIZE }

  predicate Verifies(b: seq<Byte>)
    requires IsBlk(b)
  {
    Sum(b) % 256 == 0
  }

  /** 0x100 minus the sum, cut to a byte. */
  function Chksum(b: seq<Byte>): Byte
    requires IsBlk(b)
  {
    (0x100 - Sum(b[..127]) % 256) % 256
  }

  function Sealed(b: seq<Byte>): (r: seq<Byte>)
    requires IsBlk(b)
    ensures IsBlk(r)
  {
    b[127 := Chksum(b)]
  }

  lemma {:induction false} SumLast(b: seq<Byte>, c: Byte)
    requires IsBlk(b)
    ensures b[127 := c][..127] == b[..127] && Sum(b[127 := c]) == Sum(b[..127]) + (c as int)
  {
    assert b[127 := c][..127] == b[..127];
  }

  /** A block verifies exactly when its last byte is the generated checksum of the others. */
  lemma {:induction false} VerifiesIffSealed(b: seq<Byte>)
    requires IsBlk(b)
    ensures Verifies(b) <==> Sealed(b) == b
  {
    SumLast(b, b[127]);
    assert b[127 := b[127]] == b;
    UniqueChksum(Sum(b[..127]), b[127]);
    assert Sealed(b) == b <==> b[127] == Chksum(b);
  }

  lemma {:induction false} UniqueChksum(s: nat, c: Byte)
    ensures (s + c) % 256 == 0 <==> c == (0x100 - s % 256) % 256
  {
  }

  /** The checksum depends on the other bytes only, so a sealed block is sealed already. */
  lemma {:induction false} SealedVerifies(b: seq<Byte>, c: Byte)
    requires IsBlk(b)
    ensures Sealed(b[127 := c]) == Sealed(b) && Sealed(Sealed(b)) == Sealed(b) && Verifies(Sealed(b))
  {
    SumLast(b, c);
    SumLast(b, Chksum(b));
    VerifiesIffSealed(Sealed(b));
  }

  // ---------------------------------------------------------------- blocks of the buffer

  function Blk(buf: seq<Byte>, k: nat): (b: seq<Byte>)
    requires |buf| == BUFFER_SIZE && k <= 3
    ensures IsBlk(b)
  {
    buf[k * BLOCK_SIZE..(k + 1) * BLOCK_SIZE]
  }

  function SealBlk(buf: seq<Byte>, k: nat): (r: seq<Byte>)
    requires |buf| == BUFFER_SIZE && k <= 3
    ensures |r| == BUFFER_SIZE
  {
    buf[k * BLOCK_SIZE + 127 := Chksum(Blk(buf, k))]
  }

  method SumBytes(buff: array<Byte>, at: nat, n: nat) returns (csum: nat)
    requires at + n <= buff.Length
    ensures csum == Sum(buff[at..at + n])
  {
    csum := 0;
    for itb := 0 to n
      invariant csum == Sum(buff[at..at + itb])
    {
      var s: seq<Byte> := buff[at..at + itb + 1];
      assert s[..itb] == buff[at..at + itb];
      csum := csum + (buff[at + itb] as int);
    }
  }

  method VerifyChksum(buff: array<Byte>, block: nat) returns (ok: bool)
    requires buff.Length == BUFFER_SIZE
    ensures ok <==> block <= 3 && Verifies(Blk(buff[..], block))
  {
    if block > 3 { return false; }
    var csum := SumBytes(buff, block * BLOCK_SIZE, BLOCK_SIZE);
    assert Blk(buff[..], block) == buff[block * BLOCK_SIZE..block * BLOCK_SIZE + BLOCK_SIZE];
    ok := csum % 256 == 0;
  }

  /** Returns the checksum before it is cut to a byte. */
  method GenChksum(buff: array<Byte>, block: nat) returns (csum: nat)
    requires buff.Length == BUFFER_SIZE
    modifies buff
    ensures block > 3 ==> csum == 0 && buff[..] == old(buff[..])
    ensures block <= 3 ==> buff[..] == SealBlk(old(buff[..]), block) && csum % 256 == Chksum(Blk(old(buff[..]), block))
  {
    if block > 3 { return 0; }
    ghost var b := Blk(buff[..], block);
    csum := SumBytes(buff, block * BLOCK_SIZE, BLOCK_SIZE - 1);
    assert b[..127] == buff[block * BLOCK_SIZE..block * BLOCK_SIZE + 127];
    csum := 0x100 - csum % 256;
    buff[block * BLOCK_SIZE + 127] := csum % 256;
  }

  /** Checksums of blocks 1 .. n. */
  function SealExts(buf: seq<Byte>, n: nat): (r: seq<Byte>)
    requires |buf| == BUFFER_SIZE && n <= 3
    ensures |r| == BUFFER_SIZE
  {
    if n == 0 then buf else SealBlk(SealExts(buf, n - 1), n)
  }

  lemma {:induction false} SealBlkAt(buf: seq<Byte>, k: nat, j: nat)
    requires |buf| == BUFFER_SIZE && k <= 3 && j <= 3
    ensures Blk(SealBlk(buf, k), j) == if j == k then Sealed(Blk(buf, k)) else Blk(buf, j)
  {
  }

  lemma {:induction false} SealExtsAt(buf: seq<Byte>, n: nat, j: nat)
    requires |buf| == BUFFER_SIZE && n <= 3 && j <= 3
    ensures Blk(SealExts(buf, n), j) == if 1 <= j <= n then Sealed(Blk(buf, j)) else Blk(buf, j)
  {
    if n > 0 {
      SealExtsAt(buf, n - 1, j);
      SealBlkAt(SealExts(buf, n - 1), n, j);
    }
  }

  lemma {:induction false} SealBlkFixed(buf: seq<Byte>, k: nat)
    requires |buf| == BUFFER_SIZE && k <= 3 && Sealed(Blk(buf, k)) == Blk(buf, k)
    ensures SealBlk(buf, k) == buf
  {
    assert Blk(buf, k)[127] == buf[k * BLOCK_SIZE + 127];
  }

  lemma {:induction false} SealExtsFixed(buf: seq<Byte>, n: nat)
    requires |buf| == BUFFER_SIZE && n <= 3
    requires forall k {:trigger Blk(buf, k)} :: 1 <= k <= n ==> Sealed(Blk(buf, k)) == Blk(buf, k)
    ensures SealExts(buf, n) == buf
  {
    if n > 0 {
      SealExtsFixed(buf, n - 1);
      SealBlkFixed(buf, n);
    }
  }

  // ---------------------------------------------------------------- assembly with checksums

  /** The header groups whose checksum fields are refreshed: that of the base block, and that of the
      CEA block if the assembled base block declares an extension. */
  predicate Refreshable(buf: seq<Byte>, base: seq<Grp>, cea: seq<Grp>, blocks: nat)
    requires |buf| == BUFFER_SIZE && Assemblable(base) && Assemblable(cea)
  {
    var (o, b) := Assemble(buf, base, cea, blocks);
    base != [] && |base[0].inst| == 32 && (o && 1 <= b[126] <= 3 ==> cea != [] && |cea[0].inst| == 32)
  }

  function Refresh(grps: seq<Grp>, at: nat, c: Byte): (r: seq<Grp>)
    requires grps != [] && at < |grps[0].inst|
    ensures |r| == |grps|
  {
    grps[0 := grps[0].(inst := grps[0].inst[at := c])]
  }

  datatype State = State(ok: bool, buf: seq<Byte>, base: seq<Grp>, cea: seq<Grp>)

  /** Assemble, renew the checksum of the base block and of as many extensions as it declares, and
      refresh the copies of both in the header groups. */
  function AssembleMain(buf: seq<Byte>, base: seq<Grp>, cea: seq<Grp>, blocks: nat): (r: State)
    requires |buf| == BUFFER_SIZE && Assemblable(base) && Assemblable(cea) && Refreshable(buf, base, cea, blocks)
    ensures |r.buf| == BUFFER_SIZE
  {
    var (o, b) := Assemble(buf, base, cea, blocks);
    if !o then State(false, b, base, cea)
    else
      var b := SealBlk(b, 0);
      var base := Refresh(base, 21, b[127]);
      var n := b[126];
      if n > 3 then State(false, b, base, cea)
      else
        var b := SealExts(b, n);
        State(true, b, base, if n >= 1 && cea[0].tid == CHD then Refresh(cea, 4, b[255]) else cea)
  }

  method SealExtensions(buff: array<Byte>, n: nat)
    requires buff.Length == BUFFER_SIZE && n <= 3
    modifies buff
    ensures buff[..] == SealExts(old(buff[..]), n)
  {
    var itb := 1;
    while itb <= n
      invariant 1 <= itb <= n + 1 && buff[..] == SealExts(old(buff[..]), itb - 1)
    {
      var csum := GenChksum(buff, itb);
      itb := itb + 1;
    }
  }

  method AssembleEdidMain(buff: array<Byte>, base0: seq<Grp>, cea0: seq<Grp>, blocks: nat)
    returns (ok: bool, base: seq<Grp>, cea: seq<Grp>)
    requires buff.Length == BUFFER_SIZE && blocks <= 4
    requires Assemblable(base0) && Assemblable(cea0) && Refreshable(buff[..], base0, cea0, blocks)
    modifies buff
    ensures State(ok, buff[..], base, cea) == AssembleMain(old(buff[..]), base0, cea0, blocks)
  {
    base, cea := base0, cea0;
    ok := AssembleEdid(buff, base, cea, blocks);
    if !ok { return; }
    var csum := GenChksum(buff, 0);
    base := Refresh(base, 21, buff[127]);
    var nExt := buff[126];
    if nExt > 3 { return false, base, cea; }
    SealExtensions(buff, nExt);
    if nExt >= 1 && cea[0].tid == CHD { cea := Refresh(cea, 4, buff[255]); }
  }

  // ---------------------------------------------------------------- a second pass changes nothing

  lemma {:induction false} RefreshedBase(base: seq<Grp>, c: Byte)
    requires BaseGood(base)
    ensures BaseGood(Refresh(base, 21, c)) && BaseImage(Refresh(base, 21, c)) == BaseImage(base)[127 := c]
  {
    var r := Refresh(base, 21, c);
    assert r[1..] == base[1..];
    assert r[0].inst[..20] == base[0].inst[..20] && r[0].inst[20..22] == base[0].inst[20..22][1 := c];
  }

  /** The contents with another checksum in the header group. */
  function WithChk(cs: Contents, c: Byte): (r: Contents)
    requires Sound(cs)
    ensures |r| == |cs|
  {
    cs[0 := cs[0].(inst := cs[0].inst[4 := c])]
  }

  lemma {:induction false} ChkSound(cs: Contents, c: Byte)
    requires Sound(cs)
    ensures Sound(WithChk(cs, c)) && Start(WithChk(cs, c), |cs|) == Start(cs, |cs|)
  {
    StartSame(cs, WithChk(cs, c), |cs|);
  }

  lemma {:induction false} ChkData(cs: Contents, c: Byte, n: nat)
    requires Sound(cs) && Sound(WithChk(cs, c)) && n <= |cs|
    ensures Data(WithChk(cs, c), n) == Data(cs, n)
  {
    if n > 0 {
      ChkData(cs, c, n - 1);
      if n == 1 { assert WithChk(cs, c)[0].inst[..4] == cs[0].inst[..4]; }
    }
  }

  lemma {:induction false} ChkDtds(cs: Contents, c: Byte, i: nat)
    requires Sound(cs) && 1 <= i <= |cs|
    ensures FirstDtd(WithChk(cs, c), i) == FirstDtd(cs, i)
    decreases |cs| - i
  {
    if i < |cs| { ChkDtds(cs, c, i + 1); }
  }

  lemma {:induction false} ChkImage(cs: Contents, c: Byte)
    requires Sound(cs)
    ensures Sound(WithChk(cs, c)) && Image(WithChk(cs, c)) == Image(cs)[127 := c]
  {
    ChkSound(cs, c);
    ChkData(cs, c, |cs|);
    ChkDtds(cs, c, 1);
    StartSame(cs, WithChk(cs, c), FirstDtd(cs, 1));
  }

  lemma {:induction false} ChkRendered(cs: Contents, c: Byte)
    requires Sound(cs)
    ensures RenderGrps(WithChk(cs, c)) == Refresh(RenderGrps(cs), 4, c)
  {
    var r := RenderGrps(WithChk(cs, c));
    forall i | 0 <= i < |cs| ensures r[i] == Refresh(RenderGrps(cs), 4, c)[i] {
      StartSame(cs, WithChk(cs, c), i);
      assert RenderGrps(cs)[i] == RenderAt(cs, i);
    }
  }

  // ---------------------------------------------------------------- the groups of the CEA block

  /** The CEA array of a session: empty without an extension, else rendered contents, perhaps shifted. */
  function CeaGrps(cs: Contents, shifted: bool): seq<Grp> { ShiftIf(shifted, Render(cs)).grps }

  function CeaImg(cs: Contents, shifted: bool): (b: seq<Byte>)
    requires Sound(cs)
    ensures IsBlk(b)
  {
    if shifted then Image(cs)[2 := ShiftedOffset(cs) % 256] else Image(cs)
  }

  predicate Fits(cs: Contents)
    requires Sound(cs)
  {
    Start(cs, |cs|) < CEA_SPACE || !EndsEmpty(cs)
  }

  lemma {:induction false} AssemblesEither(buf: seq<Byte>, cs: Contents, shifted: bool)
    requires Sound(cs) && |buf| == BUFFER_SIZE
    ensures Assemblable(CeaGrps(cs, shifted))
    ensures var r := AssembleCea(buf, CeaGrps(cs, shifted));
            (r.0 <==> Fits(cs)) && (r.0 ==> r.1 == Write(buf, BLOCK_SIZE, CeaImg(cs, shifted)))
  {
    AssemblesImage(buf, cs);
    if shifted {
      AssemblesShifted(buf, cs);
      WriteInside(buf, Image(cs), ShiftedOffset(cs) % 256);
    }
  }

  lemma {:induction false} WriteInside(buf: seq<Byte>, b: seq<Byte>, c: Byte)
    requires |buf| == BUFFER_SIZE && IsBlk(b)
    ensures Write(buf, BLOCK_SIZE, b)[BLOCK_SIZE + 2 := c] == Write(buf, BLOCK_SIZE, b[2 := c])
  {
  }

  lemma {:induction false} EitherChk(cs: Contents, shifted: bool, c: Byte)
    requires Sound(cs)
    ensures Sound(WithChk(cs, c)) && CeaImg(WithChk(cs, c), shifted) == CeaImg(cs, shifted)[127 := c]
    ensures CeaGrps(WithChk(cs, c), shifted) == Refresh(CeaGrps(cs, shifted), 4, c)
    ensures Fits(WithChk(cs, c)) <==> Fits(cs)
  {
    ChkImage(cs, c);
    ChkEnds(cs, c);
    ChkRendered(cs, c);
    ChkOffset(cs, c);
    if shifted { RefreshShifts(RenderGrps(cs), c); }
  }

  lemma {:induction false} ChkOffset(cs: Contents, c: Byte)
    requires Sound(cs)
    ensures ShiftedOffset(WithChk(cs, c)) == ShiftedOffset(cs)
  {
    ChkDtds(cs, c, 1);
    StartSame(cs, WithChk(cs, c), FirstDtd(cs, 1));
  }

  lemma {:induction false} RefreshShifts(grps: seq<Grp>, c: Byte)
    requires grps != [] && 4 < |grps[0].inst|
    ensures ShiftGrps(Refresh(grps, 4, c)) == Refresh(ShiftGrps(grps), 4, c)
  {
    var (a, b) := (ShiftGrps(Refresh(grps, 4, c)), Refresh(ShiftGrps(grps), 4, c));
    forall i {:trigger a[i]} | 0 <= i < |a| ensures a[i] == b[i] {
      assert a[i] == ShiftAt(Refresh(grps, 4, c), i) && ShiftGrps(grps)[i] == ShiftAt(grps, i);
    }
    EqualGrps(a, b);
  }

  lemma {:induction false} ChkEnds(cs: Contents, c: Byte)
    requires Sound(cs)
    ensures var r := WithChk(cs, c);
            Sound(r) && Start(r, |r|) == Start(cs, |cs|) && (EndsEmpty(r) <==> EndsEmpty(cs))
  {
    ChkSound(cs, c);
  }

  lemma {:induction false} NoGroups(shifted: bool)
    ensures CeaGrps([], shifted) == [] && Assemblable([])
  {
    assert RenderGrps([]) == [] && ShiftGrps([]) == [];
  }

  // ---------------------------------------------------------------- what a pass leaves

  lemma {:induction false} WriteBlk(buf: seq<Byte>, k: nat, b: seq<Byte>, j: nat)
    requires |buf| == BUFFER_SIZE && IsBlk(b) && k <= 3 && j <= 3
    ensures Blk(Write(buf, k * BLOCK_SIZE, b), j) == if j == k then b else Blk(buf, j)
  {
  }

  lemma {:induction false} WriteSame(buf: seq<Byte>, k: nat, b: seq<Byte>)
    requires |buf| == BUFFER_SIZE && k <= 3 && b == Blk(buf, k)
    ensures Write(buf, k * BLOCK_SIZE, b) == buf
  {
    assert buf[..k * BLOCK_SIZE] + buf[k * BLOCK_SIZE..(k + 1) * BLOCK_SIZE] + buf[(k + 1) * BLOCK_SIZE..] == buf;
  }

  /** The number of extension blocks the base groups declare. */
  function Declared(base: seq<Grp>): Byte
    requires BaseGood(base)
  {
    base[0].inst[20]
  }

  /** An EDID as the editor holds it: base groups that fill their block, and CEA contents if the CEA
      block is valid or an extension is declared. */
  predicate Edid(base: seq<Grp>, cs: Contents, blocks: nat) {
    BaseGood(base) && blocks >= 1 && (cs == [] || Sound(cs)) && (blocks >= 2 || Declared(base) >= 1 ==> cs != [])
  }

  /** The contents of the CEA block after a pass over the buffer b. */
  function Passed(cs: Contents, b: seq<Byte>): Contents
    requires |b| == BUFFER_SIZE && (b[126] >= 1 ==> Sound(cs))
  {
    if b[126] >= 1 then WithChk(cs, b[255]) else cs
  }

  lemma {:induction false} DeclaredByte(base: seq<Grp>, b: seq<Byte>)
    requires BaseGood(base) && |b| == BUFFER_SIZE
    ensures BaseImage(base)[126] == Declared(base) && Blk(b, 0)[126] == b[126]
  {
    assert base[0].inst[20..22][0] == base[0].inst[20];
  }

  /** AssembleEDID succeeds if a valid CEA block fits, and leaves the two images. */
  lemma {:induction false} AssembledBlks(buf: seq<Byte>, base: seq<Grp>, cs: Contents, shifted: bool, blocks: nat)
    requires |buf| == BUFFER_SIZE && Edid(base, cs, blocks)
    ensures Assemblable(base) && Assemblable(CeaGrps(cs, shifted))
    ensures var (o, b) := Assemble(buf, base, CeaGrps(cs, shifted), blocks);
            (o <==> (blocks >= 2 ==> Fits(cs)))
            && (o ==> Blk(b, 0) == BaseImage(base) && b[126] == Declared(base))
            && (o && blocks >= 2 ==> Blk(b, 1) == CeaImg(cs, shifted))
  {
    AssemblesBase(buf, base);
    var b1 := Write(buf, 0, BaseImage(base));
    WriteBlk(buf, 0, BaseImage(base), 0);
    if cs == [] {
      NoGroups(shifted);
    } else {
      AssemblesEither(b1, cs, shifted);
      WriteBlk(b1, 1, CeaImg(cs, shifted), 0);
      WriteBlk(b1, 1, CeaImg(cs, shifted), 1);
    }
    DeclaredByte(base, Assemble(buf, base, CeaGrps(cs, shifted), blocks).1);
  }

  /** The checksum step on a buffer. */
  lemma {:induction false} SealedBlks(b: seq<Byte>)
    requires |b| == BUFFER_SIZE && b[126] <= 3
    ensures var r := SealExts(SealBlk(b, 0), b[126]);
            r[126] == b[126] && r[127] == SealBlk(b, 0)[127] && Blk(r, 0) == Sealed(Blk(b, 0))
            && (forall k {:trigger Blk(r, k)} :: 1 <= k <= 3 ==>
                  Blk(r, k) == if k <= b[126] then Sealed(Blk(b, k)) else Blk(b, k))
  {
    var b1 := SealBlk(b, 0);
    var r := SealExts(b1, b[126]);
    SealBlkAt(b, 0, 0);
    SealExtsAt(b1, b[126], 0);
    assert r[126] == Blk(r, 0)[126] && r[127] == Blk(r, 0)[127] && b1[127] == Blk(b1, 0)[127]
        && b[126] == Blk(b, 0)[126];
    forall k {:trigger Blk(r, k)} | 1 <= k <= 3
      ensures Blk(r, k) == if k <= b[126] then Sealed(Blk(b, k)) else Blk(b, k)
    {
      SealBlkAt(b, 0, k);
      SealExtsAt(b1, b[126], k);
    }
  }

  predicate SealedTo(b: seq<Byte>, n: nat)
    requires |b| == BUFFER_SIZE && n <= 3
  {
    forall k {:trigger Blk(b, k)} :: 0 <= k <= n ==> Sealed(Blk(b, k)) == Blk(b, k)
  }

  lemma {:induction false} SealedFor(b: seq<Byte>)
    requires |b| == BUFFER_SIZE && b[126] <= 3
    ensures SealedTo(SealExts(SealBlk(b, 0), b[126]), b[126])
  {
    var r := SealExts(SealBlk(b, 0), b[126]);
    SealedBlks(b);
    forall k {:trigger Blk(r, k)} | 0 <= k <= b[126] ensures Sealed(Blk(r, k)) == Blk(r, k) {
      SealedVerifies(Blk(b, k), 0);
    }
  }

  /** What a pass leaves in the buffer and the groups. */
  predicate Left(s: State, base: seq<Grp>, cs: Contents, shifted: bool, blocks: nat)
    requires |s.buf| == BUFFER_SIZE && Edid(base, cs, blocks)
  {
    && s.buf[126] == Declared(base) <= 3 && Blk(s.buf, 0) == Sealed(BaseImage(base))
    && s.base == Refresh(base, 21, s.buf[127]) && SealedTo(s.buf, s.buf[126])
    && s.cea == CeaGrps(Passed(cs, s.buf), shifted)
    && (blocks >= 2 ==> (
         Fits(cs) && Blk(s.buf, 1) == if s.buf[126] >= 1 then Sealed(CeaImg(cs, shifted)) else CeaImg(cs, shifted)))
  }

  lemma {:induction false} PassLeaves(buf: seq<Byte>, base: seq<Grp>, cs: Contents, shifted: bool, blocks: nat)
    requires |buf| == BUFFER_SIZE && Edid(base, cs, blocks)
    ensures Assemblable(base) && Assemblable(CeaGrps(cs, shifted))
    ensures Refreshable(buf, base, CeaGrps(cs, shifted), blocks)
    ensures var s := AssembleMain(buf, base, CeaGrps(cs, shifted), blocks);
            (s.ok <==> Declared(base) <= 3 && (blocks >= 2 ==> Fits(cs)))
            && (s.ok ==> Left(s, base, cs, shifted, blocks))
  {
    AssembledBlks(buf, base, cs, shifted, blocks);
    if cs != [] { HeaderKept(cs, shifted); }
    var (o, b) := Assemble(buf, base, CeaGrps(cs, shifted), blocks);
    if o && b[126] <= 3 {
      SealedBlks(b);
      SealedFor(b);
      if b[126] >= 1 { EitherChk(cs, shifted, SealExts(SealBlk(b, 0), b[126])[255]); }
    }
  }

  lemma {:induction false} HeaderKept(cs: Contents, shifted: bool)
    requires Sound(cs)
    ensures var grps := CeaGrps(cs, shifted);
            |grps| == |cs| && |grps[0].inst| == 32 && grps[0].tid == CHD
  {
    assert RenderGrps(cs)[0] == RenderAt(cs, 0) && ShiftGrps(RenderGrps(cs))[0] == ShiftAt(RenderGrps(cs), 0);
  }

  /** The groups left by a pass describe the blocks in the buffer. */
  lemma {:induction false} LeftBase(s: State, base: seq<Grp>)
    requires |s.buf| == BUFFER_SIZE && BaseGood(base)
    requires Blk(s.buf, 0) == Sealed(BaseImage(base)) && s.base == Refresh(base, 21, s.buf[127])
    ensures BaseGood(s.base) && BaseImage(s.base) == Blk(s.buf, 0) && Declared(s.base) == Declared(base)
  {
    RefreshedBase(base, s.buf[127]);
    assert s.buf[127] == Blk(s.buf, 0)[127];
  }

  lemma {:induction false} LeftCea(b: seq<Byte>, cs: Contents, shifted: bool)
    requires |b| == BUFFER_SIZE && Sound(cs)
    ensures var cs' := Passed(cs, b); Sound(cs') && (Fits(cs') <==> Fits(cs))
    ensures Blk(b, 1) == (if b[126] >= 1 then Sealed(CeaImg(cs, shifted)) else CeaImg(cs, shifted))
            ==> CeaImg(Passed(cs, b), shifted) == Blk(b, 1)
  {
    EitherChk(cs, shifted, b[255]);
    assert b[255] == Blk(b, 1)[127];
  }

  lemma {:induction false} AssembleSame(s: State, cs: Contents, shifted: bool, blocks: nat)
    requires |s.buf| == BUFFER_SIZE && Edid(s.base, cs, blocks) && BaseImage(s.base) == Blk(s.buf, 0)
    requires blocks >= 2 ==> CeaImg(cs, shifted) == Blk(s.buf, 1) && Fits(cs)
    ensures Assemblable(s.base) && Assemblable(CeaGrps(cs, shifted))
    ensures Assemble(s.buf, s.base, CeaGrps(cs, shifted), blocks) == (true, s.buf)
  {
    AssembledBlks(s.buf, s.base, cs, shifted, blocks);
    AssemblesBase(s.buf, s.base);
    WriteSame(s.buf, 0, BaseImage(s.base));
    if blocks >= 2 {
      AssemblesEither(s.buf, cs, shifted);
      WriteSame(s.buf, 1, CeaImg(cs, shifted));
    }
  }

  lemma {:induction false} SealSame(b: seq<Byte>)
    requires |b| == BUFFER_SIZE && b[126] <= 3 && SealedTo(b, b[126])
    ensures SealBlk(b, 0) == b && SealExts(b, b[126]) == b
  {
    SealBlkFixed(b, 0);
    SealExtsFixed(b, b[126]);
  }

  lemma {:induction false} RefreshSame(grps: seq<Grp>, at: nat, c: Byte)
    requires grps != [] && at < |grps[0].inst|
    ensures Refresh(Refresh(grps, at, c), at, c) == Refresh(grps, at, c)
  {
    var r := Refresh(grps, at, c);
    assert r[0].inst[at := c] == r[0].inst;
    assert r[0 := r[0]] == r;
  }

  /** The CEA groups a pass left are not changed by another one. */
  lemma {:induction false} PassedSame(cs: Contents, shifted: bool, b: seq<Byte>)
    requires Sound(cs) && |b| == BUFFER_SIZE
    ensures var grps := CeaGrps(Passed(cs, b), shifted);
            grps != [] && |grps[0].inst| == 32 && (b[126] >= 1 ==> Refresh(grps, 4, b[255]) == grps)
  {
    HeaderKept(cs, shifted);
    EitherChk(cs, shifted, b[255]);
    if b[126] >= 1 { RefreshSame(CeaGrps(cs, shifted), 4, b[255]); }
  }

  lemma {:induction false} SecondPass(s: State, base: seq<Grp>, cs: Contents, shifted: bool, blocks: nat)
    requires |s.buf| == BUFFER_SIZE && Edid(base, cs, blocks) && Left(s, base, cs, shifted, blocks) && s.ok
    ensures Assemblable(s.base) && Assemblable(s.cea) && Refreshable(s.buf, s.base, s.cea, blocks)
    ensures AssembleMain(s.buf, s.base, s.cea, blocks) == s
  {
    LeftBase(s, base);
    if cs != [] {
      LeftCea(s.buf, cs, shifted);
      PassedSame(cs, shifted, s.buf);
    }
    AssembleSame(s, Passed(cs, s.buf), shifted, blocks);
    SealSame(s.buf);
    RefreshSame(base, 21, s.buf[127]);
  }

  /** For every EDID, with or without an extension: the pass succeeds exactly if at most three
      extensions are declared and a valid CEA block fits; it leaves verifying checksums in all declared
      blocks; and a second pass changes neither the buffer nor the groups. */
  lemma {:induction false} SecondPassIsIdle(buf: seq<Byte>, base: seq<Grp>, cs: Contents, shifted: bool, blocks: nat)
    requires |buf| == BUFFER_SIZE && Edid(base, cs, blocks)
    ensures Assemblable(base) && Assemblable(CeaGrps(cs, shifted))
    ensures Refreshable(buf, base, CeaGrps(cs, shifted), blocks)
    ensures var s := AssembleMain(buf, base, CeaGrps(cs, shifted), blocks);
            (s.ok <==> Declared(base) <= 3 && (blocks >= 2 ==> Fits(cs)))
            && (s.ok ==> (
                 && (forall k :: 0 <= k <= Declared(base) ==> Verifies(Blk(s.buf, k)))
                 && Assemblable(s.base) && Assemblable(s.cea) && Refreshable(s.buf, s.base, s.cea, blocks)
                 && AssembleMain(s.buf, s.base, s.cea, blocks) == s))
  {
    PassLeaves(buf, base, cs, shifted, blocks);
    var s := AssembleMain(buf, base, CeaGrps(cs, shifted), blocks);
    if s.ok {
      SecondPass(s, base, cs, shifted, blocks);
      forall k | 0 <= k <= Declared(base) ensures Verifies(Blk(s.buf, k)) { VerifiesIffSealed(Blk(s.buf, k)); }
    }
  }

  // ---------------------------------------------------------------- the buffer in full

  lemma {:induction false} SealExtsRest(buf: seq<Byte>, n: nat)
    requires |buf| == BUFFER_SIZE && n <= 3
    ensures SealExts(buf, n)[512..] == buf[512..]
  {
    if n > 0 { SealExtsRest(buf, n - 1); }
  }

  /** What AssembleEDID leaves of each block, and behind them. */
  predicate Placed(b: seq<Byte>, buf: seq<Byte>, base: seq<Grp>, cs: Contents, shifted: bool, blocks: nat)
    requires |b| == |buf| == BUFFER_SIZE && BaseGood(base) && (blocks >= 2 ==> Sound(cs))
  {
    && Blk(b, 0) == BaseImage(base) && Blk(b, 1) == (if blocks >= 2 then CeaImg(cs, shifted) else Blk(buf, 1))
    && Blk(b, 2) == Blk(buf, 2) && Blk(b, 3) == Blk(buf, 3) && b[512..] == buf[512..]
  }

  lemma {:induction false} WriteRest(buf: seq<Byte>, k: nat, b: seq<Byte>)
    requires |buf| == BUFFER_SIZE && IsBlk(b) && k <= 3
    ensures Write(buf, k * BLOCK_SIZE, b)[512..] == buf[512..]
  {
  }

  lemma {:induction false} WritesPlaced(buf: seq<Byte>, base: seq<Grp>, cs: Contents, shifted: bool, blocks: nat)
    requires |buf| == BUFFER_SIZE && BaseGood(base) && (blocks >= 2 ==> Sound(cs))
    ensures var b1 := Write(buf, 0, BaseImage(base));
            var b2 := if blocks >= 2 then Write(b1, BLOCK_SIZE, CeaImg(cs, shifted)) else b1;
            Placed(b2, buf, base, cs, shifted, blocks)
  {
    var b1 := Write(buf, 0, BaseImage(base));
    WriteRest(buf, 0, BaseImage(base));
    forall k | 0 <= k <= 3 ensures Blk(b1, k) == if k == 0 then BaseImage(base) else Blk(buf, k) {
      WriteBlk(buf, 0, BaseImage(base), k);
    }
    if blocks >= 2 {
      var img := CeaImg(cs, shifted);
      WriteRest(b1, 1, img);
      forall k | 0 <= k <= 3 ensures Blk(Write(b1, 1 * BLOCK_SIZE, img), k) == if k == 1 then img else Blk(b1, k) {
        WriteBlk(b1, 1, img, k);
      }
    }
  }

  lemma {:induction false} AssembledPlaced(buf: seq<Byte>, base: seq<Grp>, cs: Contents, shifted: bool, blocks: nat)
    requires |buf| == BUFFER_SIZE && Edid(base, cs, blocks)
    ensures Assemblable(base) && Assemblable(CeaGrps(cs, shifted))
    ensures var (o, b) := Assemble(buf, base, CeaGrps(cs, shifted), blocks);
            o ==> Placed(b, buf, base, cs, shifted, blocks)
  {
    AssembledBlks(buf, base, cs, shifted, blocks);
    AssemblesBase(buf, base);
    WritesPlaced(buf, base, cs, shifted, blocks);
    if blocks >= 2 { AssemblesEither(Write(buf, 0, BaseImage(base)), cs, shifted); }
  }

  /** Block k after the pass: its bytes up to the checksum are those of b, and the checksum is renewed in the
      base block and in as many extensions as are declared. */
  predicate Renewed(r: seq<Byte>, b: seq<Byte>, n: nat, k: nat)
    requires |r| == |b| == BUFFER_SIZE && k <= 3
  {
    if k <= n then Blk(r, k)[..127] == Blk(b, k)[..127] && Sum(Blk(r, k)) % 256 == 0 else Blk(r, k) == Blk(b, k)
  }

  lemma {:induction false} SealsRenew(b: seq<Byte>, k: nat)
    requires |b| == BUFFER_SIZE && b[126] <= 3 && k <= 3
    ensures Renewed(SealExts(SealBlk(b, 0), b[126]), b, b[126], k)
  {
    SealedBlks(b);
    SealedVerifies(Blk(b, k), 0);
  }

  /** A successful pass in full: the images of base block and CEA block, everything else in the buffer as it
      was, renewed checksums in the declared blocks only, and their copies in the two header groups. */
  lemma {:induction false} PassInFull(buf: seq<Byte>, base: seq<Grp>, cs: Contents, shifted: bool, blocks: nat)
    returns (b: seq<Byte>)
    requires |buf| == BUFFER_SIZE && Edid(base, cs, blocks) && Declared(base) <= 3 && (blocks >= 2 ==> Fits(cs))
    ensures Assemblable(base) && Assemblable(CeaGrps(cs, shifted))
    ensures Refreshable(buf, base, CeaGrps(cs, shifted), blocks)
    ensures |b| == BUFFER_SIZE && Placed(b, buf, base, cs, shifted, blocks)
    ensures var (s, n) := (AssembleMain(buf, base, CeaGrps(cs, shifted), blocks), Declared(base));
            && s.ok && s.buf[512..] == buf[512..] && (forall k :: 0 <= k <= 3 ==> Renewed(s.buf, b, n, k))
            && |s.base| == |base| > 0 && |s.base[0].inst| == 32 && s.base[0].inst[21] == s.buf[127]
            && (n >= 1 ==> s.cea != [] && |s.cea[0].inst| == 32 && s.cea[0].inst[4] == s.buf[255])
  {
    PassLeaves(buf, base, cs, shifted, blocks);
    AssembledBlks(buf, base, cs, shifted, blocks);
    AssembledPlaced(buf, base, cs, shifted, blocks);
    b := Assemble(buf, base, CeaGrps(cs, shifted), blocks).1;
    SealExtsRest(SealBlk(b, 0), Declared(base));
    forall k | 0 <= k <= 3 ensures Renewed(SealExts(SealBlk(b, 0), b[126]), b, b[126], k) { SealsRenew(b, k); }
    SealedBlks(b);
    if cs != [] { HeaderKept(cs, shifted); }
  }
}
