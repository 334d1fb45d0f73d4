/** EDID_cl::ParseEDID_CEA in strict mode: the CTA-861 block cut into header, data blocks, detailed
    timings and padding. */
module CeaParser {
  import opened Bytes
  import opened GroupTree
  import opened GroupContent
  import opened DataBlocks
  import opened Assembler

  // ---------------------------------------------------------------- what the loops compute

  /** The rest of the EDID buffer from the extension block on. */
  predicate IsExt(ext: seq<Byte>) { |ext| == BUFFER_SIZE - BLOCK_SIZE }

  /** The 16-bit pixel clock, low byte first. */
  function PixClk(b: seq<Byte>, at: nat): nat
    requires at + 1 < |b|
  {
    (b[at] as int) + 256 * (b[at + 1] as int)
  }

  function HeaderGrp(ext: seq<Byte>): GrpC
    requires |ext| >= BLOCK_SIZE
  {
    GrpC(CHD, ext[..4] + [ext[127]] + Zeros(27), 4, 0, [], 0)
  }

  function DtdAt(ext: seq<Byte>, at: nat): (c: GrpC)
    requires at + 18 <= |ext|
    ensures IsDtd(c)
  {
    GrpC(DTD, ext[at..at + 18] + Zeros(14), 0, 18, [], 0)
  }

  function Cons(c: GrpC, rest: Option<Contents>): Option<Contents> {
    match rest case None => None case Some(cs) => Some([c] + cs)
  }

  /** The data blocks from at on; the loop ends at or behind the DTD offset d, or behind the block. */
  function ParseBlocks(ext: seq<Byte>, at: nat, d: Byte): Option<Contents>
    requires IsExt(ext)
    decreases BLOCK_SIZE - at
  {
    if at >= d || at >= BLOCK_SIZE then if at == d then Some([]) else None
    else
      var n := BlkLen(ext[at]);
      if d < at + n then None
      else match StrictInit(ext[at..at + 1 + n])
        case None => None
        case Some(c) => Cons(c, ParseBlocks(ext, at + 1 + n, d))
  }

  /** Inside the block a record ends before the checksum.  The bytes left behind the end of the block
      are a negative number, which the unsigned division of MaxDtd turns into a huge one: there only
      the buffer ends the records. */
  predicate RecordFits(at: nat) {
    at + 18 <= if at < BLOCK_SIZE then CEA_SPACE else BUFFER_SIZE - BLOCK_SIZE
  }

  /** The 18-byte records with a pixel clock from at on, as far as they fit. */
  function DtdRun(ext: seq<Byte>, at: nat): Contents
    requires IsExt(ext)
    decreases BUFFER_SIZE - at
  {
    if !RecordFits(at) || PixClk(ext, at) == 0 then [] else [DtdAt(ext, at)] + DtdRun(ext, at + 18)
  }

  /** Behind the block only a zero pixel clock ends the run at at: without one the loop goes on behind
      the buffer. */
  predicate RunStops(ext: seq<Byte>, at: nat)
    requires IsExt(ext)
  {
    at >= BLOCK_SIZE ==> at + 2 <= |ext| && PixClk(ext, at) == 0
  }

  predicate ZeroFrom(ext: seq<Byte>, at: nat)
    requires IsExt(ext)
  {
    forall k :: at <= k < CEA_SPACE ==> ext[k] == 0
  }

  predicate HeaderOk(ext: seq<Byte>)
    requires IsExt(ext)
  {
    ext[0] == 2 && 1 <= ext[1] <= 3
  }

  function NumDtd(ext: seq<Byte>): nat
    requires IsExt(ext)
  {
    ext[3] % 16
  }

  /** The data blocks are accepted, and the timings leave the buffer. */
  predicate Leaves(ext: seq<Byte>, bs: Option<Contents>, ds: Contents)
    requires IsExt(ext)
  {
    HeaderOk(ext) && bs.Some? && !RunStops(ext, ext[2] + 18 * |ds|)
  }

  predicate LeavesBuffer(ext: seq<Byte>)
    requires IsExt(ext)
  {
    ext[2] >= BLOCK_SIZE && Leaves(ext, ParseBlocks(ext, 4, ext[2]), DtdRun(ext, ext[2]))
  }

  /** The data blocks are accepted: what is left to test with the run ds of timings. */
  function Ended(ext: seq<Byte>, bs: Contents, ds: Contents): Option<Contents>
    requires IsExt(ext)
  {
    var at := ext[2] + 18 * |ds|;
    if |ds| < NumDtd(ext) || !RunStops(ext, at) || !ZeroFrom(ext, at) then None
    else Some([HeaderGrp(ext)] + bs + ds)
  }

  /** The groups of the block; None also if the source would read behind the buffer. */
  function ParseCea(ext: seq<Byte>): Option<Contents>
    requires IsExt(ext)
  {
    var d := ext[2];
    if !HeaderOk(ext) || 1 <= d <= 3 then None
    else if d == 0 then Some([HeaderGrp(ext)])
    else match ParseBlocks(ext, 4, d)
      case None => None
      case Some(bs) => Ended(ext, bs, DtdRun(ext, d))
  }

  /** The offset in its own block of the buffer. */
  function RelOf(at: nat): nat { (BLOCK_SIZE + at) % BLOCK_SIZE }

  /** A group as the parser leaves it. */
  function Shown(c: GrpC, at: nat, i: nat): Grp {
    Grp(c.tid, c.inst, c.hdrSz, Total(c), BLOCK_SIZE + at, RelOf(at), i, RenderSubs(c, BLOCK_SIZE + at),
        Payload(c), Cap(c.tid) - Payload(c))
  }

  /** Group i as the parser leaves it. */
  function ShownAt(cs: Contents, i: nat): Grp
    requires i < |cs|
  {
    Shown(cs[i], Start(cs, i), i)
  }

  function ShownGrps(cs: Contents): (r: seq<Grp>)
    ensures |r| == |cs| && forall i {:trigger r[i]} :: 0 <= i < |r| ==> r[i] == ShownAt(cs, i)
  {
    seq(|cs|, i requires 0 <= i < |cs| => ShownAt(cs, i))
  }

  /** Offsets in the extension block itself are the rendered ones. */
  lemma {:induction false} ShownNear(cs: Contents)
    requires Start(cs, |cs|) <= CEA_SPACE
    ensures ShownGrps(cs) == RenderGrps(cs)
  {
    var (a, b) := (ShownGrps(cs), RenderGrps(cs));
    forall i {:trigger a[i]} | 0 <= i < |cs| ensures a[i] == b[i] {
      StartMono(cs, i, |cs|);
      ShownInBlock(cs[i], Start(cs, i), i);
    }
    EqualGrps(a, b);
  }

  lemma {:induction false} ShownInBlock(c: GrpC, at: nat, i: nat)
    requires at < BLOCK_SIZE
    ensures Shown(c, at, i) == RenderGrp(c, at, i)
  {
    InBlock(at);
  }

  function Map(r: Option<Contents>): Option<seq<Grp>> {
    match r case None => None case Some(cs) => Some(ShownGrps(cs))
  }

  /** The tree built from the contents.  A header without any data leaves the counters alone. */
  function ParsedTree(ext: seq<Byte>, stale: Tree): Option<Tree>
    requires IsExt(ext)
  {
    match ParseCea(ext)
    case None => None
    case Some(cs) =>
      Some(if ext[2] == 0 then Tree(ShownGrps(cs), stale.used, stale.free) else Calc(ShownGrps(cs)))
  }

  // ---------------------------------------------------------------- appending groups

  lemma {:induction false} StartSnoc(cs: Contents, c: GrpC, n: nat)
    requires n <= |cs|
    ensures Start(cs + [c], n) == Start(cs, n)
  {
    StartSame(cs + [c], cs, n);
  }

  lemma {:induction false} Append(cs: Contents, c: GrpC)
    ensures ShownGrps(cs + [c]) == ShownGrps(cs) + [Shown(c, Start(cs, |cs|), |cs|)]
    ensures Start(cs + [c], |cs| + 1) == Start(cs, |cs|) + Width(c)
  {
    AppendGrps(cs, cs + [c], c, |cs|, Shown(c, Start(cs, |cs|), |cs|));
    AppendAt(cs, cs + [c], c, |cs|);
  }

  lemma {:induction false} AppendGrps(cs: Contents, d: Contents, c: GrpC, n: nat, g: Grp)
    requires d == cs + [c] && n == |cs| && g == Shown(c, Start(cs, n), n)
    ensures ShownGrps(d) == ShownGrps(cs) + [g]
  {
    var a, b := ShownGrps(d), ShownGrps(cs) + [g];
    forall i {:trigger a[i]} | 0 <= i < n + 1 ensures a[i] == b[i] { AppendAt(cs, d, c, i); }
    EqualGrps(a, b);
  }

  lemma {:induction false} AppendAt(cs: Contents, d: Contents, c: GrpC, i: nat)
    requires i <= |cs| && d == cs + [c]
    ensures d[i] == (if i < |cs| then cs[i] else c) && Start(d, i) == Start(cs, i)
  {
    StartSnoc(cs, c, i);
  }

  /** The counters of the groups shown. */
  lemma {:induction false} ShownBytes(cs: Contents)
    ensures GrpBytes(ShownGrps(cs), |cs|) == Start(cs, |cs|)
  {
    var grps := ShownGrps(cs);
    forall k {:trigger grps[k]} | 0 <= k < |cs| ensures Own(grps[k]) == Width(cs[k]) {
      ShownWidth(cs[k], Start(cs, k), k, grps[k]);
    }
    BytesAreWidths(grps, cs, |cs|);
  }

  lemma {:induction false} ShownWidth(c: GrpC, at: nat, i: nat, g: Grp)
    requires g == Shown(c, at, i)
    ensures Own(g) == Width(c)
  {
    WidthParts(c, at, i);
  }

  predicate AllDtds(ds: Contents) {
    forall k {:trigger ds[k]} :: 0 <= k < |ds| ==> IsDtd(ds[k])
  }

  /** Offsets of the timings at the end of the contents. */
  lemma {:induction false} DtdStarts(front: Contents, ds: Contents, j: nat)
    requires AllDtds(ds) && j <= |ds|
    ensures Start(front + ds, |front| + j) == Start(front, |front|) + 18 * j
  {
    var cs := front + ds;
    if j == 0 {
      StartSame(cs, front, |front|);
    } else {
      DtdStarts(front, ds, j - 1);
      assert cs[|front| + j - 1] == ds[j - 1] && IsDtd(ds[j - 1]);
    }
  }

  // ---------------------------------------------------------------- data blocks

  function Joined(done: Contents, rest: Option<Contents>): Option<Contents> {
    match rest case None => None case Some(cs) => Some(done + cs)
  }

  lemma {:induction false} JoinCons(done: Contents, c: GrpC, rest: Option<Contents>)
    ensures Joined(done, Cons(c, rest)) == Joined(done + [c], rest)
  {
    if rest.Some? { assert done + ([c] + rest.value) == (done + [c]) + rest.value; }
  }

  /** The loop stands at at with the groups cs, and will end with whole. */
  predicate BlocksFrom(whole: Option<Contents>, ext: seq<Byte>, cs: Contents, at: nat, d: Byte)
    requires IsExt(ext)
  {
    Start(cs, |cs|) == at && whole == Joined(cs, ParseBlocks(ext, at, d))
  }

  lemma {:induction false} BlocksEnd(whole: Option<Contents>, ext: seq<Byte>, cs: Contents, at: nat, d: Byte)
    requires IsExt(ext) && BlocksFrom(whole, ext, cs, at, d)
    ensures at >= d || at >= BLOCK_SIZE ==> whole == if at == d then Some(cs) else None
    ensures at < d && at < BLOCK_SIZE && d < at + BlkLen(ext[at]) ==> whole == None
  {
    assert cs + [] == cs;
  }

  lemma {:induction false} BlockHere(ext: seq<Byte>, at: nat, b: seq<Byte>)
    requires IsExt(ext) && at < BLOCK_SIZE && b == ext[at..at + 1 + BlkLen(ext[at])]
    ensures WholeBlock(b) && |b| == 1 + BlkLen(ext[at])
  {
  }

  lemma {:induction false} BlocksUnfold(ext: seq<Byte>, at: nat, d: Byte, b: seq<Byte>)
    requires IsExt(ext) && at < d && at < BLOCK_SIZE && at + BlkLen(ext[at]) <= d
    requires b == ext[at..at + 1 + BlkLen(ext[at])]
    ensures WholeBlock(b)
    ensures StrictInit(b) == None ==> ParseBlocks(ext, at, d) == None
    ensures StrictInit(b).Some? ==> ParseBlocks(ext, at, d) == Cons(StrictInit(b).value, ParseBlocks(ext, at + |b|, d))
  {
    BlockHere(ext, at, b);
  }

  lemma {:induction false} BlockAdded(whole: Option<Contents>, ext: seq<Byte>, cs: Contents, at: nat, d: Byte,
      c: GrpC, n: nat)
    requires IsExt(ext) && BlocksFrom(whole, ext, cs, at, d)
    requires ParseBlocks(ext, at, d) == Cons(c, ParseBlocks(ext, at + n, d)) && Width(c) == n
    ensures BlocksFrom(whole, ext, cs + [c], at + n, d)
    ensures ShownGrps(cs + [c]) == ShownGrps(cs) + [Shown(c, at, |cs|)]
  {
    JoinCons(cs, c, ParseBlocks(ext, at + n, d));
    Append(cs, c);
  }

  lemma {:induction false} BlockTaken(whole: Option<Contents>, ext: seq<Byte>, cs: Contents, at: nat, d: Byte,
      b: seq<Byte>)
    returns (c: Option<GrpC>)
    requires IsExt(ext) && BlocksFrom(whole, ext, cs, at, d)
    requires at < d && at < BLOCK_SIZE && at + BlkLen(ext[at]) <= d && b == ext[at..at + 1 + BlkLen(ext[at])]
    ensures WholeBlock(b) && c == StrictInit(b) && (c == None ==> whole == None)
    ensures c.Some? ==> BlocksFrom(whole, ext, cs + [c.value], at + |b|, d)
    ensures c.Some? ==> ShownGrps(cs + [c.value]) == ShownGrps(cs) + [Shown(c.value, at, |cs|)]
  {
    c := StrictInit(b);
    BlockHere(ext, at, b);
    if c.Some? { BlockAccepted(whole, ext, cs, at, d, b, c.value); } else { BlockRefused(whole, ext, cs, at, d, b); }
  }

  lemma {:induction false} BlockRefused(whole: Option<Contents>, ext: seq<Byte>, cs: Contents, at: nat, d: Byte,
      b: seq<Byte>)
    requires IsExt(ext) && BlocksFrom(whole, ext, cs, at, d)
    requires at < d && at < BLOCK_SIZE && at + BlkLen(ext[at]) <= d && b == ext[at..at + 1 + BlkLen(ext[at])]
    requires WholeBlock(b) && StrictInit(b) == None
    ensures whole == None
  {
    BlocksUnfold(ext, at, d, b);
  }

  lemma {:induction false} BlockAccepted(whole: Option<Contents>, ext: seq<Byte>, cs: Contents, at: nat, d: Byte,
                                         b: seq<Byte>, c: GrpC)
    requires IsExt(ext) && BlocksFrom(whole, ext, cs, at, d)
    requires at < d && at < BLOCK_SIZE && at + BlkLen(ext[at]) <= d && b == ext[at..at + 1 + BlkLen(ext[at])]
    requires WholeBlock(b) && StrictInit(b) == Some(c)
    ensures BlocksFrom(whole, ext, cs + [c], at + |b|, d)
    ensures ShownGrps(cs + [c]) == ShownGrps(cs) + [Shown(c, at, |cs|)]
  {
    BlocksUnfold(ext, at, d, b);
    StrictKeepsBytes(b);
    BlockAdded(whole, ext, cs, at, d, c, |b|);
  }

  /** ParseCEA_DBC: the group of one block, at its offset and index. */
  method ParseDbc(b: seq<Byte>, at: nat, idx: nat, ghost c: Option<GrpC>) returns (g: Option<Grp>)
    requires WholeBlock(b) && c == StrictInit(b)
    ensures g == match c case None => None case Some(c) => Some(Shown(c, at, idx))
  {
    var r := InitBlock(b, at);
    g := if r == None then None else Some(r.value.(rel := RelOf(at), idx := idx));
  }

  /** The bytes of the block at pinst. */
  method ReadBlock(buff: array<Byte>, pinst: nat) returns (b: seq<Byte>)
    requires buff.Length == BUFFER_SIZE && pinst < BLOCK_SIZE
    ensures var ext := buff[BLOCK_SIZE..];
            b == ext[pinst..pinst + 1 + BlkLen(ext[pinst])] && |b| == 1 + BlkLen(ext[pinst])
  {
    assert buff[BLOCK_SIZE..][pinst] == buff[BLOCK_SIZE + pinst];
    var blklen := BlkLen(buff[BLOCK_SIZE + pinst]);
    b := buff[BLOCK_SIZE + pinst..BLOCK_SIZE + pinst + 1 + blklen];
  }

  /** One turn of the loop: the collision test, then ParseCEA_DBC. */
  method ParseOne(buff: array<Byte>, pinst: nat, d: Byte, grps: seq<Grp>, ghost cs: Contents,
      ghost whole: Option<Contents>)
    returns (r: Option<seq<Grp>>, ghost next: Contents, at: nat)
    requires buff.Length == BUFFER_SIZE && pinst < BLOCK_SIZE && pinst < d
    requires grps == ShownGrps(cs) && BlocksFrom(whole, buff[BLOCK_SIZE..], cs, pinst, d)
    ensures r == None ==> whole == None
    ensures r.Some? ==> pinst < at && r.value == ShownGrps(next) && BlocksFrom(whole, buff[BLOCK_SIZE..], next, at, d)
  {
    ghost var ext := buff[BLOCK_SIZE..];
    var b := ReadBlock(buff, pinst);
    at, next := pinst + |b|, cs;
    if d < pinst + |b| - 1 {
      BlocksEnd(whole, ext, cs, pinst, d);
      return None, cs, at;
    }
    ghost var c := BlockTaken(whole, ext, cs, pinst, d, b);
    var g := ParseDbc(b, pinst, |grps|, c);
    if g == None { return None, cs, at; }
    next := cs + [c.value];
    r := Some(grps + [g.value]);
  }

  /** The do-while loop over the data block collection; entered only if d is behind the header. */
  method ParseDbcs(buff: array<Byte>, d: Byte, grps0: seq<Grp>, ghost cs0: Contents)
    returns (r: Option<seq<Grp>>, ghost cs: Contents)
    requires buff.Length == BUFFER_SIZE && d >= 4
    requires grps0 == ShownGrps(cs0) && Start(cs0, |cs0|) == 4
    ensures match Joined(cs0, ParseBlocks(buff[BLOCK_SIZE..], 4, d))
      case None => r == None
      case Some(all) => r == Some(ShownGrps(all)) && cs == all && Start(all, |all|) == d
  {
    ghost var ext := buff[BLOCK_SIZE..];
    ghost var whole := Joined(cs0, ParseBlocks(ext, 4, d));
    var pinst: nat := 4;
    r, cs := Some(grps0), cs0;
    while pinst < d && pinst < BLOCK_SIZE
      invariant r == Some(ShownGrps(cs)) && BlocksFrom(whole, ext, cs, pinst, d)
      decreases BLOCK_SIZE - pinst
    {
      r, cs, pinst := ParseOne(buff, pinst, d, r.value, cs, whole);
      if r == None { return; }
    }
    BlocksEnd(whole, ext, cs, pinst, d);
    if pinst != d { r := None; }
  }

  // ---------------------------------------------------------------- detailed timings

  /** Values of the unsigned size type and of a 32-bit integer. */
  const SIZE_RANGE := 0x1_0000_0000_0000_0000
  const INT_RANGE := 0x1_0000_0000

  /** space_left / sizeof(dtd_t): an unsigned division, cut to 32 bits. */
  function MaxDtd(space: int): nat {
    ((if space >= 0 then space else SIZE_RANGE + space) / 18) % INT_RANGE
  }

  /** Behind the block the quotient is huge, and positive also as a signed number. */
  lemma {:induction false} MaxDtdBehind(space: int)
    requires -256 <= space < 0
    ensures 0x38E3_8E29 < MaxDtd(space) <= 0x38E3_8E38
  {
    var q := (SIZE_RANGE + space) / 18;
    assert 0x0E38_E38E_38E3_8E29 < q <= 0x0E38_E38E_38E3_8E38;
    assert q == 0x0E38_E38E * INT_RANGE + (q - 0x0E38_E38E * INT_RANGE);
  }

  /** How many records the loops may take from offset d on: those that fit, or more than there are. */
  predicate MayTake(d: nat, n: nat) {
    if d < BLOCK_SIZE then n == (CEA_SPACE - d) / 18 else n > BUFFER_SIZE
  }

  method CountDtds(d: Byte) returns (n: nat)
    ensures n == MaxDtd(CEA_SPACE - d) && MayTake(d, n)
  {
    n := MaxDtd(BLOCK_SIZE - d - 1);
    if d >= BLOCK_SIZE { MaxDtdBehind(BLOCK_SIZE - d - 1); }
  }

  lemma {:induction false} RunFits(ext: seq<Byte>, at: nat)
    requires IsExt(ext)
    ensures var n := |DtdRun(ext, at)|;
            n > 0 ==> at + 18 * n <= (if at < BLOCK_SIZE then CEA_SPACE else |ext|)
    ensures forall k {:trigger DtdRun(ext, at)[k]} :: 0 <= k < |DtdRun(ext, at)| ==> IsDtd(DtdRun(ext, at)[k])
    decreases BUFFER_SIZE - at
  {
    if RecordFits(at) && PixClk(ext, at) != 0 { RunFits(ext, at + 18); }
  }

  /** The group of a DTD, appended at its offset. */
  method AppendDtd(buff: array<Byte>, at: nat, grps: seq<Grp>, ghost cs: Contents) returns (r: seq<Grp>)
    requires buff.Length == BUFFER_SIZE && RecordFits(at)
    requires grps == ShownGrps(cs) && Start(cs, |cs|) == at
    ensures var c := DtdAt(buff[BLOCK_SIZE..], at);
            r == ShownGrps(cs + [c]) && Start(cs + [c], |cs| + 1) == at + 18
  {
    var data := buff[BLOCK_SIZE + at..BLOCK_SIZE + at + 18] + Zeros(14);
    ghost var c := DtdAt(buff[BLOCK_SIZE..], at);
    assert c.inst == data;
    Append(cs, c);
    ShownDtd(c, at, |cs|);
    r := grps + [Grp(DTD, data, 0, 18, BLOCK_SIZE + at, RelOf(at), |grps|, [], 0, Cap(DTD))];
  }

  lemma {:induction false} ShownDtd(c: GrpC, at: nat, i: nat)
    requires IsDtd(c)
    ensures Shown(c, at, i) == Grp(DTD, c.inst, 0, 18, BLOCK_SIZE + at, RelOf(at), i, [], 0, Cap(DTD)) && Width(c) == 18
  {
    assert RenderSubs(c, BLOCK_SIZE + at) == [];
  }

  /** The loops stand at at with the groups cs, and will end with whole. */
  predicate RunFrom(whole: Contents, ext: seq<Byte>, cs: Contents, at: nat)
    requires IsExt(ext)
  {
    Start(cs, |cs|) == at && whole == cs + DtdRun(ext, at)
  }

  lemma {:induction false} DtdTaken(whole: Contents, ext: seq<Byte>, cs: Contents, at: nat)
    requires IsExt(ext) && RunFrom(whole, ext, cs, at) && RecordFits(at) && PixClk(ext, at) != 0
    ensures Start(cs + [DtdAt(ext, at)], |cs| + 1) == at + 18 ==> RunFrom(whole, ext, cs + [DtdAt(ext, at)], at + 18)
  {
    assert cs + DtdRun(ext, at) == cs + [DtdAt(ext, at)] + DtdRun(ext, at + 18);
  }

  lemma {:induction false} DtdsEnd(whole: Contents, ext: seq<Byte>, cs: Contents, at: nat)
    requires IsExt(ext) && RunFrom(whole, ext, cs, at) && (!RecordFits(at) || PixClk(ext, at) == 0)
    ensures whole == cs
  {
    assert cs + [] == cs;
  }

  /** The pixel clock of the record at at. */
  method ReadClock(buff: array<Byte>, at: nat) returns (pix: nat)
    requires buff.Length == BUFFER_SIZE && at + 2 <= BUFFER_SIZE - BLOCK_SIZE
    ensures pix == PixClk(buff[BLOCK_SIZE..], at)
  {
    pix := (buff[BLOCK_SIZE + at] as int) + 256 * (buff[BLOCK_SIZE + at + 1] as int);
  }

  /** The record at at becomes one more group. */
  method TakeDtd(buff: array<Byte>, at: nat, grps: seq<Grp>, ghost cs: Contents, ghost whole: Contents)
    returns (r: seq<Grp>, ghost next: Contents)
    requires buff.Length == BUFFER_SIZE && RecordFits(at) && PixClk(buff[BLOCK_SIZE..], at) != 0
    requires grps == ShownGrps(cs) && RunFrom(whole, buff[BLOCK_SIZE..], cs, at)
    ensures r == ShownGrps(next) && |next| == |cs| + 1 && RunFrom(whole, buff[BLOCK_SIZE..], next, at + 18)
  {
    r := AppendDtd(buff, at, grps, cs);
    next := cs + [DtdAt(buff[BLOCK_SIZE..], at)];
    DtdTaken(whole, buff[BLOCK_SIZE..], cs, at);
  }

  /** The mandatory DTDs. */
  method NativeDtds(buff: array<Byte>, d: Byte, numDtd: nat, grps0: seq<Grp>, ghost cs0: Contents,
      ghost whole: Contents)
    returns (r: Option<seq<Grp>>, at: nat, left: nat, ghost cs: Contents)
    requires buff.Length == BUFFER_SIZE && numDtd < 16
    requires grps0 == ShownGrps(cs0) && RunFrom(whole, buff[BLOCK_SIZE..], cs0, d)
    ensures r == None <==> |whole| < |cs0| + numDtd
    ensures r == None ==> |whole| >= |cs0| && RunStops(buff[BLOCK_SIZE..], d + 18 * (|whole| - |cs0|))
    ensures r.Some? ==> r.value == ShownGrps(cs) && RunFrom(whole, buff[BLOCK_SIZE..], cs, at) && Left(at, left)
                        && at == d + 18 * (|cs| - |cs0|)
  {
    ghost var ext := buff[BLOCK_SIZE..];
    var maxDtd := CountDtds(d);
    RunFits(ext, d);
    r, at, left, cs := Some(grps0), d, maxDtd, cs0;
    if maxDtd < numDtd && numDtd > 0 {
      TooFew(d, maxDtd, numDtd, |DtdRun(ext, d)|);
      return None, at, left, cs;
    }
    var itd := 0;
    while itd < numDtd
      invariant 0 <= itd <= numDtd && at == d + 18 * itd && |cs| == |cs0| + itd && MayTake(d, left + itd)
      invariant numDtd - itd <= left && r == Some(ShownGrps(cs)) && RunFrom(whole, ext, cs, at)
    {
      LeftAt(d, itd, left);
      var pix := ReadClock(buff, at);
      if pix == 0 {
        DtdsEnd(whole, ext, cs, at);
        return None, at, left, cs;
      }
      var grps;
      grps, cs := TakeDtd(buff, at, r.value, cs, whole);
      r := Some(grps);
      at, left, itd := at + 18, left - 1, itd + 1;
    }
    LeftMore(d, itd, left);
  }

  /** Fewer records fit than are declared: this happens inside the block only. */
  lemma {:induction false} TooFew(d: nat, max: nat, numDtd: nat, n: nat)
    requires MayTake(d, max) && max < numDtd < 16
    requires n > 0 ==> d + 18 * n <= (if d < BLOCK_SIZE then CEA_SPACE else BUFFER_SIZE - BLOCK_SIZE)
    ensures d + 18 * n < BLOCK_SIZE && n < numDtd
  {
  }

  /** While records are left, one fits at the next position. */
  lemma {:induction false} LeftAt(d: nat, itd: nat, left: nat)
    requires MayTake(d, left + itd) && itd < 16 && left > 0 && d < 2 * BLOCK_SIZE
    ensures RecordFits(d + 18 * itd)
  {
  }

  /** The records left are those that fit. */
  predicate Left(at: nat, left: nat) {
    if at < BLOCK_SIZE then left == (CEA_SPACE - at) / 18 else left > BUFFER_SIZE - 16
  }

  lemma {:induction false} LeftMore(d: nat, itd: nat, left: nat)
    requires MayTake(d, left + itd) && itd < 16
    ensures Left(d + 18 * itd, left)
  {
  }

  /** The further DTDs; outside says that the loop left the buffer. */
  method MoreDtds(buff: array<Byte>, maxDtd: nat, grps0: seq<Grp>, at0: nat, ghost cs0: Contents, ghost whole: Contents)
    returns (grps: seq<Grp>, at: nat, outside: bool, ghost cs: Contents)
    requires buff.Length == BUFFER_SIZE && Left(at0, maxDtd)
    requires grps0 == ShownGrps(cs0) && RunFrom(whole, buff[BLOCK_SIZE..], cs0, at0)
    ensures cs == whole && |whole| >= |cs0| && at == at0 + 18 * (|whole| - |cs0|)
    ensures outside == !RunStops(buff[BLOCK_SIZE..], at)
    ensures grps == ShownGrps(whole) && Start(whole, |whole|) == at
  {
    ghost var ext := buff[BLOCK_SIZE..];
    grps, at, outside, cs := grps0, at0, false, cs0;
    var itd := 0;
    while itd < maxDtd
      invariant 0 <= itd <= maxDtd && at == at0 + 18 * itd && |cs| == |cs0| + itd
      invariant itd > 0 ==> at <= if at0 < BLOCK_SIZE then CEA_SPACE else BUFFER_SIZE
      invariant grps == ShownGrps(cs) && RunFrom(whole, ext, cs, at)
    {
      if at + 2 > BUFFER_SIZE - BLOCK_SIZE { outside := true; break; }
      var pix := ReadClock(buff, at);
      if pix == 0 { break; }
      MoreAt(at0, itd, maxDtd);
      if !RecordFits(at) { outside := true; break; }
      grps, cs := TakeDtd(buff, at, grps, cs, whole);
      at, itd := at + 18, itd + 1;
    }
    if itd == maxDtd { NoneLeft(at0, itd); }
    DtdsEnd(whole, ext, cs, at);
  }

  lemma {:induction false} MoreAt(at: nat, itd: nat, left: nat)
    requires Left(at, left) && itd < left
    ensures at < BLOCK_SIZE ==> RecordFits(at + 18 * itd)
  {
  }

  lemma {:induction false} NoneLeft(at: nat, itd: nat)
    requires Left(at, itd) && (itd > 0 ==> at + 18 * itd <= if at < BLOCK_SIZE then CEA_SPACE else BUFFER_SIZE)
    ensures at + 18 * itd < BLOCK_SIZE && !RecordFits(at + 18 * itd)
  {
  }

  /** The mandatory DTDs, then as many more as there are; outside says that the loop left the buffer. */
  method ParseDtds(buff: array<Byte>, d: Byte, numDtd: nat, grps0: seq<Grp>, ghost cs0: Contents)
    returns (r: Option<seq<Grp>>, at: nat, outside: bool, ghost cs: Contents)
    requires buff.Length == BUFFER_SIZE && numDtd < 16
    requires grps0 == ShownGrps(cs0) && Start(cs0, |cs0|) == d
    ensures outside == !RunStops(buff[BLOCK_SIZE..], d + 18 * |DtdRun(buff[BLOCK_SIZE..], d)|)
    ensures r == None <==> outside || |DtdRun(buff[BLOCK_SIZE..], d)| < numDtd
    ensures r.Some? ==> r.value == ShownGrps(cs) && cs == cs0 + DtdRun(buff[BLOCK_SIZE..], d)
    ensures r.Some? ==> Start(cs, |cs|) == at == d + 18 * |DtdRun(buff[BLOCK_SIZE..], d)|
  {
    ghost var ds := DtdRun(buff[BLOCK_SIZE..], d);
    ghost var whole := cs0 + ds;
    assert |whole| == |cs0| + |ds|;
    var left;
    r, at, left, cs := NativeDtds(buff, d, numDtd, grps0, cs0, whole);
    if r == None { return None, at, false, cs; }
    var grps;
    grps, at, outside, cs := MoreDtds(buff, left, r.value, at, cs, whole);
    assert cs == whole && at == d + 18 * |ds|;
    r := if outside then None else Some(grps);
  }

  // ---------------------------------------------------------------- the whole block

  method PaddingIsZero(buff: array<Byte>, at: nat) returns (ok: bool)
    requires buff.Length == BUFFER_SIZE && at < BUFFER_SIZE - BLOCK_SIZE
    ensures ok <==> ZeroFrom(buff[BLOCK_SIZE..], at)
  {
    ghost var ext := buff[BLOCK_SIZE..];
    var itb := at;
    while itb < CEA_SPACE
      invariant at <= itb && (itb <= CEA_SPACE || itb == at)
      invariant forall k :: at <= k < itb && k < CEA_SPACE ==> ext[k] == 0
    {
      assert ext[itb] == buff[BLOCK_SIZE + itb];
      if buff[BLOCK_SIZE + itb] != 0 { return false; }
      itb := itb + 1;
    }
    ok := true;
  }

  /** The header group: offset 0 of its block, and one byte more than it contributes in front. */
  method InitHeader(buff: array<Byte>) returns (g: Grp)
    requires buff.Length == BUFFER_SIZE
    ensures var c := HeaderGrp(buff[BLOCK_SIZE..]);
            ShownGrps([c]) == [g] && Start([c], 1) == 4 && IsHdr(c)
  {
    ghost var c := HeaderGrp(buff[BLOCK_SIZE..]);
    var data := buff[BLOCK_SIZE..BLOCK_SIZE + 4] + [buff[BLOCK_SIZE + 127]] + Zeros(27);
    assert data == c.inst;
    g := Grp(CHD, data, 4, 4 + 1, BLOCK_SIZE, 0, 0, [], 0, Cap(CHD));
    assert RenderSubs(c, BLOCK_SIZE) == [];
    assert Start([c], 1) == Start([c], 0) + Width([c][0]);
    assert ShownGrps([c])[0] == Shown(c, 0, 0);
  }

  lemma {:induction false} NearStops(ext: seq<Byte>)
    requires IsExt(ext) && ext[2] < BLOCK_SIZE
    ensures RunStops(ext, ext[2] + 18 * |DtdRun(ext, ext[2])|)
  {
    RunFits(ext, ext[2]);
  }

  /** How acceptance depends on the data blocks and the run of timings. */
  lemma {:induction false} Body(ext: seq<Byte>, bs: Option<Contents>, ds: Contents)
    requires IsExt(ext) && HeaderOk(ext) && ext[2] >= 4
    requires bs == ParseBlocks(ext, 4, ext[2]) && ds == DtdRun(ext, ext[2])
    ensures bs == None ==> ParseCea(ext) == None
    ensures bs.Some? ==> ParseCea(ext) == Ended(ext, bs.value, ds)
  {
  }

  lemma {:induction false} BodyLeaves(ext: seq<Byte>, bs: Option<Contents>, ds: Contents)
    requires IsExt(ext) && HeaderOk(ext)
    requires bs == ParseBlocks(ext, 4, ext[2]) && ds == DtdRun(ext, ext[2])
    ensures LeavesBuffer(ext) == Leaves(ext, bs, ds)
  {
    if ext[2] < BLOCK_SIZE { NearStops(ext); }
  }

  /** Everything behind the data blocks bs: the timings ds and the padding. */
  method ParseRest(buff: array<Byte>, grps: seq<Grp>, ghost bs: Contents, ghost ds: Contents)
    returns (r: Option<seq<Grp>>, outside: bool)
    requires buff.Length == BUFFER_SIZE
    requires var ext := buff[BLOCK_SIZE..];
             && ds == DtdRun(ext, ext[2]) && grps == ShownGrps([HeaderGrp(ext)] + bs)
             && Start([HeaderGrp(ext)] + bs, |bs| + 1) == ext[2]
    ensures outside == !RunStops(buff[BLOCK_SIZE..], buff[BLOCK_SIZE..][2] + 18 * |ds|)
    ensures r == Map(Ended(buff[BLOCK_SIZE..], bs, ds))
  {
    ghost var ext, all := buff[BLOCK_SIZE..], [HeaderGrp(buff[BLOCK_SIZE..])] + bs;
    var d, numDtd := buff[BLOCK_SIZE + 2], buff[BLOCK_SIZE + 3] % 16;
    assert ext[2] == d && ext[3] == buff[BLOCK_SIZE + 3];
    var at;
    r, at, outside, all := ParseDtds(buff, d, numDtd, grps, all);
    EndedNone(ext, bs, ds);
    if r == None { return None, outside; }
    RunInside(ext, d);
    var ok := PaddingIsZero(buff, at);
    if !ok { r := None; }
  }

  lemma {:induction false} EndedNone(ext: seq<Byte>, bs: Contents, ds: Contents)
    requires IsExt(ext)
    ensures |ds| < NumDtd(ext) || !RunStops(ext, ext[2] + 18 * |ds|) ==> Ended(ext, bs, ds) == None
  {
  }

  lemma {:induction false} RunInside(ext: seq<Byte>, d: Byte)
    requires IsExt(ext)
    ensures d + 18 * |DtdRun(ext, d)| < |ext| || !RunStops(ext, d + 18 * |DtdRun(ext, d)|)
  {
    RunFits(ext, d);
  }

  /** Everything behind the header. */
  method ParseBody(buff: array<Byte>, hdr: Grp, ghost bs: Option<Contents>, ghost ds: Contents)
    returns (r: Option<seq<Grp>>, outside: bool)
    requires buff.Length == BUFFER_SIZE
    requires var ext := buff[BLOCK_SIZE..];
             HeaderOk(ext) && ext[2] >= 4 && bs == ParseBlocks(ext, 4, ext[2]) && ds == DtdRun(ext, ext[2])
    requires var c := HeaderGrp(buff[BLOCK_SIZE..]);
             ShownGrps([c]) == [hdr] && Start([c], 1) == 4
    ensures outside == Leaves(buff[BLOCK_SIZE..], bs, ds)
    ensures r == if bs == None then None else Map(Ended(buff[BLOCK_SIZE..], bs.value, ds))
  {
    ghost var cs;
    assert buff[BLOCK_SIZE..][2] == buff[BLOCK_SIZE + 2];
    r, cs := ParseDbcs(buff, buff[BLOCK_SIZE + 2], [hdr], [HeaderGrp(buff[BLOCK_SIZE..])]);
    if r == None { return None, false; }
    r, outside := ParseRest(buff, r.value, bs.value, ds);
  }

  /** The block behind the base block; outside says that the source would read behind the buffer. */
  method ParseEdidCea(buff: array<Byte>, stale: Tree) returns (r: Option<Tree>, outside: bool)
    requires buff.Length == BUFFER_SIZE
    ensures r == ParsedTree(buff[BLOCK_SIZE..], stale) && outside == LeavesBuffer(buff[BLOCK_SIZE..])
  {
    ghost var ext := buff[BLOCK_SIZE..];
    assert ext[0] == buff[BLOCK_SIZE] && ext[1] == buff[BLOCK_SIZE + 1] && ext[2] == buff[BLOCK_SIZE + 2];
    if buff[BLOCK_SIZE] != 2 || buff[BLOCK_SIZE + 1] > 3 || buff[BLOCK_SIZE + 1] < 1 { return None, false; }
    var hdr := InitHeader(buff);
    var d := buff[BLOCK_SIZE + 2];
    if d == 0 { return Some(Tree([hdr], stale.used, stale.free)), false; }
    if 1 <= d <= 3 { return None, false; }
    ghost var (bs, ds) := (ParseBlocks(ext, 4, d), DtdRun(ext, d));
    Body(ext, bs, ds);
    BodyLeaves(ext, bs, ds);
    var grps;
    grps, outside := ParseBody(buff, hdr, bs, ds);
    r := if grps == None then None else Some(Calc(grps.value));
  }

  // ---------------------------------------------------------------- offsets in and behind the block

  /** With a DTD offset in the block, the tree is the rendering of the contents. */
  lemma {:induction false} ParsedNear(ext: seq<Byte>, stale: Tree)
    requires IsExt(ext) && ParseCea(ext).Some? && Start(ParseCea(ext).value, |ParseCea(ext).value|) <= CEA_SPACE
    ensures var cs := ParseCea(ext).value;
            ParsedTree(ext, stale)
            == Some(if ext[2] == 0 then Tree(RenderGrps(cs), stale.used, stale.free) else Render(cs))
  {
    ShownNear(ParseCea(ext).value);
    CalcRenders(ParseCea(ext).value);
  }
}
