/** The field handlers of a Detailed Timing Descriptor (src/EDID_class.cpp) over the bit layout of
    dtd_t (src/EDID.h).  A byte cut into bit-fields is a number in mixed radix: its digits are the
    bit-fields, lowest bits first. */
module DtdCodec {
  import opened Bytes

  // ---------------------------------------------------------------- bit-fields of a byte

  type Radix = r: nat | r in {2, 4, 16, 256} witness 2

  function Digits(x: nat, rs: seq<Radix>): (ds: seq<nat>)
    ensures |ds| == |rs| && forall i :: 0 <= i < |ds| ==> ds[i] < rs[i]
  {
    if rs == [] then [] else [x % rs[0]] + Digits(x / rs[0], rs[1..])
  }

  function Number(ds: seq<nat>, rs: seq<Radix>): nat
    requires |ds| == |rs|
  {
    if rs == [] then 0 else ds[0] + rs[0] * Number(ds[1..], rs[1..])
  }

  function Product(rs: seq<Radix>): nat {
    if rs == [] then 1 else rs[0] * Product(rs[1..])
  }

  lemma {:induction false} NumberOfDigits(x: nat, rs: seq<Radix>)
    requires x < Product(rs)
    ensures Number(Digits(x, rs), rs) == x
  {
    if rs != [] {
      var r := rs[0];
      assert x / r < Product(rs[1..]) by {
        if r == 2 {} else if r == 4 {} else if r == 16 {} else {}
      }
      NumberOfDigits(x / r, rs[1..]);
    }
  }

  lemma {:induction false} DigitsOfNumber(ds: seq<nat>, rs: seq<Radix>)
    requires |ds| == |rs| && forall i :: 0 <= i < |ds| ==> ds[i] < rs[i]
    ensures Digits(Number(ds, rs), rs) == ds && Number(ds, rs) < Product(rs)
  {
    if rs != [] {
      var r, y := rs[0], Number(ds[1..], rs[1..]);
      DigitsOfNumber(ds[1..], rs[1..]);
      LowDigit(ds[0], r, y, Product(rs[1..]));
    }
  }

  lemma {:induction false} LowDigit(d: nat, r: Radix, y: nat, p: nat)
    requires d < r && y < p
    ensures (d + r * y) % r == d && (d + r * y) / r == y && d + r * y < r * p
  {
    var x := r * y + d;
    Remainder(x, r, y, d);
    Division(x, r);
    Cancel(r, x / r, y);
    Distribute(r, p, y);
    Times(r, p - y);
  }

  lemma {:induction false} Cancel(n: int, a: int, b: int)
    requires n > 0 && n * a == n * b
    ensures a == b
  {
    Distribute(n, a, b);
    Times(n, a - b);
  }

  // ---------------------------------------------------------------- the layout of dtd_t

  type Record = b: seq<Byte> | |b| == 18 witness seq(18, _ => 0)

  /** The bit-fields of byte k. */
  function Layout(k: nat): (rs: seq<Radix>)
  {
    if k == 4 || k == 7 || k == 10 || k == 14 then [16, 16]
    else if k == 11 then [4, 4, 4, 4]
    else if k == 17 then [2, 2, 2, 4, 4, 2]
    else [256]
  }

  lemma {:induction false} LayoutFillsByte(k: nat)
    ensures Product(Layout(k)) == 256
  {
    assert Product([256]) == 256 * Product([256][1..]);
    assert [16, 16][1..] == [16] && Product([16]) == 16 * Product([16][1..]);
    assert [4, 4, 4, 4][1..] == [4, 4, 4] && [4, 4, 4][1..] == [4, 4] && [4, 4][1..] == [4];
    assert Product([4]) == 4 * Product([4][1..]);
    var s := [2, 2, 2, 4, 4, 2];
    assert s[1..] == [2, 2, 4, 4, 2] && s[1..][1..] == [2, 4, 4, 2] && s[1..][1..][1..] == [4, 4, 2];
    assert [4, 4, 2][1..] == [4, 2] && [4, 2][1..] == [2] && Product([2]) == 2 * Product([2][1..]);
  }

  /** A bit-field: number `digit` of byte `at`. */
  datatype Part = Part(at: nat, digit: nat)

  predicate IsPart(p: Part) {
    p.at < 18 && p.digit < |Layout(p.at)|
  }

  function RadixOf(p: Part): Radix
    requires IsPart(p)
  {
    Layout(p.at)[p.digit]
  }

  function Get(b: Record, p: Part): (v: nat)
    requires IsPart(p)
    ensures v < RadixOf(p)
  {
    Digits(b[p.at], Layout(p.at))[p.digit]
  }

  /** A bit-field assignment: the value is cut to the field. */
  function Put(b: Record, p: Part, v: nat): Record
    requires IsPart(p)
  {
    b[p.at := PutDigit(b[p.at], p, v)]
  }

  function PutDigit(x: Byte, p: Part, v: nat): Byte
    requires IsPart(p)
  {
    var rs := Layout(p.at);
    var ds := Digits(x, rs)[p.digit := v % rs[p.digit]];
    DigitsOfNumber(ds, rs);
    LayoutFillsByte(p.at);
    Number(ds, rs)
  }

  lemma {:induction false} PutThenGet(b: Record, p: Part, v: nat, q: Part)
    requires IsPart(p) && IsPart(q)
    ensures Get(Put(b, p, v), q) == if p == q then v % RadixOf(p) else Get(b, q)
  {
    var rs := Layout(p.at);
    DigitsOfNumber(Digits(b[p.at], rs)[p.digit := v % rs[p.digit]], rs);
  }

  /** The bit-fields cover the record. */
  lemma {:induction false} PartsDetermine(b: Record, c: Record)
    requires forall p :: IsPart(p) ==> Get(b, p) == Get(c, p)
    ensures b == c
  {
    forall k | 0 <= k < 18 ensures b[k] == c[k] {
      var rs := Layout(k);
      forall i | 0 <= i < |rs| ensures Digits(b[k], rs)[i] == Digits(c[k], rs)[i] {
        assert Get(b, Part(k, i)) == Get(c, Part(k, i));
      }
      assert Digits(b[k], rs) == Digits(c[k], rs);
      LayoutFillsByte(k);
      NumberOfDigits(b[k], rs);
      NumberOfDigits(c[k], rs);
    }
  }

  // ---------------------------------------------------------------- the 19 fields

  datatype Field =
    | PixClk | HApix | HBpix | VAlin | VBlin | HOsync | HsyncW | VOsync | VsyncW | Hsize | Vsize
    | Hborder | Vborder | SyncType | HsyncType | VsyncType | Il2wStereo | StereoMode | Interlace

  /** The bit-field with the least significant bits of a field. */
  function Lsb(f: Field): (p: Part)
    ensures IsPart(p)
  {
    match f
    case PixClk => Part(0, 0)
    case HApix => Part(2, 0)
    case HBpix => Part(3, 0)
    case VAlin => Part(5, 0)
    case VBlin => Part(6, 0)
    case HOsync => Part(8, 0)
    case HsyncW => Part(9, 0)
    case VOsync => Part(10, 1)
    case VsyncW => Part(10, 0)
    case Hsize => Part(12, 0)
    case Vsize => Part(13, 0)
    case Hborder => Part(15, 0)
    case Vborder => Part(16, 0)
    case SyncType => Part(17, 3)
    case HsyncType => Part(17, 1)
    case VsyncType => Part(17, 2)
    case Il2wStereo => Part(17, 0)
    case StereoMode => Part(17, 4)
    case Interlace => Part(17, 5)
  }

  /** Is the field split over two bytes? */
  predicate Wide(f: Field) {
    match f
    case Hborder | Vborder | SyncType | HsyncType | VsyncType | Il2wStereo | StereoMode | Interlace => false
    case _ => true
  }

  /** The bit-field with the most significant bits of a split field. */
  function Msb(f: Field): (p: Part)
    requires Wide(f)
    ensures IsPart(p)
  {
    match f
    case PixClk => Part(1, 0)
    case HApix => Part(4, 1)
    case HBpix => Part(4, 0)
    case VAlin => Part(7, 1)
    case VBlin => Part(7, 0)
    case HOsync => Part(11, 3)
    case HsyncW => Part(11, 2)
    case VOsync => Part(11, 1)
    case VsyncW => Part(11, 0)
    case Hsize => Part(14, 1)
    case Vsize => Part(14, 0)
  }

  /** The field a bit-field belongs to. */
  function Owner(p: Part): Field
    requires IsPart(p)
  {
    match p.at
    case 0 | 1 => PixClk
    case 2 => HApix
    case 3 => HBpix
    case 4 => if p.digit == 0 then HBpix else HApix
    case 5 => VAlin
    case 6 => VBlin
    case 7 => if p.digit == 0 then VBlin else VAlin
    case 8 => HOsync
    case 9 => HsyncW
    case 10 => if p.digit == 0 then VsyncW else VOsync
    case 11 => if p.digit == 0 then VsyncW else if p.digit == 1 then VOsync
               else if p.digit == 2 then HsyncW else HOsync
    case 12 => Hsize
    case 13 => Vsize
    case 14 => if p.digit == 0 then Vsize else Hsize
    case 15 => Hborder
    case 16 => Vborder
    case _ => if p.digit == 0 then Il2wStereo else if p.digit == 1 then HsyncType
              else if p.digit == 2 then VsyncType else if p.digit == 3 then SyncType
              else if p.digit == 4 then StereoMode else Interlace
  }

  /** The fields partition the bits: a bit-field is in a field exactly when that field owns it. */
  lemma {:induction false} FieldsPartition(p: Part, f: Field)
    requires IsPart(p)
    ensures p == Lsb(f) || (Wide(f) && p == Msb(f)) <==> f == Owner(p)
    ensures Wide(f) ==> Lsb(f) != Msb(f)
  {
  }

  /** How many values the field has. */
  function Limit(f: Field): (n: nat)
    ensures n > 0
  {
    RadixOf(Lsb(f)) * if Wide(f) then RadixOf(Msb(f)) else 1
  }

  /** OP_READ */
  function ReadField(b: Record, f: Field): nat {
    Get(b, Lsb(f)) + if Wide(f) then RadixOf(Lsb(f)) * Get(b, Msb(f)) else 0
  }

  /** OP_WRINT; the value is not checked, only cut. */
  function WriteField(b: Record, f: Field, v: nat): Record {
    var lsb := Put(b, Lsb(f), v);
    if Wide(f) then Put(lsb, Msb(f), v / RadixOf(Lsb(f))) else lsb
  }

  /** A split field is put together from its two bit-fields, any other is its bit-field. */
  lemma {:induction false} Joined(b: Record, f: Field, p: Part, q: Part, r: nat, x: nat, y: nat)
    requires Wide(f) && p == Lsb(f) && q == Msb(f) && RadixOf(p) == r && Get(b, p) == x && Get(b, q) == y
    ensures ReadField(b, f) == x + r * y
  {
  }

  lemma {:induction false} Single(b: Record, f: Field, p: Part, x: nat)
    requires !Wide(f) && p == Lsb(f) && Get(b, p) == x
    ensures ReadField(b, f) == x
  {
  }

  method ReadHandler(inst: array<Byte>, f: Field) returns (ival: nat)
    requires inst.Length == 18
    ensures ival == ReadField(inst[..], f)
  {
    var lsb := Lsb(f);
    ival := Digits(inst[lsb.at], Layout(lsb.at))[lsb.digit];
    if Wide(f) {
      var msb := Msb(f);
      ival := ival + RadixOf(lsb) * Digits(inst[msb.at], Layout(msb.at))[msb.digit];
    }
  }

  method WriteHandler(inst: array<Byte>, f: Field, ival: nat)
    requires inst.Length == 18
    modifies inst
    ensures inst[..] == WriteField(old(inst[..]), f, ival)
  {
    var lsb := Lsb(f);
    inst[lsb.at] := PutDigit(inst[lsb.at], lsb, ival);
    if Wide(f) {
      var msb := Msb(f);
      inst[msb.at] := PutDigit(inst[msb.at], msb, ival / RadixOf(lsb));
    }
  }

  lemma {:induction false} Below(r: Radix, t: Radix, x: nat, y: nat)
    requires x < r && y < t
    ensures x + r * y < r * t
  {
    if r == 2 {} else if r == 4 {} else if r == 16 {} else {}
  }

  lemma {:induction false} Times(n: int, d: int)
    requires n > 0
    ensures d >= 1 ==> n * d >= n
    ensures d <= -1 ==> n * d <= -n
  {
  }

  lemma {:induction false} Distribute(n: int, a: int, b: int)
    ensures n * (a - b) == n * a - n * b
  {
  }

  lemma {:induction false} Remainder(x: nat, n: nat, k: nat, y: nat)
    requires x == n * k + y && y < n
    ensures x % n == y
  {
    var q, r := x / n, x % n;
    assert x == n * q + r;
    Distribute(n, q, k);
    Times(n, q - k);
  }

  lemma {:induction false} Regroup(v: nat, r: nat, q: nat, t: nat, k: nat, m: nat, l: nat)
    requires v == r * q + l && q == t * k + m
    ensures v == (r * t) * k + (l + r * m)
  {
    calc {
      v;
      r * (t * k + m) + l;
      r * (t * k) + r * m + l;
      { assert r * (t * k) == (r * t) * k; }
      (r * t) * k + (l + r * m);
    }
  }

  lemma {:induction false} Division(x: nat, d: nat)
    requires d > 0
    ensures x == d * (x / d) + x % d && 0 <= x % d < d
  {
  }

  lemma {:induction false} CutTwice(v: nat, r: Radix, t: Radix)
    ensures v % r + r * (v / r % t) == v % (r * t)
  {
    Division(v, r);
    Division(v / r, t);
    CutParts(v, r, t, v / r, v / r / t, v / r % t, v % r);
  }

  lemma {:induction false} CutParts(v: nat, r: Radix, t: Radix, q: nat, k: nat, m: nat, l: nat)
    requires v == r * q + l && q == t * k + m && m < t && l < r
    ensures l + r * m == v % (r * t)
  {
    Regroup(v, r, q, t, k, m, l);
    Below(r, t, l, m);
    Remainder(v, r * t, k, l + r * m);
  }

  /** What a write leaves in a bit-field: its share of the value, or what was there. */
  lemma {:induction false} WriteThenGet(b: Record, f: Field, v: nat, q: Part)
    requires IsPart(q)
    ensures Get(WriteField(b, f, v), q)
         == if q == Lsb(f) then v % RadixOf(q)
            else if Wide(f) && q == Msb(f) then v / RadixOf(Lsb(f)) % RadixOf(q)
            else Get(b, q)
  {
    FieldsPartition(q, f);
    if Wide(f) { WideThenGet(b, f, v, q); } else { PutThenGet(b, Lsb(f), v, q); }
  }

  lemma {:induction false} WideThenGet(b: Record, f: Field, v: nat, q: Part)
    requires IsPart(q) && Wide(f)
    ensures Get(WriteField(b, f, v), q)
         == if q == Msb(f) then v / RadixOf(Lsb(f)) % RadixOf(q)
            else if q == Lsb(f) then v % RadixOf(q) else Get(b, q)
  {
    PutTwice(b, Lsb(f), v, Msb(f), v / RadixOf(Lsb(f)), q);
  }

  lemma {:induction false} PutTwice(b: Record, p: Part, v: nat, r: Part, w: nat, q: Part)
    requires IsPart(p) && IsPart(r) && IsPart(q)
    ensures Get(Put(Put(b, p, v), r, w), q)
         == if q == r then w % RadixOf(q) else if q == p then v % RadixOf(q) else Get(b, q)
  {
    PutThenGet(b, p, v, q);
    PutThenGet(Put(b, p, v), r, w, q);
  }

  /** One write: the field holds the value cut to its width, every other field is untouched. */
  lemma {:induction false} WriteThenRead(b: Record, f: Field, v: nat, g: Field)
    ensures ReadField(WriteField(b, f, v), g) == if f == g then v % Limit(f) else ReadField(b, g)
  {
    if Wide(g) { WriteThenReadWide(b, f, v, g); } else { WrittenPart(b, f, v, g, Lsb(g)); }
  }

  lemma {:induction false} WriteThenReadWide(b: Record, f: Field, v: nat, g: Field)
    requires Wide(g)
    ensures ReadField(WriteField(b, f, v), g) == if f == g then v % Limit(f) else ReadField(b, g)
  {
    var (c, p, q) := (WriteField(b, f, v), Lsb(g), Msb(g));
    WrittenPart(b, f, v, g, p);
    WrittenPart(b, f, v, g, q);
    Joined(c, g, p, q, RadixOf(p), Get(c, p), Get(c, q));
    if f == g { CutTwice(v, RadixOf(p), RadixOf(q)); } else { Joined(b, g, p, q, RadixOf(p), Get(b, p), Get(b, q)); }
  }

  /** A bit-field of g after a write to f. */
  lemma {:induction false} WrittenPart(b: Record, f: Field, v: nat, g: Field, q: Part)
    requires IsPart(q) && (q == Lsb(g) || (Wide(g) && q == Msb(g)))
    ensures Get(WriteField(b, f, v), q)
         == if f != g then Get(b, q) else if q == Lsb(g) then v % RadixOf(q) else v / RadixOf(Lsb(g)) % RadixOf(q)
    ensures Wide(g) ==> Lsb(g) != Msb(g)
  {
    WriteThenGet(b, f, v, q);
    FieldsPartition(q, f);
    FieldsPartition(q, g);
  }

  /** The record after a run of writes. */
  function WriteAll(b: Record, ws: seq<(Field, nat)>): Record
    decreases |ws|
  {
    if ws == [] then b else WriteAll(WriteField(b, ws[0].0, ws[0].1), ws[1..])
  }

  /** The value written last to the field, cut to its width, or the value it held before. */
  function LastWritten(ws: seq<(Field, nat)>, f: Field, before: nat): nat {
    if ws == [] then before
    else LastWritten(ws[1..], f, if ws[0].0 == f then ws[0].1 % Limit(f) else before)
  }

  /** After any run of writes, in any order, every field reads its own last written value. */
  lemma {:induction false} RunReadsLast(b: Record, ws: seq<(Field, nat)>, f: Field)
    ensures ReadField(WriteAll(b, ws), f) == LastWritten(ws, f, ReadField(b, f))
    decreases |ws|
  {
    if ws != [] {
      WriteThenRead(b, ws[0].0, ws[0].1, f);
      RunReadsLast(WriteField(b, ws[0].0, ws[0].1), ws[1..], f);
    }
  }

  /** Two records with the same 19 field values are the same 18 bytes. */
  lemma {:induction false} FieldsDetermine(b: Record, c: Record)
    requires forall f :: ReadField(b, f) == ReadField(c, f)
    ensures b == c
  {
    forall p | IsPart(p) ensures Get(b, p) == Get(c, p) {
      var f := Owner(p);
      FieldsPartition(p, f);
      assert ReadField(b, f) == ReadField(c, f);
      if Wide(f) {
        SameDigits(RadixOf(Lsb(f)), Get(b, Lsb(f)), Get(b, Msb(f)), Get(c, Lsb(f)), Get(c, Msb(f)));
      }
    }
    PartsDetermine(b, c);
  }

  lemma {:induction false} SameDigits(r: Radix, x: nat, y: nat, x': nat, y': nat)
    requires x < r && x' < r && x + r * y == x' + r * y'
    ensures x == x' && y == y'
  {
    if r == 2 {} else if r == 4 {} else if r == 16 {} else {}
  }

  const ALL_FIELDS: seq<Field> := [
    PixClk, HApix, HBpix, VAlin, VBlin, HOsync, HsyncW, VOsync, VsyncW, Hsize, Vsize,
    Hborder, Vborder, SyncType, HsyncType, VsyncType, Il2wStereo, StereoMode, Interlace]

  /** The record written from 19 values. */
  function Encode(vals: Field -> nat): Record {
    WriteAll(seq(18, _ => 0),
             seq(|ALL_FIELDS|, i requires 0 <= i < |ALL_FIELDS| => (ALL_FIELDS[i], vals(ALL_FIELDS[i]))))
  }

  lemma {:induction false} LastOfAll(fs: seq<Field>, vals: Field -> nat, f: Field, before: nat)
    ensures LastWritten(seq(|fs|, i requires 0 <= i < |fs| => (fs[i], vals(fs[i]))), f, before)
         == if f in fs then vals(f) % Limit(f) else before
  {
    if fs != [] {
      var ws := seq(|fs|, i requires 0 <= i < |fs| => (fs[i], vals(fs[i])));
      var t := fs[1..];
      assert ws[1..] == seq(|t|, i requires 0 <= i < |t| => (t[i], vals(t[i])));
      LastOfAll(t, vals, f, if fs[0] == f then vals(f) % Limit(f) else before);
    }
  }

  lemma {:induction false} EveryField(f: Field)
    ensures f in ALL_FIELDS
  {
    var i := match f
      case PixClk => 0 case HApix => 1 case HBpix => 2 case VAlin => 3 case VBlin => 4 case HOsync => 5
      case HsyncW => 6 case VOsync => 7 case VsyncW => 8 case Hsize => 9 case Vsize => 10
      case Hborder => 11 case Vborder => 12 case SyncType => 13 case HsyncType => 14
      case VsyncType => 15 case Il2wStereo => 16 case StereoMode => 17 case Interlace => 18;
    assert ALL_FIELDS[i] == f;
  }

  /** The codec is a bijection between 18 bytes and 19 in-range values. */
  lemma {:induction false} Bijection(vals: Field -> nat, b: Record)
    ensures forall f :: ReadField(Encode(vals), f) == vals(f) % Limit(f)
    ensures Encode(f => ReadField(b, f)) == b
  {
    forall f ensures ReadField(Encode(vals), f) == vals(f) % Limit(f) {
      EncodeReads(vals, f);
    }
    var own := (f: Field) => ReadField(b, f);
    forall f ensures ReadField(Encode(own), f) == ReadField(b, f) {
      EncodeReads(own, f);
      ReadBelowLimit(b, f);
    }
    FieldsDetermine(Encode(own), b);
  }

  lemma {:induction false} EncodeReads(vals: Field -> nat, f: Field)
    ensures ReadField(Encode(vals), f) == vals(f) % Limit(f)
  {
    var ws := seq(|ALL_FIELDS|, i requires 0 <= i < |ALL_FIELDS| => (ALL_FIELDS[i], vals(ALL_FIELDS[i])));
    var zero: Record := seq(18, _ => 0);
    RunReadsLast(zero, ws, f);
    LastOfAll(ALL_FIELDS, vals, f, ReadField(zero, f));
    EveryField(f);
  }

  lemma {:induction false} ReadBelowLimit(b: Record, f: Field)
    ensures ReadField(b, f) < Limit(f) && ReadField(b, f) % Limit(f) == ReadField(b, f)
  {
    if Wide(f) {
      Below(RadixOf(Lsb(f)), RadixOf(Msb(f)), Get(b, Lsb(f)), Get(b, Msb(f)));
    }
    Remainder(ReadField(b, f), Limit(f), 0, ReadField(b, f));
  }

  // ---------------------------------------------------------------- the fields in plain arithmetic

  lemma {:induction false} OneDigit(x: nat, r: Radix)
    ensures Digits(x, [r]) == [x % r]
  {
    assert [r][1..] == [];
  }

  lemma {:induction false} TwoDigits(x: nat, r: Radix, t: Radix)
    ensures Digits(x, [r, t]) == [x % r, x / r % t]
  {
    assert [r, t][1..] == [t];
    OneDigit(x / r, t);
  }

  lemma {:induction false} ThreeDigits(x: nat, r: Radix, t: Radix, u: Radix)
    ensures Digits(x, [r, t, u]) == [x % r, x / r % t, x / r / t % u]
  {
    assert [r, t, u][1..] == [t, u];
    TwoDigits(x / r, t, u);
  }

  lemma {:induction false} FourDigits(x: nat, r: Radix, t: Radix, u: Radix, v: Radix)
    ensures Digits(x, [r, t, u, v]) == [x % r, x / r % t, x / r / t % u, x / r / t / u % v]
  {
    assert [r, t, u, v][1..] == [t, u, v];
    ThreeDigits(x / r, t, u, v);
  }

  lemma {:induction false} FiveDigits(x: nat, r: Radix, t: Radix, u: Radix, v: Radix, w: Radix)
    ensures Digits(x, [r, t, u, v, w]) == [x % r] + Digits(x / r, [t, u, v, w])
  {
    assert [r, t, u, v, w][1..] == [t, u, v, w];
  }

  lemma {:induction false} SixDigits(x: nat, r: Radix, t: Radix, u: Radix, v: Radix, w: Radix, z: Radix)
    ensures Digits(x, [r, t, u, v, w, z]) == [x % r] + Digits(x / r, [t, u, v, w, z])
  {
    assert [r, t, u, v, w, z][1..] == [t, u, v, w, z];
  }

  lemma {:induction false} Pairs(x: Byte)
    ensures Digits(x, [4, 4, 4, 4]) == [x % 4, x / 4 % 4, x / 16 % 4, x / 64]
  {
    FourDigits(x, 4, 4, 4, 4);
    assert x / 4 / 4 == x / 16 && x / 16 / 4 == x / 64;
  }

  lemma {:induction false} FeatureBits(x: Byte)
    ensures Digits(x, [2, 2, 2, 4, 4, 2]) == [x % 2, x / 2 % 2, x / 4 % 2, x / 8 % 4, x / 32 % 4, x / 128]
  {
    SixDigits(x, 2, 2, 2, 4, 4, 2);
    FiveDigits(x / 2, 2, 2, 4, 4, 2);
    FourDigits(x / 2 / 2, 2, 4, 4, 2);
    FeatureShifts(x);
  }

  lemma {:induction false} FeatureShifts(x: Byte)
    ensures x / 2 / 2 == x / 4 && x / 4 / 2 == x / 8 && x / 8 / 4 == x / 32 && x / 32 / 4 == x / 128 && x / 128 < 2
  {
  }

  lemma {:induction false} PlainByte(b: Record, k: nat)
    requires k < 18 && k !in {4, 7, 10, 11, 14, 17}
    ensures IsPart(Part(k, 0)) && RadixOf(Part(k, 0)) == 256 && Get(b, Part(k, 0)) == b[k]
  {
    OneDigit(b[k], 256);
  }

  lemma {:induction false} PlainNibbles(b: Record, k: nat)
    requires k in {4, 7, 10, 14}
    ensures IsPart(Part(k, 0)) && IsPart(Part(k, 1)) && RadixOf(Part(k, 0)) == 16 && RadixOf(Part(k, 1)) == 16
    ensures Get(b, Part(k, 0)) == b[k] % 16 && Get(b, Part(k, 1)) == b[k] / 16
  {
    TwoDigits(b[k], 16, 16);
  }

  lemma {:induction false} PlainPairs(b: Record, i: nat)
    requires i < 4
    ensures IsPart(Part(11, i)) && RadixOf(Part(11, i)) == 4
    ensures Get(b, Part(11, i)) == [b[11] % 4, b[11] / 4 % 4, b[11] / 16 % 4, b[11] / 64][i]
  {
    Pairs(b[11]);
  }

  /** The pixel clock. */
  lemma {:induction false} PlainClock(b: Record)
    ensures ReadField(b, PixClk) == b[0] as int + 256 * b[1] as int
  {
    PlainByte(b, 0);
    PlainByte(b, 1);
    Joined(b, PixClk, Part(0, 0), Part(1, 0), 256, b[0], b[1]);
  }

  /** Active and blank pixels. */
  lemma {:induction false} PlainPixels(b: Record)
    ensures ReadField(b, HApix) == b[2] as int + 256 * (b[4] / 16) as int
    ensures ReadField(b, HBpix) == b[3] as int + 256 * (b[4] % 16) as int
  {
    PlainByte(b, 2);
    PlainByte(b, 3);
    PlainNibbles(b, 4);
    Joined(b, HApix, Part(2, 0), Part(4, 1), 256, b[2], b[4] / 16);
    Joined(b, HBpix, Part(3, 0), Part(4, 0), 256, b[3], b[4] % 16);
  }

  /** Active and blank lines. */
  lemma {:induction false} PlainLines(b: Record)
    ensures ReadField(b, VAlin) == b[5] as int + 256 * (b[7] / 16) as int
    ensures ReadField(b, VBlin) == b[6] as int + 256 * (b[7] % 16) as int
  {
    PlainByte(b, 5);
    PlainByte(b, 6);
    PlainNibbles(b, 7);
    Joined(b, VAlin, Part(5, 0), Part(7, 1), 256, b[5], b[7] / 16);
    Joined(b, VBlin, Part(6, 0), Part(7, 0), 256, b[6], b[7] % 16);
  }

  /** The image size. */
  lemma {:induction false} PlainSize(b: Record)
    ensures ReadField(b, Hsize) == b[12] as int + 256 * (b[14] / 16) as int
    ensures ReadField(b, Vsize) == b[13] as int + 256 * (b[14] % 16) as int
  {
    PlainByte(b, 12);
    PlainByte(b, 13);
    PlainNibbles(b, 14);
    Joined(b, Hsize, Part(12, 0), Part(14, 1), 256, b[12], b[14] / 16);
    Joined(b, Vsize, Part(13, 0), Part(14, 0), 256, b[13], b[14] % 16);
  }

  /** Offset and width of the horizontal sync pulse. */
  lemma {:induction false} PlainHsync(b: Record)
    ensures ReadField(b, HOsync) == b[8] as int + 256 * (b[11] / 64) as int
    ensures ReadField(b, HsyncW) == b[9] as int + 256 * (b[11] / 16 % 4) as int
  {
    PlainByte(b, 8);
    PlainByte(b, 9);
    PlainPairs(b, 2);
    PlainPairs(b, 3);
    Joined(b, HOsync, Part(8, 0), Part(11, 3), 256, b[8], b[11] / 64);
    Joined(b, HsyncW, Part(9, 0), Part(11, 2), 256, b[9], b[11] / 16 % 4);
  }

  /** Offset and width of the vertical sync pulse. */
  lemma {:induction false} PlainVsync(b: Record)
    ensures ReadField(b, VOsync) == (b[10] / 16) as int + 16 * (b[11] / 4 % 4) as int
    ensures ReadField(b, VsyncW) == (b[10] % 16) as int + 16 * (b[11] % 4) as int
  {
    PlainNibbles(b, 10);
    PlainPairs(b, 0);
    PlainPairs(b, 1);
    Joined(b, VOsync, Part(10, 1), Part(11, 1), 16, b[10] / 16, b[11] / 4 % 4);
    Joined(b, VsyncW, Part(10, 0), Part(11, 0), 16, b[10] % 16, b[11] % 4);
  }

  /** The borders. */
  lemma {:induction false} PlainBorders(b: Record)
    ensures ReadField(b, Hborder) == b[15] && ReadField(b, Vborder) == b[16]
  {
    PlainByte(b, 15);
    PlainByte(b, 16);
    Single(b, Hborder, Part(15, 0), b[15]);
    Single(b, Vborder, Part(16, 0), b[16]);
  }

  lemma {:induction false} PlainFlag(b: Record, i: nat)
    requires i < 6
    ensures IsPart(Part(17, i))
    ensures Get(b, Part(17, i))
         == [b[17] % 2, b[17] / 2 % 2, b[17] / 4 % 2, b[17] / 8 % 4, b[17] / 32 % 4, b[17] / 128][i]
  {
    FeatureBits(b[17]);
  }

  /** Interlace and the stereo mode. */
  lemma {:induction false} PlainModes(b: Record)
    ensures ReadField(b, Interlace) == b[17] / 128 && ReadField(b, StereoMode) == b[17] / 32 % 4
    ensures ReadField(b, Il2wStereo) == b[17] % 2
  {
    PlainFlag(b, 0);
    PlainFlag(b, 4);
    PlainFlag(b, 5);
    Single(b, Interlace, Part(17, 5), b[17] / 128);
    Single(b, StereoMode, Part(17, 4), b[17] / 32 % 4);
    Single(b, Il2wStereo, Part(17, 0), b[17] % 2);
  }

  /** The kinds of sync signals. */
  lemma {:induction false} PlainSyncs(b: Record)
    ensures ReadField(b, HsyncType) == b[17] / 2 % 2 && ReadField(b, VsyncType) == b[17] / 4 % 2
    ensures ReadField(b, SyncType) == b[17] / 8 % 4
  {
    PlainFlag(b, 1);
    PlainFlag(b, 2);
    PlainFlag(b, 3);
    Single(b, HsyncType, Part(17, 1), b[17] / 2 % 2);
    Single(b, VsyncType, Part(17, 2), b[17] / 4 % 2);
    Single(b, SyncType, Part(17, 3), b[17] / 8 % 4);
  }

  /** The number of values of each field. */
  lemma {:induction false} PlainLimits(f: Field)
    ensures Limit(f) == match f
      case PixClk => 65536
      case HApix | HBpix | VAlin | VBlin | Hsize | Vsize => 4096
      case HOsync | HsyncW => 1024
      case VOsync | VsyncW => 64
      case Hborder | Vborder => 256
      case SyncType | StereoMode => 4
      case HsyncType | VsyncType | Il2wStereo | Interlace => 2
  {
  }

  /** A write leaves exactly the record whose field holds the cut value and whose other fields are as before. */
  lemma {:induction false} WriteExact(b: Record, f: Field, v: nat, c: Record)
    ensures c == WriteField(b, f, v)
       <==> forall g :: ReadField(c, g) == if g == f then v % Limit(f) else ReadField(b, g)
  {
    var w := WriteField(b, f, v);
    forall g ensures ReadField(w, g) == if g == f then v % Limit(f) else ReadField(b, g) {
      WriteThenRead(b, f, v, g);
    }
    if forall g :: ReadField(c, g) == if g == f then v % Limit(f) else ReadField(b, g) { FieldsDetermine(c, w); }
  }
}
