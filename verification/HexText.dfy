/** Hexadecimal text: the "0x" field strings (src/EDID_class.cpp) and the hex dump files
    (src/wxEDID_Main.cpp). */
module HexText {
  import opened Bytes

  // ---------------------------------------------------------------- digits

  function Digit(d: nat): (c: char)
    requires d < 16
    ensures IsHex(c) && DigitValue(c) == d
  {
    if d < 10 then '0' + d as char else 'A' + (d - 10) as char
  }

  predicate IsHex(c: char) {
    '0' <= c <= '9' || 'A' <= c <= 'F' || 'a' <= c <= 'f'
  }

  function DigitValue(c: char): (d: nat)
    requires IsHex(c)
    ensures d < 16
  {
    if c <= '9' then (c - '0') as int
    else if c <= 'F' then (c - 'A') as int + 10 else (c - 'a') as int + 10
  }

  /** "%02X" */
  function Hex2(b: Byte): (s: string)
    ensures |s| == 2
  {
    [Digit(b / 16), Digit(b % 16)]
  }

  /** ToULong(.., 16) on two characters, cast to a byte: the C conversion also takes one digit
      after white space or a sign (a minus wraps), or one digit ended by a NUL. */
  function PairValue(c0: char, c1: char): Option<Byte> {
    if IsHex(c0) && IsHex(c1) then Some(16 * DigitValue(c0) + DigitValue(c1))
    else if IsHex(c0) && c1 == '\0' then Some(DigitValue(c0))
    else if IsHex(c1) && c0 in {' ', '\t', '\n', '\r', '\U{0B}', '\U{0C}', '+'} then Some(DigitValue(c1))
    else if IsHex(c1) && c0 == '-' then Some((256 - DigitValue(c1)) % 256)
    else None
  }

  predicate AllHex(s: string) {
    forall i :: 0 <= i < |s| ==> IsHex(s[i])
  }

  /** The number a string of hex digits denotes, most significant digit first. */
  function HexValue(s: string): nat
    requires AllHex(s)
  {
    if s == "" then 0 else HexValue(s[..|s| - 1]) * 16 + DigitValue(s[|s| - 1])
  }

  /** The number little-endian bytes denote. */
  function LittleEndian(bytes: seq<Byte>): nat {
    if bytes == [] then 0 else bytes[0] + 256 * LittleEndian(bytes[1..])
  }

  // ---------------------------------------------------------------- field strings

  /** The digits of a byte field, last byte first. */
  function DigitsLE(bytes: seq<Byte>): (s: string)
    ensures |s| == 2 * |bytes|
  {
    if bytes == [] then "" else DigitsLE(bytes[1..]) + Hex2(bytes[0])
  }

  method RdByteStrLE(pstrb: array<Byte>) returns (sval: string)
    ensures sval == "0x" + DigitsLE(pstrb[..])
  {
    sval := "0x";
    var itb := pstrb.Length;
    assert pstrb[..pstrb.Length] == pstrb[..];
    while itb > 0
      invariant 0 <= itb <= pstrb.Length
      invariant sval + DigitsLE(pstrb[..itb]) == "0x" + DigitsLE(pstrb[..])
    {
      ghost var before := sval;
      itb := itb - 1;
      sval := sval + Hex2(pstrb[itb]);
      DigitsSnoc(pstrb[..itb], pstrb[itb]);
      assert pstrb[..itb + 1] == pstrb[..itb] + [pstrb[itb]];
      assert before + (Hex2(pstrb[itb]) + DigitsLE(pstrb[..itb])) == sval + DigitsLE(pstrb[..itb]);
    }
  }

  lemma {:induction false} DigitsSnoc(bytes: seq<Byte>, b: Byte)
    ensures DigitsLE(bytes + [b]) == Hex2(b) + DigitsLE(bytes)
  {
    if bytes == [] {
      assert bytes + [b] == [b] && [b][1..] == [];
    } else {
      assert (bytes + [b])[1..] == bytes[1..] + [b];
      DigitsSnoc(bytes[1..], b);
    }
  }

  /** Reads digit pairs into the field from its last byte down; stops at the first bad pair. */
  function WriteDigits(ds: string, bytes: seq<Byte>): (r: (bool, seq<Byte>))
    requires |ds| == 2 * |bytes|
    ensures |r.1| == |bytes|
  {
    if bytes == [] then (true, [])
    else match PairValue(ds[0], ds[1])
      case None => (false, bytes)
      case Some(v) =>
        var (ok, low) := WriteDigits(ds[2..], bytes[..|bytes| - 1]);
        (ok, low + [v])
  }

  predicate WellSized(sval: string, slen: nat) {
    |sval| >= 4 && sval[..2] == "0x" && |sval| % 2 == 0 && (|sval| - 2) / 2 <= slen
  }

  /** A refused string leaves the field alone; a short one clears the high bytes. */
  function WriteLE(sval: string, bytes: seq<Byte>): (r: (bool, seq<Byte>))
    ensures |r.1| == |bytes|
  {
    if WellSized(sval, |bytes|) then WritePadded(sval[2..], bytes) else (false, bytes)
  }

  /** The digits into the low bytes, zeros into the rest. */
  function WritePadded(ds: string, bytes: seq<Byte>): (r: (bool, seq<Byte>))
    requires |ds| % 2 == 0 && |ds| <= 2 * |bytes|
    ensures |r.1| == |bytes|
  {
    var n := |ds| / 2;
    var (ok, low) := WriteDigits(ds, bytes[..n]);
    (ok, low + Zeros(|bytes| - n))
  }

  /** The digit loop on the whole field, from byte itb down. */
  function FillDown(sval: string, itc: nat, cur: seq<Byte>, itb: int): (bool, seq<Byte>)
    requires -1 <= itb < |cur| && itc + 2 * (itb + 1) <= |sval|
    decreases itb + 1
  {
    if itb < 0 then (true, cur)
    else match PairValue(sval[itc], sval[itc + 1])
      case None => (false, cur)
      case Some(v) => FillDown(sval, itc + 2, cur[itb := v], itb - 1)
  }

  lemma {:induction false} FillDownWrites(sval: string, itc: nat, cur: seq<Byte>, itb: int)
    requires -1 <= itb < |cur| && itc + 2 * (itb + 1) == |sval|
    ensures var (ok, low) := WriteDigits(sval[itc..], cur[..itb + 1]);
            FillDown(sval, itc, cur, itb) == (ok, low + cur[itb + 1..])
    decreases itb + 1
  {
    if itb < 0 {
      assert cur == [] + cur[0..];
    } else {
      var v := PairValue(sval[itc], sval[itc + 1]);
      assert sval[itc..][2..] == sval[itc + 2..] && cur[..itb + 1][..itb] == cur[..itb];
      if v.None? {
        assert cur == cur[..itb + 1] + cur[itb + 1..];
      } else {
        var next := cur[itb := v.value];
        FillDownWrites(sval, itc + 2, next, itb - 1);
        assert next[..itb] == cur[..itb] && next[itb..] == [v.value] + cur[itb + 1..];
        var low := WriteDigits(sval[itc + 2..], cur[..itb]).1;
        assert low + ([v.value] + cur[itb + 1..]) == (low + [v.value]) + cur[itb + 1..];
      }
    }
  }

  method WrByteStrLE(sval: string, pstrb: array<Byte>) returns (ok: bool)
    modifies pstrb
    ensures (ok, pstrb[..]) == WriteLE(sval, old(pstrb[..]))
  {
    if |sval| < 2 || sval[0..2] != "0x" || |sval| < 4 || |sval| % 2 != 0 { return false; }
    var itc := (|sval| - 2) / 2;
    var slen := pstrb.Length;
    if itc > slen { return false; }
    ghost var n := itc;
    var itb := slen - 1;
    while itc < slen
      invariant n <= slen <= pstrb.Length && itb == slen - 1
      invariant pstrb[..n] == old(pstrb[..n])
      invariant forall k :: slen <= k < pstrb.Length ==> pstrb[k] == 0
    {
      pstrb[itb] := 0;
      itb := itb - 1;
      slen := slen - 1;
    }
    ghost var mid := pstrb[..];
    assert mid[..itb + 1] == old(pstrb[..])[..n] && mid[itb + 1..] == Zeros(pstrb.Length - n);
    FillDownWrites(sval, 2, mid, itb);
    itc := 2;
    while itb >= 0
      invariant -1 <= itb < pstrb.Length && itc + 2 * (itb + 1) == |sval|
      invariant FillDown(sval, itc, pstrb[..], itb) == FillDown(sval, 2, mid, n - 1)
      decreases itb
    {
      var v := PairValue(sval[itc], sval[itc + 1]);
      if v.None? { return false; }
      pstrb[itb] := v.value;
      itc := itc + 2;
      itb := itb - 1;
    }
    ok := true;
  }

  lemma {:induction false} Prefixed(ds: string)
    ensures ("0x" + ds)[..2] == "0x" && ("0x" + ds)[2..] == ds
  {
  }

  /** Writing back what was read is the identity, whatever the field held, for every non-empty field. */
  lemma {:induction false} ReadWriteIdentity(bytes: seq<Byte>, before: seq<Byte>)
    requires |bytes| == |before| > 0
    ensures WriteLE("0x" + DigitsLE(bytes), before) == (true, bytes)
  {
    var ds := DigitsLE(bytes);
    Prefixed(ds);
    assert WritePadded(ds, before) == (true, bytes) by {
      DigitsReadBack(bytes, before);
      assert before[..|bytes|] == before && bytes + Zeros(0) == bytes;
    }
  }

  lemma {:induction false} DigitsReadBack(bytes: seq<Byte>, before: seq<Byte>)
    requires |bytes| == |before|
    ensures WriteDigits(DigitsLE(bytes), before) == (true, bytes)
  {
    if bytes != [] {
      var k := |bytes| - 1;
      var ds := DigitsLE(bytes);
      assert bytes == bytes[..k] + [bytes[k]];
      DigitsSnoc(bytes[..k], bytes[k]);
      assert ds[2..] == DigitsLE(bytes[..k]);
      DigitsReadBack(bytes[..k], before[..k]);
    }
  }

  /** A hex string of any even length that fits is accepted and keeps its numeric value. */
  lemma {:induction false} WriteKeepsValue(ds: string, before: seq<Byte>)
    requires AllHex(ds) && |ds| % 2 == 0 && 2 <= |ds| <= 2 * |before|
    ensures var (ok, bytes) := WriteLE("0x" + ds, before);
            ok && |bytes| == |before| && LittleEndian(bytes) == HexValue(ds)
  {
    Prefixed(ds);
    assert WritePadded(ds, before).0 && LittleEndian(WritePadded(ds, before).1) == HexValue(ds) by {
      var n := |ds| / 2;
      DigitsKeepValue(ds, before[..n]);
      HighZeros(WriteDigits(ds, before[..n]).1, |before| - n);
    }
  }

  lemma {:induction false} DigitsKeepValue(ds: string, before: seq<Byte>)
    requires AllHex(ds) && |ds| == 2 * |before|
    ensures var (ok, bytes) := WriteDigits(ds, before);
            ok && LittleEndian(bytes) == HexValue(ds)
  {
    if before != [] {
      var k := |before| - 1;
      DigitsKeepValue(ds[2..], before[..k]);
      var low := WriteDigits(ds[2..], before[..k]).1;
      var v := 16 * DigitValue(ds[0]) + DigitValue(ds[1]);
      LittleEndianSnoc(low, v);
      TopDigits(ds);
    }
  }

  /** 256 to the power n. */
  function Pow256(n: nat): nat {
    if n == 0 then 1 else 256 * Pow256(n - 1)
  }

  lemma {:induction false} LittleEndianSnoc(low: seq<Byte>, v: Byte)
    ensures LittleEndian(low + [v]) == LittleEndian(low) + v * Pow256(|low|)
  {
    if low == [] {
      assert low + [v] == [v] && LittleEndian([v]) == v + 256 * LittleEndian([v][1..]);
    } else {
      assert (low + [v])[1..] == low[1..] + [v];
      LittleEndianSnoc(low[1..], v);
      ShiftPair(v, |low|);
    }
  }

  lemma {:induction false} TopDigits(ds: string)
    requires AllHex(ds) && |ds| % 2 == 0 && |ds| >= 2
    ensures HexValue(ds) == HexValue(ds[2..]) + (16 * DigitValue(ds[0]) + DigitValue(ds[1])) * Pow256(|ds| / 2 - 1)
  {
    var k := |ds| - 2;
    LastPair(ds);
    if k == 0 {
      assert ds[..0] == "" && ds[2..] == "";
    } else {
      TopDigits(ds[..k]);
      MiddlePair(ds, k);
      ShiftPair(16 * DigitValue(ds[0]) + DigitValue(ds[1]), k / 2);
    }
  }

  /** The digits between the first and the last pair. */
  lemma {:induction false} MiddlePair(ds: string, k: nat)
    requires AllHex(ds) && k == |ds| - 2 && k >= 2
    ensures ds[..k][0] == ds[0] && ds[..k][1] == ds[1]
    ensures HexValue(ds[2..]) == 256 * HexValue(ds[..k][2..]) + 16 * DigitValue(ds[k]) + DigitValue(ds[k + 1])
  {
    var t := ds[2..];
    LastPair(t);
    assert t[..|t| - 2] == ds[..k][2..];
    assert t[k - 2] == ds[k] && t[k - 1] == ds[k + 1];
  }

  lemma {:induction false} ShiftPair(v: int, n: nat)
    requires n > 0
    ensures v * Pow256(n) == 256 * (v * Pow256(n - 1))
  {
    assert Pow256(n) == 256 * Pow256(n - 1);
  }

  lemma {:induction false} LastPair(ds: string)
    requires AllHex(ds) && |ds| >= 2
    ensures var k := |ds| - 2;
            HexValue(ds) == 256 * HexValue(ds[..k]) + 16 * DigitValue(ds[k]) + DigitValue(ds[k + 1])
  {
    var k := |ds| - 2;
    var d := ds[..k + 1];
    assert HexValue(ds) == HexValue(d) * 16 + DigitValue(ds[k + 1]);
    assert d[..k] == ds[..k];
  }

  lemma {:induction false} HighZeros(low: seq<Byte>, n: nat)
    ensures LittleEndian(low + Zeros(n)) == LittleEndian(low)
  {
    if low != [] {
      assert (low + Zeros(n))[1..] == low[1..] + Zeros(n);
      HighZeros(low[1..], n);
    } else if n > 0 {
      assert (low + Zeros(n))[1..] == [] + Zeros(n - 1);
      HighZeros(low, n - 1);
    }
  }

  // ---------------------------------------------------------------- hex files

  const NUM_EXTBLK := 126

  /** The line breaks after byte i of a dump. */
  function Breaks(i: nat): string {
    (if i % 16 == 15 then "\n" else "") + (if i % 128 == 127 then "\n" else "")
  }

  /** The dump of data, whose first byte is number i of the buffer. */
  function Dump(data: seq<Byte>, i: nat): string {
    if data == [] then "" else Hex2(data[0]) + Breaks(i) + Dump(data[1..], i + 1)
  }

  method ExportHex(edi: array<Byte>, dtalen: nat) returns (shex: string)
    requires dtalen <= edi.Length
    ensures shex == Dump(edi[..dtalen], 0)
  {
    shex := "";
    assert edi[0..dtalen] == edi[..dtalen];
    for itb := 0 to dtalen
      invariant shex + Dump(edi[itb..dtalen], itb) == Dump(edi[..dtalen], 0)
    {
      ghost var before := shex;
      DumpStep(edi[itb..dtalen], itb, before);
      assert edi[itb..dtalen][1..] == edi[itb + 1..dtalen];
      shex := shex + Hex2(edi[itb]);
      if itb % 16 == 15 { shex := shex + "\n"; }
      if itb % 128 == 127 { shex := shex + "\n"; }
      assert shex == before + (Hex2(edi[itb]) + Breaks(itb));
    }
  }

  lemma {:induction false} DumpStep(data: seq<Byte>, i: nat, before: string)
    requires data != []
    ensures before + Dump(data, i) == (before + (Hex2(data[0]) + Breaks(i))) + Dump(data[1..], i + 1)
  {
  }

  /** What the import loop reads from here on, having stored n bytes.  past is the character
      behind the text, read when the last digit has no partner. */
  function Scan(text: string, past: char, n: nat): (bool, seq<Byte>)
    decreases |text|
  {
    if text == "" then (true, [])
    else if !IsHex(text[0]) then Scan(text[1..], past, n)
    else match PairValue(text[0], if |text| > 1 then text[1] else past)
      case None => (false, [])
      case Some(v) =>
        if n == NUM_EXTBLK && v == 0 then (true, [v])
        else
          var (ok, bytes) := Scan(if |text| > 1 then text[2..] else "", past, n + 1);
          (ok, [v] + bytes)
  }

  /** The text from position i on; the cursor may stand one behind the end. */
  function From(text: string, i: nat, len: nat): string
    requires len <= |text|
  {
    if i < len then text[i..len] else ""
  }

  /** The import loop on the whole buffer. */
  function ScanInto(text: string, past: char, n: nat, cur: seq<Byte>): (bool, seq<Byte>)
    requires 2 * n + |text| <= 2 * |cur|
    decreases |text|
  {
    if text == "" then (true, cur)
    else if !IsHex(text[0]) then ScanInto(text[1..], past, n, cur)
    else match PairValue(text[0], if |text| > 1 then text[1] else past)
      case None => (false, cur)
      case Some(v) =>
        if n == NUM_EXTBLK && v == 0 then (true, cur[n := v])
        else if |text| == 1 then (true, cur[n := v])
        else ScanInto(text[2..], past, n + 1, cur[n := v])
  }

  lemma {:induction false} ScanIntoWrites(text: string, past: char, n: nat, cur: seq<Byte>)
    requires 2 * n + |text| <= 2 * |cur|
    ensures var (ok, bytes) := Scan(text, past, n);
            n + |bytes| <= |cur|
            && ScanInto(text, past, n, cur) == (ok, cur[..n] + bytes + cur[n + |bytes|..])
    decreases |text|
  {
    if text == "" {
      assert cur == cur[..n] + [] + cur[n..];
    } else if !IsHex(text[0]) {
      ScanIntoWrites(text[1..], past, n, cur);
    } else {
      var v := PairValue(text[0], if |text| > 1 then text[1] else past);
      if v.None? {
        assert cur == cur[..n] + [] + cur[n..];
      } else {
        var next := cur[n := v.value];
        assert next[..n + 1] == cur[..n] + [v.value] && next[n + 1..] == cur[n + 1..];
        if !(n == NUM_EXTBLK && v.value == 0) && |text| > 1 {
          ScanIntoWrites(text[2..], past, n + 1, next);
          var more := Scan(text[2..], past, n + 1).1;
          assert next[n + 1 + |more|..] == cur[n + 1 + |more|..];
          assert (cur[..n] + [v.value]) + more == cur[..n] + ([v.value] + more);
        } else {
          assert [v.value] + [] == [v.value];
          assert next == cur[..n] + [v.value] + cur[n + 1..];
        }
      }
    }
  }

  datatype Imported = Rejected | BadPair | Read

  /** One turn of the import loop that ends with all. */
  lemma {:induction false} ScanTurn(text: string, len: nat, i: nat, n: nat, cur: seq<Byte>, all: (bool, seq<Byte>))
    requires |text| == len + 1 && i < len && 2 * n + |From(text, i, len)| <= 2 * |cur|
    requires all == ScanInto(From(text, i, len), text[len], n, cur)
    ensures n < |cur|
    ensures !IsHex(text[i]) ==> (
              && 2 * n + |From(text, i + 1, len)| <= 2 * |cur|
              && all == ScanInto(From(text, i + 1, len), text[len], n, cur))
    ensures IsHex(text[i]) ==> match PairValue(text[i], text[i + 1])
              case None => all == (false, cur)
              case Some(v) =>
                if n == NUM_EXTBLK && v == 0 then all == (true, cur[n := v])
                else 2 * (n + 1) + |From(text, i + 2, len)| <= 2 * |cur|
                     && all == ScanInto(From(text, i + 2, len), text[len], n + 1, cur[n := v])
  {
    FromStep(text, i, len);
  }

  /** The import loop over a cleared buffer; text holds len0 characters and the one behind them. */
  method ImportHex(text: string, len0: nat, edi: array<Byte>) returns (r: Imported)
    requires |text| == len0 + 1 && edi.Length == BUFFER_SIZE && edi[..] == Zeros(BUFFER_SIZE)
    modifies edi
    ensures r == Rejected <==> len0 < 256 || len0 > 4096
    ensures r == Rejected ==> edi[..] == old(edi[..])
    ensures r != Rejected ==>
      var (ok, bytes) := Scan(text[..len0], text[len0], 0);
      r == (if ok then Read else BadPair) && |bytes| <= BUFFER_SIZE
      && edi[..] == bytes + Zeros(BUFFER_SIZE - |bytes|)
  {
    if len0 < 128 * 2 || len0 > 1024 * 4 { return Rejected; }
    ghost var all := ScanInto(text[..len0], text[len0], 0, edi[..]);
    ScanIntoWrites(text[..len0], text[len0], 0, edi[..]);
    assert forall bytes: seq<Byte> :: edi[..][..0] + bytes == bytes;
    var len, itb, itc := len0, 0, 0;
    ghost var stopped := false;
    assert From(text, 0, len0) == text[..len0];
    while itc < len
      invariant 0 <= itc <= len0 + 1 && itb >= 0
      invariant if stopped then itc == len && all == (true, edi[..])
                else len == len0 && 2 * itb + |From(text, itc, len0)| <= 2 * BUFFER_SIZE
                     && all == ScanInto(From(text, itc, len0), text[len0], itb, edi[..])
      decreases len - itc
    {
      ScanTurn(text, len0, itc, itb, edi[..], all);
      var chr := text[itc];
      if !IsHex(chr) { itc := itc + 1; continue; }
      var v := PairValue(chr, text[itc + 1]);
      itc := itc + 1;
      if v.None? { return BadPair; }
      edi[itb] := v.value;
      if itb == NUM_EXTBLK {
        if v.value == 0 { len := itc + 1; stopped := true; }
      }
      itb := itb + 1;
      itc := itc + 1;
    }
    return Read;
  }

  lemma {:induction false} FromStep(text: string, i: nat, len: nat)
    requires |text| == len + 1 && i < len
    ensures var rest := From(text, i, len);
            rest[0] == text[i] && rest[1..] == From(text, i + 1, len)
            && text[i + 1] == (if |rest| > 1 then rest[1] else text[len])
            && From(text, i + 2, len) == (if |rest| > 1 then rest[2..] else "")
  {
  }

  // ---------------------------------------------------------------- file round trip

  /** No character an import could take for a digit. */
  predicate Junk(s: string) {
    forall i :: 0 <= i < |s| ==> !IsHex(s[i])
  }

  /** The digit pairs of data, each followed by its own junk. */
  function Decorate(data: seq<Byte>, junk: seq<string>): string
    requires |data| == |junk|
  {
    if data == [] then "" else Hex2(data[0]) + junk[0] + Decorate(data[1..], junk[1..])
  }

  lemma {:induction false} SkipJunk(junk: string, text: string, past: char, n: nat)
    requires Junk(junk)
    ensures Scan(junk + text, past, n) == Scan(text, past, n)
  {
    if junk == "" {
      assert junk + text == text;
    } else {
      assert (junk + text)[1..] == junk[1..] + text;
      SkipJunk(junk[1..], text, past, n);
    }
  }

  /** What is left of the data: everything, unless byte 126 claims no extension block. */
  function Imports(data: seq<Byte>, n: nat): seq<Byte> {
    if n <= NUM_EXTBLK < n + |data| && data[NUM_EXTBLK - n] == 0 then data[..NUM_EXTBLK - n + 1] else data
  }

  lemma {:induction false} ScanDecorated(data: seq<Byte>, junk: seq<string>, past: char, n: nat)
    requires |data| == |junk| && forall k :: 0 <= k < |junk| ==> Junk(junk[k])
    ensures Scan(Decorate(data, junk), past, n) == (true, Imports(data, n))
  {
    if data != [] {
      var rest := Decorate(data[1..], junk[1..]);
      assert Decorate(data, junk) == Hex2(data[0]) + (junk[0] + rest);
      ScanPair(data[0], junk[0] + rest, past, n);
      SkipJunk(junk[0], rest, past, n + 1);
      ScanDecorated(data[1..], junk[1..], past, n + 1);
      if n == NUM_EXTBLK && data[0] == 0 {
        assert data[..1] == [data[0]];
      } else {
        assert [data[0]] + Imports(data[1..], n + 1) == Imports(data, n);
      }
    }
  }

  lemma {:induction false} ScanPair(b: Byte, text: string, past: char, n: nat)
    ensures Scan(Hex2(b) + text, past, n)
         == if n == NUM_EXTBLK && b == 0 then (true, [b])
            else var (ok, bytes) := Scan(text, past, n + 1); (ok, [b] + bytes)
  {
    var all := Hex2(b) + text;
    assert all[0] == Hex2(b)[0] && all[1] == Hex2(b)[1] && all[2..] == text;
    assert PairValue(all[0], all[1]) == Some(b);
  }

  /** The import recovers the exported bytes from the dump with any junk before it and between its
      pairs; with byte 126 zero exactly bytes 0..126 come back (the checksum byte 127 does not). */
  lemma {:induction false} FileRoundTrip(data: seq<Byte>, lead: string, junk: seq<string>, past: char)
    requires |data| == |junk| && Junk(lead) && forall k :: 0 <= k < |junk| ==> Junk(junk[k])
    ensures Scan(lead + Decorate(data, junk), past, 0)
         == (true, if |data| > 126 && data[126] == 0 then data[..127] else data)
  {
    SkipJunk(lead, Decorate(data, junk), past, 0);
    ScanDecorated(data, junk, past, 0);
  }

  /** An exported dump is such a text, and for one to four blocks its length is accepted. */
  lemma {:induction false} DumpIsDecorated(data: seq<Byte>)
    ensures var junk := seq(|data|, k requires 0 <= k < |data| => Breaks(k));
            (forall k :: 0 <= k < |junk| ==> Junk(junk[k])) && Dump(data, 0) == Decorate(data, junk)
    ensures 128 <= |data| <= 512 ==> 256 <= |Dump(data, 0)| <= 4096
  {
    DumpFrom(data, 0);
    assert seq(|data|, k requires 0 <= k < |data| => Breaks(k))
        == seq(|data|, k requires 0 <= k < |data| => Breaks(0 + k));
  }

  lemma {:induction false} DumpFrom(data: seq<Byte>, i: nat)
    ensures Dump(data, i) == Decorate(data, seq(|data|, k requires 0 <= k < |data| => Breaks(i + k)))
    ensures 2 * |data| <= |Dump(data, i)| <= 4 * |data|
  {
    if data != [] {
      DumpFrom(data[1..], i + 1);
      NextBreaks(|data|, i);
    }
  }

  lemma {:induction false} NextBreaks(n: nat, i: nat)
    requires n > 0
    ensures seq(n, k requires 0 <= k < n => Breaks(i + k))[1..]
         == seq(n - 1, k requires 0 <= k < n - 1 => Breaks(i + 1 + k))
  {
  }

  // ---------------------------------------------------------------- digits and places in full

  const UPPER := "0123456789ABCDEF"
  const LOWER := "0123456789abcdef"

  /** The digits are these characters, in either case, with these values; written ones are upper case. */
  lemma {:induction false} DigitTable(c: char, d: nat)
    requires d < 16
    ensures IsHex(c) && DigitValue(c) == d <==> c == UPPER[d] || c == LOWER[d]
    ensures Digit(d) == UPPER[d]
  {
  }

  lemma {:induction false} HexBytes(b: Byte)
    ensures Hex2(b) == [UPPER[b / 16], UPPER[b % 16]]
  {
    DigitTable('0', b / 16);
    DigitTable('0', b % 16);
  }

  /** Where byte m of a dump starts. */
  function Place(m: nat): nat {
    if m == 0 then 0 else Place(m - 1) + 2 + |Breaks(m - 1)|
  }

  /** Two digits for each byte before it, a line break after each 16 and another after each 128. */
  lemma {:induction false} PlaceIs(m: nat)
    ensures Place(m) == 2 * m + m / 16 + m / 128
  {
    if m > 0 {
      PlaceIs(m - 1);
      assert m / 16 == (m - 1) / 16 + if (m - 1) % 16 == 15 then 1 else 0;
      assert m / 128 == (m - 1) / 128 + if (m - 1) % 128 == 127 then 1 else 0;
    }
  }

  lemma {:induction false} BreaksAreFeeds(m: nat)
    ensures forall i :: 0 <= i < |Breaks(m)| ==> Breaks(m)[i] == '\n'
  {
  }

  lemma {:induction false} DumpLength(data: seq<Byte>, i: nat)
    ensures |Dump(data, i)| == Place(i + |data|) - Place(i)
  {
    if data != [] {
      DumpLength(data[1..], i + 1);
    }
  }

  /** Two characters at at, and line breaks behind them up to next. */
  predicate ByteAt(text: string, at: int, next: int, b: Byte) {
    && 0 <= at <= at + 2 <= next <= |text| && text[at..at + 2] == Hex2(b)
    && forall j :: at + 2 <= j < next ==> text[j] == '\n'
  }

  lemma {:induction false} FirstByte(b: Byte, i: nat, rest: string)
    ensures ByteAt((Hex2(b) + Breaks(i)) + rest, 0, 2 + |Breaks(i)|, b)
  {
    var head := Hex2(b) + Breaks(i);
    assert (head + rest)[..2] == Hex2(b);
    BreaksAreFeeds(i);
    forall j | 2 <= j < |head| ensures (head + rest)[j] == '\n' { assert head[j] == Breaks(i)[j - 2]; }
  }

  lemma {:induction false} LaterByte(head: string, rest: string, at: int, next: int, b: Byte)
    requires ByteAt(rest, at, next, b)
    ensures ByteAt(head + rest, |head| + at, |head| + next, b)
  {
    Behind(head, rest, at, at + 2);
    forall j | |head| + at + 2 <= j < |head| + next ensures (head + rest)[j] == '\n' {
      assert rest[j - |head|] == '\n';
    }
  }

  /** Byte k of data in a dump that starts with byte i, and the line breaks behind it. */
  lemma {:induction false} DumpPlace(data: seq<Byte>, i: nat, k: nat)
    requires k < |data|
    ensures ByteAt(Dump(data, i), Place(i + k) - Place(i), Place(i + k + 1) - Place(i), data[k])
  {
    FirstPlace(i);
    if k == 0 {
      FirstByte(data[0], i, Dump(data[1..], i + 1));
    } else {
      DumpPlace(data[1..], i + 1, k - 1);
      Onward(data, i, Place(i + k) - Place(i + 1), Place(i + k + 1) - Place(i + 1), data[k]);
    }
  }

  lemma {:induction false} FirstPlace(i: nat)
    ensures Place(i + 1) - Place(i) == 2 + |Breaks(i)|
  {
  }

  lemma {:induction false} Onward(data: seq<Byte>, i: nat, at: int, next: int, b: Byte)
    requires data != [] && ByteAt(Dump(data[1..], i + 1), at, next, b)
    ensures ByteAt(Dump(data, i), 2 + |Breaks(i)| + at, 2 + |Breaks(i)| + next, b)
  {
    LaterByte(Hex2(data[0]) + Breaks(i), Dump(data[1..], i + 1), at, next, b);
  }

  lemma {:induction false} Behind(head: string, rest: string, a: nat, b: nat)
    requires a <= b <= |rest|
    ensures (head + rest)[|head| + a..|head| + b] == rest[a..b]
  {
  }

  /** The dump of a buffer in full: byte k is written in two upper-case digits at its place, with line
      breaks and nothing else behind it up to the place of the next byte. */
  lemma {:induction false} DumpInFull(data: seq<Byte>, k: nat)
    requires k < |data|
    ensures Place(k) == 2 * k + k / 16 + k / 128
    ensures var (text, at) := (Dump(data, 0), Place(k));
            && at + 2 <= Place(k + 1) <= |text|
            && text[at] == UPPER[data[k] / 16] && text[at + 1] == UPPER[data[k] % 16]
            && forall j :: at + 2 <= j < Place(k + 1) ==> text[j] == '\n'
  {
    DumpPlace(data, 0, k);
    PlaceIs(k);
    HexBytes(data[k]);
    TwoChars(Dump(data, 0), Place(k), UPPER[data[k] / 16], UPPER[data[k] % 16]);
  }

  lemma {:induction false} TwoChars(text: string, at: nat, c: char, d: char)
    requires at + 2 <= |text| && text[at..at + 2] == [c, d]
    ensures text[at] == c && text[at + 1] == d
  {
    assert text[at..at + 2][0] == text[at] && text[at..at + 2][1] == text[at + 1];
  }

  /** Its length. */
  lemma {:induction false} DumpSize(data: seq<Byte>)
    ensures |Dump(data, 0)| == 2 * |data| + |data| / 16 + |data| / 128
  {
    DumpLength(data, 0);
    PlaceIs(|data|);
  }

  // ---------------------------------------------------------------- refused files

  /** A digit is followed by neither a digit nor a NUL. */
  predicate BadPartner(c0: char, c1: char) { IsHex(c0) && !IsHex(c1) && c1 != '\0' }

  /** The character behind position i of the text; behind its end stands past. */
  function Partner(text: string, past: char, i: nat): char
    requires i < |text|
  {
    if i + 1 < |text| then text[i + 1] else past
  }

  /** The extension count of the data, if it has come that far, is not zero. */
  predicate GoesOn(data: seq<Byte>) { |data| > NUM_EXTBLK ==> data[NUM_EXTBLK] != 0 }

  lemma {:induction false} ScanOn(data: seq<Byte>, junk: seq<string>, tail: string, past: char, n: nat)
    requires |data| == |junk| && forall k :: 0 <= k < |junk| ==> Junk(junk[k])
    requires n <= NUM_EXTBLK < n + |data| ==> data[NUM_EXTBLK - n] != 0
    ensures var (ok, bytes) := Scan(tail, past, n + |data|);
            Scan(Decorate(data, junk) + tail, past, n) == (ok, data + bytes)
  {
    if data == [] {
      assert Decorate(data, junk) + tail == tail && data + Scan(tail, past, n).1 == Scan(tail, past, n).1;
    } else {
      var rest := Decorate(data[1..], junk[1..]) + tail;
      Regroup(Hex2(data[0]), junk[0], Decorate(data[1..], junk[1..]), tail);
      ScanPair(data[0], junk[0] + rest, past, n);
      SkipJunk(junk[0], rest, past, n + 1);
      ScanOn(data[1..], junk[1..], tail, past, n + 1);
      Refront(data, Scan(tail, past, n + |data|).1);
    }
  }

  lemma {:induction false} Regroup(a: string, b: string, c: string, d: string)
    ensures ((a + b) + c) + d == a + (b + (c + d))
  {
  }

  lemma {:induction false} Refront(data: seq<Byte>, bytes: seq<Byte>)
    requires data != []
    ensures [data[0]] + (data[1..] + bytes) == data + bytes
  {
  }

  /** Behind any exported bytes, decorated as one likes, a digit with a bad partner makes the import fail;
      the bytes before it are stored. */
  lemma {:induction false} BadPairRefused(data: seq<Byte>, lead: string, junk: seq<string>, tail: string, past: char)
    requires |data| == |junk| && Junk(lead) && (forall k :: 0 <= k < |junk| ==> Junk(junk[k])) && GoesOn(data)
    requires tail != "" && BadPartner(tail[0], Partner(tail, past, 0))
    ensures Scan(lead + (Decorate(data, junk) + tail), past, 0) == (false, data)
  {
    SkipJunk(lead, Decorate(data, junk) + tail, past, 0);
    ScanOn(data, junk, tail, past, 0);
    assert data + [] == data;
  }

  /** Nothing else does. */
  lemma {:induction false} RefusedHasBadPair(text: string, past: char, n: nat) returns (i: nat)
    requires !Scan(text, past, n).0
    ensures i < |text| && BadPartner(text[i], Partner(text, past, i))
    decreases |text|
  {
    if !IsHex(text[0]) {
      i := RefusedHasBadPair(text[1..], past, n);
      i := i + 1;
    } else if PairValue(text[0], if |text| > 1 then text[1] else past) == None {
      i := 0;
    } else {
      i := RefusedHasBadPair(text[2..], past, n + 1);
      i := i + 2;
    }
  }

  // ---------------------------------------------------------------- refused strings

  /** Two characters the C conversion takes for a number: two digits, a digit ended by a NUL, or white space
      or a sign before a digit. */
  predicate ReadablePair(c0: char, c1: char) {
    (IsHex(c0) && (IsHex(c1) || c1 == '\0')) || (IsHex(c1) && (c0 in " \t\n\r\U{0B}\U{0C}" || c0 == '+' || c0 == '-'))
  }

  lemma {:induction false} PairReads(c0: char, c1: char)
    ensures PairValue(c0, c1).Some? <==> ReadablePair(c0, c1)
    ensures IsHex(c0) && IsHex(c1) ==> PairValue(c0, c1) == Some(16 * DigitValue(c0) + DigitValue(c1))
    ensures IsHex(c0) && c1 == '\0' ==> PairValue(c0, c1) == Some(DigitValue(c0))
    ensures !IsHex(c0) && IsHex(c1) && ReadablePair(c0, c1) ==>
              var d := DigitValue(c1);
              PairValue(c0, c1) == Some(if c0 == '-' && d > 0 then 256 - d else d)
  {
  }

  predicate ReadablePairs(ds: string)
    requires |ds| % 2 == 0
  {
    forall i {:trigger ds[2 * i]} :: 0 <= i < |ds| / 2 ==> ReadablePair(ds[2 * i], ds[2 * i + 1])
  }

  lemma {:induction false} PairsCons(ds: string)
    requires |ds| % 2 == 0 && |ds| >= 2
    ensures ReadablePairs(ds) <==> ReadablePair(ds[0], ds[1]) && ReadablePairs(ds[2..])
  {
    var t := ds[2..];
    if ReadablePairs(ds) {
      assert ReadablePair(ds[2 * 0], ds[2 * 0 + 1]);
      forall i {:trigger t[2 * i]} | 0 <= i < |t| / 2 ensures ReadablePair(t[2 * i], t[2 * i + 1]) {
        assert t[2 * i] == ds[2 * (i + 1)] && t[2 * i + 1] == ds[2 * (i + 1) + 1];
      }
    }
    if ReadablePair(ds[0], ds[1]) && ReadablePairs(t) {
      forall i {:trigger ds[2 * i]} | 0 <= i < |ds| / 2 ensures ReadablePair(ds[2 * i], ds[2 * i + 1]) {
        if i > 0 { assert ReadablePair(t[2 * (i - 1)], t[2 * (i - 1) + 1]); }
      }
    }
  }

  lemma {:induction false} DigitsAccepted(ds: string, bytes: seq<Byte>)
    requires |ds| == 2 * |bytes|
    ensures WriteDigits(ds, bytes).0 <==> ReadablePairs(ds)
  {
    if bytes != [] {
      PairsCons(ds);
      PairReads(ds[0], ds[1]);
      if PairValue(ds[0], ds[1]).Some? { DigitsAccepted(ds[2..], bytes[..|bytes| - 1]); }
    }
  }

  /** A string is accepted for a field of n bytes exactly if it is "0x" and an even number of characters, at
      least two and at most 2 n, that can be read in pairs; for its length or prefix it is refused without
      touching the field. */
  lemma {:induction false} WriteAccepts(sval: string, bytes: seq<Byte>)
    ensures WriteLE(sval, bytes).0
       <==> |sval| >= 4 && sval[0] == '0' && sval[1] == 'x' && |sval| % 2 == 0 && |sval| <= 2 * |bytes| + 2
            && ReadablePairs(sval[2..])
    ensures !(|sval| >= 4 && sval[0] == '0' && sval[1] == 'x' && |sval| % 2 == 0 && |sval| <= 2 * |bytes| + 2) ==>
              WriteLE(sval, bytes) == (false, bytes)
  {
    if |sval| >= 2 {
      assert sval[..2] == [sval[0], sval[1]];
      if WellSized(sval, |bytes|) { DigitsAccepted(sval[2..], bytes[..(|sval| - 2) / 2]); }
    }
  }
}
