/** Properties of the code-point codec: round trips in both directions, the
    error classification of malformed input, recovery, and the agreement of
    the range tests with the source's mask tests. */
module CodePointProofs {
  import opened Wrappers
  import opened InputBase
  import opened CodePoint

  //=== arithmetic of the bit fields ===//

  lemma Split64(hi: int, lo: int)
    requires 0 <= lo < 0x40
    ensures (hi * 0x40 + lo) / 0x40 == hi && (hi * 0x40 + lo) % 0x40 == lo
  {
  }

  lemma Split1024(hi: int, lo: int)
    requires 0 <= lo < 0x400
    ensures (hi * 0x400 + lo) / 0x400 == hi && (hi * 0x400 + lo) % 0x400 == lo
  {
  }

  //=== UTF-8 ===//

  lemma Utf8TwoFields(cp: int)
    requires 0x80 <= cp <= 0x7FF
    ensures var e := Utf8Units(cp);
            && (e[0] % 0x20) * 0x40 + e[1] % 0x40 == cp
            && e[0] != 0xC0 && e[0] != 0xC1
  {
    var a, b := cp / 0x40, cp % 0x40;
    assert 2 <= a < 0x20;
  }

  lemma Utf8ThreeFields(cp: int)
    requires 0x800 <= cp <= 0xFFFF
    ensures var e := Utf8Units(cp);
            && ((e[0] % 0x10) * 0x40 + e[1] % 0x40) * 0x40 + e[2] % 0x40 == cp
            && !(e[0] == 0xE0 && e[1] < 0xA0)
  {
    var q := cp / 0x40;
    var a, b, c := q / 0x40, q % 0x40, cp % 0x40;
    assert cp == q * 0x40 + c;
    assert q == a * 0x40 + b;
    assert a < 0x10;
    assert cp / 0x1000 == a;
  }

  lemma Utf8FourFields(cp: int)
    requires 0x1_0000 <= cp <= 0x10_FFFF
    ensures var e := Utf8Units(cp);
            && (((e[0] % 0x08) * 0x40 + e[1] % 0x40) * 0x40 + e[2] % 0x40) * 0x40 + e[3] % 0x40 == cp
            && !(e[0] == 0xF0 && e[1] < 0x90)
  {
    var a, r := cp / 0x4_0000, cp % 0x4_0000;
    var b, r2 := r / 0x1000, r % 0x1000;
    var c, d := r2 / 0x40, r2 % 0x40;
    assert cp == a * 0x4_0000 + b * 0x1000 + c * 0x40 + d;
    Utf8FourUnitsOf(a, b, c, d);
    Split8(0x1E, a);
    Split64(2, b);
    Split64(2, c);
    Split64(2, d);
  }

  /** The four units of a supplementary code point carry its 3 + 6 + 6 + 6
      bits. */
  lemma Utf8FourUnitsOf(a: int, b: int, c: int, d: int)
    requires 0 <= a < 0x08 && 0 <= b < 0x40 && 0 <= c < 0x40 && 0 <= d < 0x40
    requires 0x1_0000 <= a * 0x4_0000 + b * 0x1000 + c * 0x40 + d <= 0x10_FFFF
    ensures Utf8Units(a * 0x4_0000 + b * 0x1000 + c * 0x40 + d) == [0xF0 + a, 0x80 + b, 0x80 + c, 0x80 + d]
  {
    var cp := a * 0x4_0000 + b * 0x1000 + c * 0x40 + d;
    assert cp == ((a * 0x40 + b) * 0x40 + c) * 0x40 + d;
    Split64((a * 0x40 + b) * 0x40 + c, d);
    Split64(a * 0x40 + b, c);
    assert cp == (a * 0x40 + b) * 0x1000 + (c * 0x40 + d);
    Split4096(a * 0x40 + b, c * 0x40 + d);
    Split64(a, b);
    Split262144(a, b * 0x1000 + c * 0x40 + d);
  }

  lemma Split8(hi: int, lo: int)
    requires 0 <= lo < 0x08
    ensures (hi * 0x08 + lo) / 0x08 == hi && (hi * 0x08 + lo) % 0x08 == lo
  {
  }

  lemma Split4096(hi: int, lo: int)
    requires 0 <= lo < 0x1000
    ensures (hi * 0x1000 + lo) / 0x1000 == hi && (hi * 0x1000 + lo) % 0x1000 == lo
  {
  }

  lemma Split262144(hi: int, lo: int)
    requires 0 <= lo < 0x4_0000
    ensures (hi * 0x4_0000 + lo) / 0x4_0000 == hi && (hi * 0x4_0000 + lo) % 0x4_0000 == lo
  {
  }

  /** The units `e` stand at `pos` of `u`. */
  ghost predicate Occurs(e: seq<int>, u: seq<int>, pos: nat)
  {
    pos + |e| <= |u| && u[pos..pos + |e|] == e
  }

  /** The units of `Utf8Units(cp)` stand at `pos` of `u`. */
  ghost predicate Utf8At(cp: int, u: seq<int>, pos: nat)
    requires IsValid(cp)
  {
    Occurs(Utf8Units(cp), u, pos)
  }

  lemma UnitsAt(e: seq<int>, u: seq<int>, pos: nat)
    requires Occurs(e, u, pos)
    ensures forall i :: 0 <= i < |e| ==> u[pos + i] == e[i]
  {
    forall i | 0 <= i < |e| ensures u[pos + i] == e[i] {
      assert u[pos..pos + |e|][i] == u[pos + i];
    }
  }

  /** The units `Utf8Units` writes for a scalar value decode back to it,
      wherever they stand in the input and whatever follows them. */
  lemma Utf8Decodes(cp: int, u: seq<int>, pos: nat)
    requires IsScalar(cp) && Utf8At(cp, u, pos)
    ensures ParseUtf8(u, pos) == CpResult(Some(cp), Success, pos + |Utf8Units(cp)|)
  {
    var e := Utf8Units(cp);
    UnitsAt(e, u, pos);
    if cp <= 0x7F {
    } else if cp <= 0x7FF {
      Utf8TwoFields(cp);
      assert ParseUtf8Two(u, pos) == CpResult(Some(cp), Success, pos + 2);
    } else if cp <= 0xFFFF {
      Utf8ThreeFields(cp);
      assert ParseUtf8Three(u, pos) == CpResult(Some(cp), Success, pos + 3);
    } else {
      Utf8FourFields(cp);
      assert ParseUtf8Four(u, pos) == CpResult(Some(cp), Success, pos + 4);
    }
  }

  lemma Utf8TwoSuccess(u: seq<int>, pos: nat)
    requires pos < |u| && IsLead2(u[pos]) && ParseUtf8Two(u, pos).error == Success
    ensures var r := ParseUtf8Two(u, pos);
            IsScalar(r.cp.value) && Utf8At(r.cp.value, u, pos) && r.end == pos + 2
  {
    var r := ParseUtf8Two(u, pos);
    var first, second := u[pos], u[pos + 1];
    var a, b := first - 0xC0, second - 0x80;
    assert r.cp.value == a * 0x40 + b;
    Split64(a, b);
    assert u[pos..pos + 2] == [first, second];
  }

  lemma Utf8ThreeSuccess(u: seq<int>, pos: nat)
    requires pos < |u| && IsLead3(u[pos]) && ParseUtf8Three(u, pos).error == Success
    ensures var r := ParseUtf8Three(u, pos);
            IsScalar(r.cp.value) && Utf8At(r.cp.value, u, pos) && r.end == pos + 3
  {
    var r := ParseUtf8Three(u, pos);
    var cp := r.cp.value;
    var first, second, third := u[pos], u[pos + 1], u[pos + 2];
    var a, b, c := first - 0xE0, second - 0x80, third - 0x80;
    assert cp == (a * 0x40 + b) * 0x40 + c;
    Split64(a * 0x40 + b, c);
    Split64(a, b);
    assert cp / 0x1000 == a;
    assert u[pos..pos + 3] == [first, second, third];
  }

  lemma Utf8FourSuccess(u: seq<int>, pos: nat)
    requires pos < |u| && IsLead4(u[pos]) && ParseUtf8Four(u, pos).error == Success
    ensures var r := ParseUtf8Four(u, pos);
            IsScalar(r.cp.value) && Utf8At(r.cp.value, u, pos) && r.end == pos + 4
  {
    var r := ParseUtf8Four(u, pos);
    var first, second, third, fourth := u[pos], u[pos + 1], u[pos + 2], u[pos + 3];
    var a, b, c, d := first - 0xF0, second - 0x80, third - 0x80, fourth - 0x80;
    Split8(0x1E, a);
    Split64(2, b);
    Split64(2, c);
    Split64(2, d);
    var cp := a * 0x4_0000 + b * 0x1000 + c * 0x40 + d;
    assert r.cp.value == cp;
    assert a == 0 ==> b >= 0x10;
    assert 0x1_0000 <= cp <= 0x10_FFFF;
    Utf8FourUnitsOf(a, b, c, d);
    assert u[pos..pos + 4] == [first, second, third, fourth];
  }

  /** A successful UTF-8 decode consumed exactly the encoding of a scalar
      value: no overlong form, no surrogate, nothing beyond 0x10FFFF. */
  lemma Utf8SuccessIsEncoding(u: seq<int>, pos: nat)
    requires pos <= |u| && ParseUtf8(u, pos).error == Success
    ensures var r := ParseUtf8(u, pos);
            && IsScalar(r.cp.value)
            && r.end == pos + |Utf8Units(r.cp.value)|
            && Utf8At(r.cp.value, u, pos)
  {
    var first := u[pos];
    if IsLead1(first) {
      assert u[pos..pos + 1] == [first];
    } else if IsLead2(first) {
      Utf8TwoSuccess(u, pos);
    } else if IsLead3(first) {
      Utf8ThreeSuccess(u, pos);
    } else {
      Utf8FourSuccess(u, pos);
    }
  }

  //=== UTF-8 error classification ===//

  /** The number of units a UTF-8 lead announces; 0 for a unit that is no lead. */
  function Utf8Length(first: int): (n: nat)
    ensures n <= 4
  {
    if IsLead1(first) then 1
    else if IsLead2(first) then 2
    else if IsLead3(first) then 3
    else if IsLead4(first) then 4
    else 0
  }

  /** The units of `u` in `[from, to)` are all continuation units. */
  ghost predicate ContsBetween(u: seq<int>, from: nat, to: nat)
  {
    from <= to <= |u| && forall i :: from <= i < to ==> IsCont(u[i])
  }

  /** A continuation unit cannot start a code point, and it is the only unit
      that yields leads_with_trailing. */
  lemma Utf8LeadsWithTrailing(u: seq<int>, pos: nat)
    requires pos <= |u|
    ensures ParseUtf8(u, pos).error == LeadsWithTrailing <==> pos < |u| && IsCont(u[pos])
  {
  }

  /** eof: the end of the input, or a unit no lead pattern matches (F8..FF). */
  lemma Utf8Eof(u: seq<int>, pos: nat)
    requires pos <= |u|
    ensures ParseUtf8(u, pos).error == Eof <==> pos == |u| || !(0x00 <= u[pos] <= 0xF7)
  {
  }

  /** missing_trailing: a lead not followed by all the continuation units it
      announces; the result ends at the first unit that is not one. */
  lemma Utf8MissingTrailing(u: seq<int>, pos: nat)
    requires pos < |u|
    ensures var r := ParseUtf8(u, pos);
            var n := Utf8Length(u[pos]);
            && (r.error == MissingTrailing <==> n >= 2 && !ContsBetween(u, pos + 1, pos + n))
            && (r.error == MissingTrailing ==>
                  && pos < r.end < pos + n
                  && ContsBetween(u, pos + 1, r.end)
                  && (r.end == |u| || !IsCont(u[r.end])))
  {
    var n := Utf8Length(u[pos]);
    if n >= 2 && !ContsBetween(u, pos + 1, pos + n) {
      if pos + 1 == |u| || !IsCont(u[pos + 1]) {
      } else if n == 2 {
        assert ContsBetween(u, pos + 1, pos + 2);
      } else if pos + 2 == |u| || !IsCont(u[pos + 2]) {
        assert ContsBetween(u, pos + 1, pos + 2);
      } else if n == 3 {
        assert ContsBetween(u, pos + 1, pos + 3);
      } else {
        assert ContsBetween(u, pos + 1, pos + 3);
        assert pos + 3 == |u| || !IsCont(u[pos + 3]);
      }
    }
  }

  /** A lead with all its continuation units is consumed whole, whatever its
      classification. */
  lemma Utf8CompleteConsumed(u: seq<int>, pos: nat)
    requires pos < |u| && Utf8Length(u[pos]) >= 1
    requires ContsBetween(u, pos + 1, pos + Utf8Length(u[pos]))
    ensures ParseUtf8(u, pos).end == pos + Utf8Length(u[pos])
    ensures ParseUtf8(u, pos).error in {Success, Surrogate, OverlongSequence, OutOfRange}
  {
    var n := Utf8Length(u[pos]);
    if n >= 2 { assert IsCont(u[pos + 1]); }
    if n >= 3 { assert IsCont(u[pos + 2]); }
    if n >= 4 { assert IsCont(u[pos + 3]); }
  }

  /** overlong_sequence: exactly the complete sequences led by C0 or C1, by
      E0 and 80..9F, or by F0 and 80..8F (the forms that encode a code point
      with fewer units). */
  lemma Utf8Overlong(u: seq<int>, pos: nat)
    requires pos < |u|
    ensures ParseUtf8(u, pos).error == OverlongSequence <==>
              && Utf8Length(u[pos]) >= 2
              && ContsBetween(u, pos + 1, pos + Utf8Length(u[pos]))
              && (|| u[pos] == 0xC0 || u[pos] == 0xC1
                  || (u[pos] == 0xE0 && u[pos + 1] < 0xA0)
                  || (u[pos] == 0xF0 && u[pos + 1] < 0x90))
  {
    var n := Utf8Length(u[pos]);
    if n >= 2 && ContsBetween(u, pos + 1, pos + n) {
      Utf8CompleteConsumed(u, pos);
      assert IsCont(u[pos + 1]);
      if n >= 3 { assert IsCont(u[pos + 2]); }
      if n == 4 { assert IsCont(u[pos + 3]); }
    } else if n >= 2 {
      Utf8MissingTrailing(u, pos);
    }
  }

  /** surrogate: exactly ED followed by A0..BF and a continuation unit, the
      encodings of D800..DFFF. */
  lemma Utf8Surrogate(u: seq<int>, pos: nat)
    requires pos < |u|
    ensures ParseUtf8(u, pos).error == Surrogate <==>
              pos + 2 < |u| && u[pos] == 0xED && 0xA0 <= u[pos + 1] <= 0xBF && IsCont(u[pos + 2])
  {
    if IsLead3(u[pos]) && pos + 2 < |u| && IsCont(u[pos + 1]) && IsCont(u[pos + 2]) {
      var a, b, c := u[pos] - 0xE0, u[pos + 1] - 0x80, u[pos + 2] - 0x80;
      assert ParseUtf8(u, pos).cp.value == a * 0x1000 + b * 0x40 + c;
    }
  }

  /** out_of_range: exactly the complete four-unit sequences above 10FFFF,
      led by F5..F7, or by F4 and 90..BF. */
  lemma Utf8OutOfRange(u: seq<int>, pos: nat)
    requires pos < |u|
    ensures ParseUtf8(u, pos).error == OutOfRange <==>
              && IsLead4(u[pos])
              && ContsBetween(u, pos + 1, pos + 4)
              && (u[pos] >= 0xF5 || (u[pos] == 0xF4 && u[pos + 1] >= 0x90))
  {
    if IsLead4(u[pos]) && ContsBetween(u, pos + 1, pos + 4) {
      assert IsCont(u[pos + 1]) && IsCont(u[pos + 2]) && IsCont(u[pos + 3]);
      var a, b, c, d := u[pos] - 0xF0, u[pos + 1] - 0x80, u[pos + 2] - 0x80, u[pos + 3] - 0x80;
      Split8(0x1E, a);
      Split64(2, b);
      Split64(2, c);
      Split64(2, d);
      var v := a * 0x4_0000 + b * 0x1000 + c * 0x40 + d;
      assert ParseUtf8Four(u, pos).cp.value == v;
      assert 0 <= c * 0x40 + d < 0x1000;
      assert v > 0x10_FFFF <==> a >= 5 || (a == 4 && b >= 0x10);
    } else if IsLead4(u[pos]) {
      Utf8MissingTrailing(u, pos);
    }
  }

  //=== UTF-16 ===//

  /** The payload bits of the pair `Utf16Units` writes for a supplementary
      code point are the twenty bits of cp - 0x10000. */
  lemma Utf16PairFields(cp: int)
    requires 0x1_0000 <= cp <= 0x10_FFFF
    ensures var e := Utf16Units(cp);
            (e[0] % 0x400) * 0x400 + e[1] % 0x400 == cp - 0x1_0000
  {
    var v := cp - 0x1_0000;
    Split1024(0x36, v / 0x400);
    Split1024(0x37, v % 0x400);
  }

  /** The units `Utf16Units` writes for a scalar value decode back to it. */
  lemma Utf16Decodes(cp: int, u: seq<int>, pos: nat)
    requires IsScalar(cp) && Occurs(Utf16Units(cp), u, pos)
    ensures ParseUtf16(u, pos) == CpResult(Some(cp), Success, pos + |Utf16Units(cp)|)
  {
    UnitsAt(Utf16Units(cp), u, pos);
    if !IsBmp(cp) {
      Utf16PairFields(cp);
    }
  }

  /** A successful UTF-16 decode of units of the encoding's range consumed
      exactly the encoding of a scalar value. */
  lemma Utf16SuccessIsEncoding(u: seq<int>, pos: nat)
    requires pos <= |u| && UnitsFit(Utf16, u) && ParseUtf16(u, pos).error == Success
    ensures var r := ParseUtf16(u, pos);
            && IsScalar(r.cp.value)
            && r.end == pos + |Utf16Units(r.cp.value)|
            && Occurs(Utf16Units(r.cp.value), u, pos)
  {
    var first := u[pos];
    if IsHighSurrogate(first) {
      var second := u[pos + 1];
      var a, b := first - 0xD800, second - 0xDC00;
      Split1024(0x36, a);
      Split1024(0x37, b);
      Split1024(a, b);
      assert u[pos..pos + 2] == [first, second];
    } else {
      assert u[pos..pos + 1] == [first];
    }
  }

  /** What the source's `result |= 0x10000` decodes from the encoding of a
      scalar value: the value itself in the BMP and in the planes 1, 3, ...,
      15, but the value 0x10000 lower in the planes 2, 4, ..., 16, where
      bit 16 of cp - 0x10000 is already set and the OR adds nothing. */
  lemma Utf16AsWrittenDecodes(cp: int, u: seq<int>, pos: nat)
    requires IsScalar(cp) && Occurs(Utf16Units(cp), u, pos)
    ensures var r := ParseUtf16AsWritten(u, pos);
            && r.error == Success && r.end == pos + |Utf16Units(cp)|
            && r.cp == Some(if IsBmp(cp) || ((cp - 0x1_0000) / 0x1_0000) % 2 == 0
                            then cp else cp - 0x1_0000)
  {
    Utf16Decodes(cp, u, pos);
    var e := Utf16Units(cp);
    UnitsAt(e, u, pos);
    if !IsBmp(cp) {
      Utf16PairFields(cp);
      assert u[pos] == e[0] && u[pos + 1] == e[1];
      assert CombineSurrogatesAsWritten(e[0], e[1]) == SetBit16(cp - 0x1_0000);
      assert ParseUtf16AsWritten(u, pos).cp == Some(SetBit16(cp - 0x1_0000));
    }
  }

  /** The encoding of U+20000 is D840 DC00, which the source decodes as
      U+10000 and the corrected decoder as U+20000. */
  lemma Utf16AsWrittenCounterexample()
    ensures Utf16Units(0x2_0000) == [0xD840, 0xDC00]
    ensures ParseUtf16AsWritten([0xD840, 0xDC00], 0) == CpResult(Some(0x1_0000), Success, 2)
    ensures ParseUtf16([0xD840, 0xDC00], 0) == CpResult(Some(0x2_0000), Success, 2)
  {
  }

  /** leads_with_trailing exactly at a low surrogate; missing_trailing
      exactly at a high surrogate not followed by a low one. */
  lemma Utf16Errors(u: seq<int>, pos: nat)
    requires pos <= |u|
    ensures var r := ParseUtf16(u, pos);
            && (r.error == LeadsWithTrailing <==> pos < |u| && IsLowSurrogate(u[pos]))
            && (r.error == MissingTrailing <==>
                  pos < |u| && IsHighSurrogate(u[pos]) && (pos + 1 == |u| || !IsLowSurrogate(u[pos + 1])))
            && (r.error == MissingTrailing ==> r.end == pos + 1)
            && r.error in {Success, Eof, LeadsWithTrailing, MissingTrailing}
  {
  }

  //=== all encodings ===//

  /** The units `EncodeUnits` writes stand at `pos` of `u`. */
  ghost predicate EncodedAt(enc: Encoding, cp: int, u: seq<int>, pos: nat)
    requires CanEncode(enc, cp)
  {
    Occurs(EncodeUnits(enc, cp), u, pos)
  }

  /** Decoding inverts encoding: the units of a scalar value decode back to
      it and consume exactly those units. */
  lemma RoundTrip(enc: Encoding, cp: int, u: seq<int>, pos: nat)
    requires CanEncode(enc, cp) && IsScalar(cp) && EncodedAt(enc, cp, u, pos)
    ensures ParseCodePoint(enc, u, pos) == CpResult(Some(cp), Success, pos + |EncodeUnits(enc, cp)|)
  {
    match enc {
      case Ascii => UnitsAt(EncodeUnits(enc, cp), u, pos);
      case Utf8 => Utf8Decodes(cp, u, pos);
      case Utf16 => Utf16Decodes(cp, u, pos);
      case Utf32 => UnitsAt(EncodeUnits(enc, cp), u, pos);
    }
  }

  /** An ASCII or UTF-32 decode that succeeds read one unit, the value. */
  lemma SingleUnitSuccessIsEncoding(enc: Encoding, u: seq<int>, pos: nat)
    requires enc in {Ascii, Utf32} && pos <= |u| && UnitsFit(enc, u)
    requires ParseCodePoint(enc, u, pos).error == Success
    ensures var r := ParseCodePoint(enc, u, pos);
            && CanEncode(enc, r.cp.value) && IsScalar(r.cp.value)
            && r.end == pos + |EncodeUnits(enc, r.cp.value)|
            && EncodedAt(enc, r.cp.value, u, pos)
  {
    var r := ParseCodePoint(enc, u, pos);
    assert r.cp.value == u[pos] && r.end == pos + 1;
    assert EncodeUnits(enc, u[pos]) == [u[pos]];
    assert u[pos..pos + 1] == [u[pos]];
  }

  /** Encoding inverts decoding: whatever decodes successfully is the
      encoding of a scalar value the encoding can represent. */
  lemma DecodeSuccessIsEncoding(enc: Encoding, u: seq<int>, pos: nat)
    requires pos <= |u| && UnitsFit(enc, u) && ParseCodePoint(enc, u, pos).error == Success
    ensures var r := ParseCodePoint(enc, u, pos);
            && CanEncode(enc, r.cp.value) && IsScalar(r.cp.value)
            && r.end == pos + |EncodeUnits(enc, r.cp.value)|
            && EncodedAt(enc, r.cp.value, u, pos)
  {
    match enc {
      case Ascii => SingleUnitSuccessIsEncoding(enc, u, pos);
      case Utf8 => Utf8SuccessIsEncoding(u, pos);
      case Utf16 => Utf16SuccessIsEncoding(u, pos);
      case Utf32 => SingleUnitSuccessIsEncoding(enc, u, pos);
    }
  }

  /** `is_valid` admits surrogates, so they can be encoded; the decoder
      rejects what comes out: surrogate (with the value) for UTF-8 and
      UTF-32; in UTF-16 leads_with_trailing for a low surrogate, and never
      the surrogate itself for a high one. */
  lemma EncodedSurrogateRejected(enc: Encoding, cp: int, u: seq<int>, pos: nat)
    requires enc != Ascii && IsSurrogate(cp) && EncodedAt(enc, cp, u, pos)
    ensures var r := ParseCodePoint(enc, u, pos);
            && (enc in {Utf8, Utf32} ==> r == CpResult(Some(cp), Surrogate, pos + |EncodeUnits(enc, cp)|))
            && (enc == Utf16 && IsLowSurrogate(cp) ==> r.error == LeadsWithTrailing)
            && (enc == Utf16 ==> r.cp != Some(cp))
  {
    var e := EncodeUnits(enc, cp);
    UnitsAt(e, u, pos);
    if enc == Utf8 {
      Utf8ThreeFields(cp);
      Utf8Surrogate(u, pos);
    }
  }

  /** The decoder as the source writes it agrees with the corrected one on
      the error and the units consumed for every input, and on the value
      for everything but a UTF-16 surrogate pair, whose value it gets by
      setting bit 16 of the offset instead of adding 0x10000. */
  lemma AsWrittenDiffersOnlyOnPairs(enc: Encoding, u: seq<int>, pos: nat)
    requires pos <= |u|
    ensures var a, c := ParseCodePointAsWritten(enc, u, pos), ParseCodePoint(enc, u, pos);
            && a.error == c.error && a.end == c.end
            && (!(enc == Utf16 && c.error == Success && c.end == pos + 2) ==> a == c)
            && (enc == Utf16 && c.error == Success && c.end == pos + 2 ==>
                  c.cp.value >= 0x1_0000 && a.cp == Some(SetBit16(c.cp.value - 0x1_0000)))
  {
  }

  /** ASCII and UTF-32 decode one unit: it is always consumed and reported,
      and the error says exactly why it is not a code point of the encoding. */
  lemma SingleUnitClassified(enc: Encoding, u: seq<int>, pos: nat)
    requires enc in {Ascii, Utf32} && pos < |u| && UnitsFit(enc, u)
    ensures var r := ParseCodePoint(enc, u, pos);
      && r.end == pos + 1 && r.cp == Some(u[pos])
      && (enc == Ascii ==> (r.error == Success <==> IsAscii(u[pos])))
      && (enc == Ascii && !IsAscii(u[pos]) ==> r.error == OutOfRange)
      && (enc == Utf32 ==> (r.error == Success <==> IsScalar(u[pos])))
      && (enc == Utf32 ==> (r.error == OutOfRange <==> !IsValid(u[pos])))
      && (enc == Utf32 ==> (r.error == Surrogate <==> IsSurrogate(u[pos])))
  {
  }

  /** At the end of the input every decoder reports eof and consumes nothing. */
  lemma EofAtEnd(enc: Encoding, u: seq<int>)
    ensures ParseCodePoint(enc, u, |u|) == CpResult(None, Eof, |u|)
  {
  }

  /** After a failed decode recovery is always permitted, never moves past
      the reader's end, and moves the reader exactly unless the decoder saw
      eof. */
  lemma ParseThenRecover(enc: Encoding, u: seq<int>, pos: nat)
    requires pos <= |u| && ParseCodePoint(enc, u, pos).error != Success
    ensures var r := ParseCodePoint(enc, u, pos);
            && CanRecover(r, pos, |u|)
            && pos <= RecoveredPosition(r, pos) <= |u|
            && (RecoveredPosition(r, pos) == pos <==> r.error == Eof)
            && RecoveredPosition(r, pos) - pos <= MaxUnits(enc)
  {
  }

  //=== masks ===//

  /** On 8-bit units the source's mask tests are the range tests of the
      model, and masking the payload is taking a remainder. */
  lemma Utf8MasksAreRanges(b: bv8)
    ensures (b & 0x80 == 0x00) <==> IsLead1(b as int)
    ensures (b & 0xC0 == 0x80) <==> IsCont(b as int)
    ensures (b & 0xE0 == 0xC0) <==> IsLead2(b as int)
    ensures (b & 0xF0 == 0xE0) <==> IsLead3(b as int)
    ensures (b & 0xF8 == 0xF0) <==> IsLead4(b as int)
    ensures (b & 0x3F) as int == b as int % 0x40
    ensures (b & 0x1F) as int == b as int % 0x20
    ensures (b & 0x0F) as int == b as int % 0x10
    ensures (b & 0x07) as int == b as int % 0x08
  {
    Utf8LeadMasks(b);
    Utf8PayloadMasks(b);
  }

  lemma Utf8LeadMasks(b: bv8)
    ensures (b & 0x80 == 0x00) <==> IsLead1(b as int)
    ensures (b & 0xC0 == 0x80) <==> IsCont(b as int)
    ensures (b & 0xE0 == 0xC0) <==> IsLead2(b as int)
    ensures (b & 0xF0 == 0xE0) <==> IsLead3(b as int)
    ensures (b & 0xF8 == 0xF0) <==> IsLead4(b as int)
  {
    assert (b & 0x80 == 0x00) <==> b <= 0x7F;
    assert (b & 0xC0 == 0x80) <==> 0x80 <= b <= 0xBF;
    assert (b & 0xE0 == 0xC0) <==> 0xC0 <= b <= 0xDF;
    assert (b & 0xF0 == 0xE0) <==> 0xE0 <= b <= 0xEF;
    assert (b & 0xF8 == 0xF0) <==> 0xF0 <= b <= 0xF7;
  }

  lemma Utf8PayloadMasks(b: bv8)
    ensures (b & 0x3F) as int == b as int % 0x40
    ensures (b & 0x1F) as int == b as int % 0x20
    ensures (b & 0x0F) as int == b as int % 0x10
    ensures (b & 0x07) as int == b as int % 0x08
  {
    Low6(b);
    Low5(b);
    Low4(b);
    Low3(b);
  }

  lemma Low6(b: bv8)
    ensures (b & 0x3F) as int == b as int % 0x40
  {
  }

  lemma Low5(b: bv8)
    ensures (b & 0x1F) as int == b as int % 0x20
  {
  }

  lemma Low4(b: bv8)
    ensures (b & 0x0F) as int == b as int % 0x10
  {
  }

  lemma Low3(b: bv8)
    ensures (b & 0x07) as int == b as int % 0x08
  {
  }

  /** On 16-bit units the source's surrogate mask tests are the range tests
      of the model, and masking the payload is taking the (unsigned)
      remainder. */
  lemma Utf16MasksAreRanges(w: bv16)
    ensures (w & 0xFC00 == 0xD800) <==> IsHighSurrogate(w as int)
    ensures (w & 0xFC00 == 0xDC00) <==> IsLowSurrogate(w as int)
    ensures w & 0x3FF == w % 0x400
  {
    HighSurrogateMask(w);
    LowSurrogateMask(w);
  }

  lemma HighSurrogateMask(w: bv16)
    ensures (w & 0xFC00 == 0xD800) <==> IsHighSurrogate(w as int)
  {
    assert (w & 0xFC00 == 0xD800) <==> 0xD800 <= w <= 0xDBFF;
  }

  lemma LowSurrogateMask(w: bv16)
    ensures (w & 0xFC00 == 0xDC00) <==> IsLowSurrogate(w as int)
  {
    assert (w & 0xFC00 == 0xDC00) <==> 0xDC00 <= w <= 0xDFFF;
  }

  //=== concrete cases ===//

  /** How many units a reader at the start of `u` has passed after decoding
      one code point, and recovering when that failed. */
  function CountAfterParse(enc: Encoding, u: seq<int>): (n: nat)
    ensures n <= |u|
  {
    var r := ParseCodePoint(enc, u, 0);
    if r.error == Success then r.end else RecoveredPosition(r, 0)
  }

  /** UTF-8 inputs that decode, from the test suite. */
  lemma Utf8SuccessCases()
    ensures ParseUtf8([], 0).error == Eof && CountAfterParse(Utf8, []) == 0
    ensures ParseUtf8([0xC3, 0xA4], 0) == CpResult(Some(0xE4), Success, 2)
    ensures ParseUtf8([0xE2, 0x82, 0xAC], 0) == CpResult(Some(0x20AC), Success, 3)
    ensures ParseUtf8([0xF0, 0x9F, 0x99, 0x82], 0) == CpResult(Some(0x1F642), Success, 4)
  {
  }

  /** UTF-8 inputs with a misplaced or missing continuation unit, from the
      test suite, with the units a reader has passed after recovery. */
  lemma Utf8TrailingCases()
    ensures ParseUtf8([0x81], 0).error == LeadsWithTrailing && CountAfterParse(Utf8, [0x81]) == 1
    ensures ParseUtf8([0xD0], 0).error == MissingTrailing && CountAfterParse(Utf8, [0xD0]) == 1
    ensures ParseUtf8([0xF4, 0x81, 0x81], 0).error == MissingTrailing
    ensures CountAfterParse(Utf8, [0xF4, 0x81, 0x81]) == 3
    ensures ParseUtf8([0xE8, 0x0F], 0).error == MissingTrailing && CountAfterParse(Utf8, [0xE8, 0x0F]) == 1
  {
  }

  /** Complete UTF-8 sequences that are not scalar values, from the test
      suite. */
  lemma Utf8InvalidValueCases()
    ensures ParseUtf8([0xED, 0xBF, 0xBF], 0).error == Surrogate && CountAfterParse(Utf8, [0xED, 0xBF, 0xBF]) == 3
    ensures ParseUtf8([0xF7, 0xBF, 0xBF, 0xBF], 0).error == OutOfRange
    ensures CountAfterParse(Utf8, [0xF7, 0xBF, 0xBF, 0xBF]) == 4
  {
  }

  /** Complete UTF-8 sequences that are not the shortest form, from the test
      suite. */
  lemma Utf8OverlongCases()
    ensures ParseUtf8([0xC0, 0x84], 0).error == OverlongSequence && CountAfterParse(Utf8, [0xC0, 0x84]) == 2
    ensures ParseUtf8([0xC1, 0x84], 0).error == OverlongSequence && CountAfterParse(Utf8, [0xC1, 0x84]) == 2
  {
  }

  /** Three- and four-unit sequences that are not the shortest form, from
      the test suite. */
  lemma Utf8LongOverlongCases()
    ensures ParseUtf8([0xE0, 0x80, 0x80], 0).error == OverlongSequence
    ensures CountAfterParse(Utf8, [0xE0, 0x80, 0x80]) == 3
    ensures ParseUtf8([0xF0, 0x80, 0x80, 0x80], 0).error == OverlongSequence
    ensures CountAfterParse(Utf8, [0xF0, 0x80, 0x80, 0x80]) == 4
  {
  }

  /** ASCII inputs with the error and unit count each one must give. */
  lemma AsciiCases()
    ensures ParseAscii([], 0).error == Eof && CountAfterParse(Ascii, []) == 0
    ensures ParseAscii([0x61], 0) == CpResult(Some(0x61), Success, 1)
    ensures ParseAscii([0x90], 0).error == OutOfRange && CountAfterParse(Ascii, [0x90]) == 1
  {
  }

  /** UTF-16 and UTF-32 inputs with the error and unit count each one must
      give. */
  lemma Utf16Utf32Cases()
    ensures ParseUtf16([0xD83D, 0xDE42], 0) == CpResult(Some(0x1F642), Success, 2)
    ensures ParseUtf16([0xDC44], 0).error == LeadsWithTrailing && CountAfterParse(Utf16, [0xDC44]) == 1
    ensures ParseUtf16([0xDA44], 0).error == MissingTrailing && CountAfterParse(Utf16, [0xDA44]) == 1
    ensures ParseUtf32([0xD844], 0).error == Surrogate && CountAfterParse(Utf32, [0xD844]) == 1
    ensures ParseUtf32([0xFF1234], 0).error == OutOfRange && CountAfterParse(Utf32, [0xFF1234]) == 1
  {
  }
}
