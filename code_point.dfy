/** The code-point codec: `encode_code_point`, `parse_code_point` and
    `recover_code_point` for ASCII, UTF-8 (RFC 3629), UTF-16 (RFC 2781) and
    UTF-32.

    Code units are integers.  The source tests a unit against a lead or
    continuation pattern with a mask (`(u & ~payload) == pattern`); on the
    values of the encoding's char type, and on the eof value, each mask test
    is the range test written here (see `CodePointProofs.Utf8MasksAreRanges`
    and `CodePointProofs.Utf16MasksAreRanges`). */
module CodePoint {
  import opened Wrappers
  import opened InputBase

  //=== code_point predicates ===//

  predicate IsAscii(cp: int) { 0 <= cp <= 0x7F }
  predicate IsBmp(cp: int) { 0 <= cp <= 0xFFFF }
  predicate IsSurrogate(cp: int) { 0xD800 <= cp <= 0xDFFF }
  /** `is_valid`: in the code-point range.  It does not exclude surrogates. */
  predicate IsValid(cp: int) { 0 <= cp <= 0x10FFFF }
  /** A Unicode scalar value: valid and not a surrogate. */
  predicate IsScalar(cp: int) { IsValid(cp) && !IsSurrogate(cp) }

  //=== unit classes ===//

  /** 0xxxxxxx */
  predicate IsLead1(u: int) { 0x00 <= u <= 0x7F }
  /** 10xxxxxx */
  predicate IsCont(u: int) { 0x80 <= u <= 0xBF }
  /** 110xxxxx */
  predicate IsLead2(u: int) { 0xC0 <= u <= 0xDF }
  /** 1110xxxx */
  predicate IsLead3(u: int) { 0xE0 <= u <= 0xEF }
  /** 11110xxx */
  predicate IsLead4(u: int) { 0xF0 <= u <= 0xF7 }
  /** 110110xx xxxxxxxx */
  predicate IsHighSurrogate(u: int) { 0xD800 <= u <= 0xDBFF }
  /** 110111xx xxxxxxxx */
  predicate IsLowSurrogate(u: int) { 0xDC00 <= u <= 0xDFFF }

  //=== encoding ===//

  /** The precondition of `encode_code_point`: an ASCII value for ASCII, a
      valid code point for the others. */
  predicate CanEncode(enc: Encoding, cp: int)
  {
    if enc == Ascii then IsAscii(cp) else IsValid(cp)
  }

  /** The UTF-8 units of a valid code point.  The bit fields the source ORs
      into the lead and continuation patterns are disjoint from them, so each
      `|` is an addition. */
  function Utf8Units(cp: int): (r: seq<int>)
    requires IsValid(cp)
    ensures 1 <= |r| <= 4
    ensures |r| == 1 <==> cp <= 0x7F
    ensures |r| == 2 <==> 0x80 <= cp <= 0x7FF
    ensures |r| == 3 <==> 0x800 <= cp <= 0xFFFF
    ensures |r| == 4 <==> 0x10000 <= cp
    ensures |r| == 1 ==> IsLead1(r[0])
    ensures |r| == 2 ==> IsLead2(r[0])
    ensures |r| == 3 ==> IsLead3(r[0])
    ensures |r| == 4 ==> IsLead4(r[0])
    ensures forall i :: 1 <= i < |r| ==> IsCont(r[i])
  {
    if cp <= 0x7F then
      [cp]
    else if cp <= 0x7FF then
      [0xC0 + (cp / 0x40) % 0x20, 0x80 + cp % 0x40]
    else if cp <= 0xFFFF then
      [0xE0 + (cp / 0x1000) % 0x10, 0x80 + (cp / 0x40) % 0x40, 0x80 + cp % 0x40]
    else
      [0xF0 + (cp / 0x4_0000) % 0x08, 0x80 + (cp / 0x1000) % 0x40,
       0x80 + (cp / 0x40) % 0x40, 0x80 + cp % 0x40]
  }

  /** The UTF-16 units of a valid code point: one unit in the BMP, otherwise
      the pair 0xD800 + high ten bits, 0xDC00 + low ten bits of cp - 0x10000. */
  function Utf16Units(cp: int): (r: seq<int>)
    requires IsValid(cp)
    ensures |r| == 1 <==> IsBmp(cp)
    ensures |r| == 1 ==> r[0] == cp
    ensures |r| == 2 ==> IsHighSurrogate(r[0]) && IsLowSurrogate(r[1])
    ensures 1 <= |r| <= 2
  {
    if IsBmp(cp) then
      [cp]
    else
      var uPrime := cp - 0x1_0000;
      [0xD800 + uPrime / 0x400, 0xDC00 + uPrime % 0x400]
  }

  /** What `encode_code_point` writes, as a sequence. */
  function EncodeUnits(enc: Encoding, cp: int): (r: seq<int>)
    requires CanEncode(enc, cp)
    ensures 1 <= |r| <= 4
    ensures enc in {Ascii, Utf32} ==> r == [cp]
    ensures forall i :: 0 <= i < |r| ==> 0 <= r[i] <= MaxUnit(enc)
  {
    match enc
    case Ascii => [cp]
    case Utf8 => Utf8Units(cp)
    case Utf16 => Utf16Units(cp)
    case Utf32 => [cp]
  }

  /** `encode_code_point<Encoding>(cp, buffer, size)` with `size` the length
      of `buffer`: writes the units into `buffer[0..n)` and returns `n`.  The
      buffer must hold the units. */
  method EncodeCodePoint(enc: Encoding, cp: int, buffer: array<int>) returns (n: nat)
    requires CanEncode(enc, cp)
    requires |EncodeUnits(enc, cp)| <= buffer.Length
    modifies buffer
    ensures n == |EncodeUnits(enc, cp)| && buffer[..n] == EncodeUnits(enc, cp)
    ensures buffer[n..] == old(buffer[n..])
  {
    match enc {
      case Ascii =>
        buffer[0] := cp;
        n := 1;
      case Utf8 =>
        if IsAscii(cp) {
          buffer[0] := cp;
          n := 1;
        } else if cp <= 0x07FF {
          var first := (cp / 0x40) % 0x20;
          var second := cp % 0x40;
          buffer[0] := 0xC0 + first;
          buffer[1] := 0x80 + second;
          n := 2;
        } else if cp <= 0xFFFF {
          var first := (cp / 0x1000) % 0x10;
          var second := (cp / 0x40) % 0x40;
          var third := cp % 0x40;
          buffer[0] := 0xE0 + first;
          buffer[1] := 0x80 + second;
          buffer[2] := 0x80 + third;
          n := 3;
        } else {
          var first := (cp / 0x4_0000) % 0x08;
          var second := (cp / 0x1000) % 0x40;
          var third := (cp / 0x40) % 0x40;
          var fourth := cp % 0x40;
          buffer[0] := 0xF0 + first;
          buffer[1] := 0x80 + second;
          buffer[2] := 0x80 + third;
          buffer[3] := 0x80 + fourth;
          n := 4;
        }
      case Utf16 =>
        if IsBmp(cp) {
          buffer[0] := cp;
          n := 1;
        } else {
          var uPrime := cp - 0x1_0000;
          var highTenBits := uPrime / 0x400;
          var lowTenBits := uPrime % 0x400;
          buffer[0] := 0xD800 + highTenBits;
          buffer[1] := 0xDC00 + lowTenBits;
          n := 2;
        }
      case Utf32 =>
        buffer[0] := cp;
        n := 1;
    }
  }

  //=== parsing ===//

  datatype CpError =
    | Success
    | Eof
    | LeadsWithTrailing
    | MissingTrailing
    | Surrogate
    | OverlongSequence
    | OutOfRange
    | PredicateFailure

  /** `cp_result`: the code point (`None` where the source returns a
      default-constructed one), the classification and the end of the units
      inspected. */
  datatype CpResult = CpResult(cp: Option<int>, error: CpError, end: nat)

  /** The longest sequence of units one code point takes. */
  function MaxUnits(enc: Encoding): nat
  {
    match enc
    case Ascii => 1
    case Utf8 => 4
    case Utf16 => 2
    case Utf32 => 1
  }

  /** The bounds every decoder result keeps: `end` lies between the start and
      the reader's end and at most one code point's units away; exactly eof
      and leads_with_trailing consume nothing; success yields a code point. */
  ghost predicate ResultShape(enc: Encoding, units: seq<int>, pos: nat, r: CpResult)
  {
    && pos <= r.end <= |units|
    && r.end - pos <= MaxUnits(enc)
    && r.error != PredicateFailure
    && (r.error in {Eof, LeadsWithTrailing} <==> r.end == pos)
    && (r.error == Success ==> r.cp.Some?)
    && (r.error == Eof ==> r.cp.None?)
    && (r.error == LeadsWithTrailing ==> pos < |units|)
  }

  function ParseAscii(units: seq<int>, pos: nat): (r: CpResult)
    requires pos <= |units|
    ensures ResultShape(Ascii, units, pos, r)
  {
    if PeekAt(units, pos) == EofValue then CpResult(None, Eof, pos)
    else
      var cur := units[pos];
      if IsAscii(cur) then CpResult(Some(cur), Success, pos + 1)
      else CpResult(Some(cur), OutOfRange, pos + 1)
  }

  function ParseUtf8(units: seq<int>, pos: nat): (r: CpResult)
    requires pos <= |units|
    ensures ResultShape(Utf8, units, pos, r)
  {
    var first := PeekAt(units, pos);
    if IsLead1(first) then
      CpResult(Some(first), Success, pos + 1)
    else if IsCont(first) then
      CpResult(None, LeadsWithTrailing, pos)
    else if IsLead2(first) then
      ParseUtf8Two(units, pos)
    else if IsLead3(first) then
      ParseUtf8Three(units, pos)
    else if IsLead4(first) then
      ParseUtf8Four(units, pos)
    else
      // Eof itself, or a unit F8..FF that no lead pattern matches.
      CpResult(None, Eof, pos)
  }

  /** The two-unit branch of `ParseUtf8`, after a 110xxxxx lead. */
  function ParseUtf8Two(units: seq<int>, pos: nat): (r: CpResult)
    requires pos < |units| && IsLead2(units[pos])
    ensures ResultShape(Utf8, units, pos, r) && r.end > pos
  {
    var first := units[pos];
    var second := PeekAt(units, pos + 1);
    if !IsCont(second) then CpResult(None, MissingTrailing, pos + 1)
    else
      var result := (first % 0x20) * 0x40 + second % 0x40;
      // C0 and C1 are overlong ASCII.
      if first == 0xC0 || first == 0xC1 then CpResult(Some(result), OverlongSequence, pos + 2)
      else CpResult(Some(result), Success, pos + 2)
  }

  /** The three-unit branch of `ParseUtf8`, after a 1110xxxx lead. */
  function ParseUtf8Three(units: seq<int>, pos: nat): (r: CpResult)
    requires pos < |units| && IsLead3(units[pos])
    ensures ResultShape(Utf8, units, pos, r) && r.end > pos
  {
    var first := units[pos];
    var second := PeekAt(units, pos + 1);
    if !IsCont(second) then CpResult(None, MissingTrailing, pos + 1)
    else
      var third := PeekAt(units, pos + 2);
      if !IsCont(third) then CpResult(None, MissingTrailing, pos + 2)
      else
        var result := ((first % 0x10) * 0x40 + second % 0x40) * 0x40 + third % 0x40;
        if IsSurrogate(result) then CpResult(Some(result), Surrogate, pos + 3)
        else if first == 0xE0 && second < 0xA0 then CpResult(Some(result), OverlongSequence, pos + 3)
        else CpResult(Some(result), Success, pos + 3)
  }

  /** The four-unit branch of `ParseUtf8`, after a 11110xxx lead. */
  function ParseUtf8Four(units: seq<int>, pos: nat): (r: CpResult)
    requires pos < |units| && IsLead4(units[pos])
    ensures ResultShape(Utf8, units, pos, r) && r.end > pos
  {
    var first := units[pos];
    var second := PeekAt(units, pos + 1);
    if !IsCont(second) then CpResult(None, MissingTrailing, pos + 1)
    else
      var third := PeekAt(units, pos + 2);
      if !IsCont(third) then CpResult(None, MissingTrailing, pos + 2)
      else
        var fourth := PeekAt(units, pos + 3);
        if !IsCont(fourth) then CpResult(None, MissingTrailing, pos + 3)
        else
          var result := (((first % 0x08) * 0x40 + second % 0x40) * 0x40 + third % 0x40) * 0x40
                        + fourth % 0x40;
          if !IsValid(result) then CpResult(Some(result), OutOfRange, pos + 4)
          else if first == 0xF0 && second < 0x90 then CpResult(Some(result), OverlongSequence, pos + 4)
          else CpResult(Some(result), Success, pos + 4)
  }

  /** The code point of a surrogate pair: the ten payload bits of each unit,
      offset by 0x10000. */
  function CombineSurrogates(first: int, second: int): int
  {
    0x1_0000 + ((first % 0x400) * 0x400 + second % 0x400)
  }

  /** Sets bit 16 of a non-negative integer: `x | 0x10000`. */
  function SetBit16(x: nat): nat
  {
    if (x / 0x1_0000) % 2 == 1 then x else x + 0x1_0000
  }

  /** The combination the source writes: the payload bits ORed with 0x10000
      (the source's line `result |= 0x10000`). */
  function CombineSurrogatesAsWritten(first: int, second: int): nat
  {
    SetBit16((first % 0x400) * 0x400 + second % 0x400)
  }

  /** UTF-16 decoding; `asWritten` selects how a surrogate pair is combined. */
  function ParseUtf16With(units: seq<int>, pos: nat, asWritten: bool): (r: CpResult)
    requires pos <= |units|
    ensures ResultShape(Utf16, units, pos, r)
  {
    if PeekAt(units, pos) == EofValue then CpResult(None, Eof, pos)
    else
      var first := units[pos];
      if IsHighSurrogate(first) then
        if PeekAt(units, pos + 1) == EofValue then CpResult(None, MissingTrailing, pos + 1)
        else
          var second := units[pos + 1];
          if !IsLowSurrogate(second) then CpResult(None, MissingTrailing, pos + 1)
          else
            var result := if asWritten then CombineSurrogatesAsWritten(first, second)
                          else CombineSurrogates(first, second);
            CpResult(Some(result), Success, pos + 2)
      else if IsLowSurrogate(first) then
        CpResult(None, LeadsWithTrailing, pos)
      else
        // Single code unit code point; always valid.
        CpResult(Some(first), Success, pos + 1)
  }

  /** UTF-16 decoding as the source writes it. */
  function ParseUtf16AsWritten(units: seq<int>, pos: nat): (r: CpResult)
    requires pos <= |units|
    ensures ResultShape(Utf16, units, pos, r)
    ensures r.error == ParseUtf16(units, pos).error && r.end == ParseUtf16(units, pos).end
  {
    ParseUtf16With(units, pos, true)
  }

  /** UTF-16 decoding with surrogate pairs combined as RFC 2781 section 2.2
      says (offset by addition). */
  function ParseUtf16(units: seq<int>, pos: nat): (r: CpResult)
    requires pos <= |units|
    ensures ResultShape(Utf16, units, pos, r)
  {
    ParseUtf16With(units, pos, false)
  }

  function ParseUtf32(units: seq<int>, pos: nat): (r: CpResult)
    requires pos <= |units|
    ensures ResultShape(Utf32, units, pos, r)
  {
    if PeekAt(units, pos) == EofValue then CpResult(None, Eof, pos)
    else
      var cur := units[pos];
      if !IsValid(cur) then CpResult(Some(cur), OutOfRange, pos + 1)
      else if IsSurrogate(cur) then CpResult(Some(cur), Surrogate, pos + 1)
      else CpResult(Some(cur), Success, pos + 1)
  }

  /** `parse_code_point(reader)` for a reader at `pos` whose units up to its
      end are `units`.  The reader is taken by value, so only the result is
      observable. */
  function ParseCodePoint(enc: Encoding, units: seq<int>, pos: nat): (r: CpResult)
    requires pos <= |units|
    ensures ResultShape(enc, units, pos, r)
  {
    match enc
    case Ascii => ParseAscii(units, pos)
    case Utf8 => ParseUtf8(units, pos)
    case Utf16 => ParseUtf16(units, pos)
    case Utf32 => ParseUtf32(units, pos)
  }

  /** `parse_code_point` with the UTF-16 surrogate pair combined as the
      source writes it; see `ParseUtf16AsWritten`. */
  function ParseCodePointAsWritten(enc: Encoding, units: seq<int>, pos: nat): (r: CpResult)
    requires pos <= |units|
    ensures ResultShape(enc, units, pos, r)
    ensures r.error == ParseCodePoint(enc, units, pos).error && r.end == ParseCodePoint(enc, units, pos).end
  {
    match enc
    case Ascii => ParseAscii(units, pos)
    case Utf8 => ParseUtf8(units, pos)
    case Utf16 => ParseUtf16AsWritten(units, pos)
    case Utf32 => ParseUtf32(units, pos)
  }

  //=== recovery ===//

  /** The precondition `recover_code_point` places on the reader and the
      result: recovery after success is a precondition violation; after
      leads_with_trailing the result ends at the reader, which can be bumped;
      otherwise the result's end must precede the reader's end. */
  predicate CanRecover(result: CpResult, cur: nat, end: nat)
  {
    && result.error != Success
    && (result.error == LeadsWithTrailing ==> result.end == cur < end)
    && (result.error !in {Success, Eof, LeadsWithTrailing} ==> result.end <= end)
  }

  /** Where recovery leaves a reader at `cur`: unmoved after eof, one unit on
      after leads_with_trailing, at the result's end otherwise. */
  function RecoveredPosition(result: CpResult, cur: nat): (p: nat)
    requires result.error != Success
    ensures result.error == Eof ==> p == cur
    ensures result.error == LeadsWithTrailing ==> p == cur + 1
    ensures result.error !in {Eof, LeadsWithTrailing} ==> p == result.end
  {
    match result.error
    case Eof => cur
    case LeadsWithTrailing => cur + 1
    case _ => result.end
  }

  /** `recover_code_point(reader, result)`. */
  method RecoverCodePoint(reader: Reader, result: CpResult)
    requires reader.Valid() && CanRecover(result, reader.cur, reader.end)
    modifies reader
    ensures reader.Valid() && reader.cur == RecoveredPosition(result, old(reader.cur))
  {
    match result.error {
      case Success =>
        assert false;
      case Eof =>
        // Nothing to consume.
      case LeadsWithTrailing =>
        reader.Bump();
      case _ =>
        reader.SetPosition(result.end);
    }
  }
}
