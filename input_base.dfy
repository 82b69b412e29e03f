/** The reader over an iterator range (`_rr`) and `partial_reader`.

    An iterator is modelled as an index into the underlying buffer `data`;
    `peek` answers the encoding's eof value, here `EofValue`, at the end. */
module InputBase {

  /** The four encodings the code-point codec knows. */
  datatype Encoding = Ascii | Utf8 | Utf16 | Utf32

  /** The value `peek` returns at the end of the input.  Every code unit is a
      non-negative value of the encoding's char type, so none equals it. */
  const EofValue: int := -1

  /** The largest value of the encoding's char type. */
  function MaxUnit(enc: Encoding): (m: nat)
    ensures enc == Utf16 ==> m == 0xFFFF
    ensures enc == Utf32 ==> m == 0xFFFF_FFFF
    ensures enc in {Ascii, Utf8} ==> m == 0xFF
  {
    match enc
    case Ascii => 0xFF
    case Utf8 => 0xFF
    case Utf16 => 0xFFFF
    case Utf32 => 0xFFFF_FFFF
  }

  /** Every unit of `units` is a value of the encoding's char type. */
  ghost predicate UnitsFit(enc: Encoding, units: seq<int>)
  {
    forall i :: 0 <= i < |units| ==> 0 <= units[i] <= MaxUnit(enc)
  }

  /** What `peek` answers at `pos` of the units `units` that end where the
      reader ends: `EofValue` exactly at the end, the unit otherwise. */
  function PeekAt(units: seq<int>, pos: nat): (r: int)
    requires pos <= |units|
    ensures pos == |units| ==> r == EofValue
    ensures pos < |units| ==> r == units[pos]
  {
    if pos == |units| then EofValue else units[pos]
  }

  /** `_rr<Encoding, Iterator, Sentinel>`: a cursor `cur` over `[.., end)`. */
  class Reader {
    const enc: Encoding
    const data: seq<int>
    var cur: nat
    const end: nat

    ghost predicate Valid()
      reads this
    {
      cur <= end <= |data| && UnitsFit(enc, data)
    }

    /** The units the reader can see: everything up to its end. */
    function View(): (v: seq<int>)
      reads this
      requires Valid()
      ensures |v| == end && v == data[..end]
    {
      data[..end]
    }

    /** `_rr(begin, end)`: requires `begin` to precede `end`. */
    constructor (enc: Encoding, data: seq<int>, begin: nat, end: nat)
      requires begin <= end <= |data| && UnitsFit(enc, data)
      ensures Valid()
      ensures this.enc == enc && this.data == data && cur == begin && this.end == end
    {
      this.enc := enc;
      this.data := data;
      this.cur := begin;
      this.end := end;
    }

    /** `peek()`: the eof value exactly at the end, the current unit otherwise. */
    function Peek(): (r: int)
      reads this
      requires Valid()
      ensures r == EofValue <==> cur == end
      ensures cur < end ==> r == data[cur]
      ensures r == PeekAt(View(), cur)
    {
      if cur == end then EofValue else data[cur]
    }

    /** `position()`. */
    function Position(): (p: nat)
      reads this
      requires Valid()
      ensures p == cur && p <= end
    {
      cur
    }

    /** `bump()`: requires a unit to be left and advances by one unit. */
    method Bump()
      requires Valid() && cur != end
      modifies this
      ensures Valid() && cur == old(cur) + 1
    {
      cur := cur + 1;
    }

    /** `set_position(p)`: requires `p` to precede the end. */
    method SetPosition(p: nat)
      requires Valid() && p <= end
      modifies this
      ensures Valid() && cur == p
    {
      cur := p;
    }

    /** Copying a reader: readers are values, so the copy is a new object and
        moving it does not move the original. */
    method Clone() returns (c: Reader)
      requires Valid()
      ensures fresh(c) && c.Valid()
      ensures c.enc == enc && c.data == data && c.cur == cur && c.end == end
    {
      c := new Reader(enc, data, cur, end);
    }
  }

  /** `_range_reader<Encoding>(begin, end)`. */
  method RangeReader(enc: Encoding, data: seq<int>, begin: nat, end: nat) returns (r: Reader)
    requires begin <= end <= |data| && UnitsFit(enc, data)
    ensures fresh(r) && r.Valid()
    ensures r.enc == enc && r.data == data && r.cur == begin && r.end == end
  {
    r := new Reader(enc, data, begin, end);
  }

  /** `partial_reader(reader, begin, end)`: a reader of the same encoding over
      `[begin, end)` of the same buffer. */
  method PartialReaderRange(reader: Reader, begin: nat, end: nat) returns (r: Reader)
    requires reader.Valid() && begin <= end <= |reader.data|
    ensures fresh(r) && r.Valid()
    ensures r.enc == reader.enc && r.data == reader.data && r.cur == begin && r.end == end
  {
    r := RangeReader(reader.enc, reader.data, begin, end);
  }

  /** `partial_reader(reader, end)`: a reader over `[reader.position(), end)`;
      `reader` itself is left untouched. */
  method PartialReader(reader: Reader, end: nat) returns (r: Reader)
    requires reader.Valid() && reader.cur <= end <= |reader.data|
    ensures fresh(r) && r.Valid()
    ensures r.enc == reader.enc && r.data == reader.data && r.cur == reader.cur && r.end == end
    ensures r.View() == reader.data[..end]
  {
    r := PartialReaderRange(reader, reader.Position(), end);
  }

  /** A client of the reader: bumping a copy leaves the original where it
      was. */
  method BumpCopy(reader: Reader) returns (copy: Reader)
    requires reader.Valid() && reader.cur < reader.end
    ensures fresh(copy) && copy.Valid()
    ensures copy.cur == reader.cur + 1 && copy.end == reader.end
  {
    copy := reader.Clone();
    var saved := copy.Position();
    copy.Bump();
    assert reader.cur == saved;
  }
}
