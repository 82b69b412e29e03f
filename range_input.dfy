/** `range_input`: an input given by a pair of iterators into a buffer. */
module RangeInput {
  import opened InputBase

  /** The iterators `begin` and `end` are indices into `data`. */
  datatype RangeInput = RangeInput(enc: Encoding, data: seq<int>, begin: nat, end: nat)
  {
    ghost predicate Valid()
    {
      begin <= |data| && end <= |data| && UnitsFit(enc, data)
    }

    /** `begin()`. */
    function Begin(): (b: nat)
      ensures b == begin
    {
      begin
    }

    /** `end()`. */
    function End(): (e: nat)
      ensures e == end
    {
      end
    }
  }

  /** `range_input()`: both iterators value-initialised, hence equal. */
  function DefaultInput(enc: Encoding): (r: RangeInput)
    ensures r.Valid() && r.enc == enc
    ensures r.Begin() == r.End() == 0
  {
    RangeInput(enc, [], 0, 0)
  }

  /** `range_input(begin, end)`: `begin()` and `end()` give back exactly the
      iterators it was constructed from. */
  function MakeInput(enc: Encoding, data: seq<int>, begin: nat, end: nat): (r: RangeInput)
    requires begin <= |data| && end <= |data| && UnitsFit(enc, data)
    ensures r.Valid() && r.enc == enc && r.data == data
    ensures r.Begin() == begin && r.End() == end
  {
    RangeInput(enc, data, begin, end)
  }

  /** `reader()`: a fresh reader positioned at `begin()` that reports eof at
      `end()`.  The reader's own constructor requires `begin` to precede
      `end`.  The input is a value, so it is not changed. */
  method ReaderOf(input: RangeInput) returns (r: Reader)
    requires input.Valid() && input.Begin() <= input.End()
    ensures fresh(r) && r.Valid()
    ensures r.enc == input.enc && r.data == input.data
    ensures r.Position() == input.Begin() && r.end == input.End()
    ensures r.Peek() == EofValue <==> input.Begin() == input.End()
  {
    r := RangeReader(input.enc, input.data, input.begin, input.end);
  }

  /** Two calls of `reader()` give two equal, independent readers. */
  method TwoReaders(input: RangeInput) returns (r1: Reader, r2: Reader)
    requires input.Valid() && input.Begin() <= input.End()
    ensures fresh(r1) && fresh(r2) && r1 != r2
    ensures r1.Valid() && r2.Valid()
    ensures r1.data == r2.data && r1.cur == r2.cur == input.Begin() && r1.end == r2.end
  {
    r1 := ReaderOf(input);
    r2 := ReaderOf(input);
  }
}
