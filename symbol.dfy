/** The symbol table (`_symbol_table`) and the `symbol` rule (`_sym`) with
    its three variants: after a token, after an identifier pattern, and on
    its own.

    The trie the table is searched with is not part of this model.  A search
    is given as its outcome, a `TrieRun`: the index of the key found (or
    none) and where the searching reader stopped.  `RunFits` states what
    such an outcome must satisfy: the reader stops within its range, and a
    found index names a key equal to the units the reader went over. */
module Symbol {
  import opened Wrappers
  import opened InputBase
  import opened Events

  /** `std::size_t(-1)`, the value a default `key_index` holds. */
  const SizeMax: nat := 0xFFFF_FFFF_FFFF_FFFF

  /** The entry at index i maps `keys[i]` (a string of code units) to
      `data[i]`. */
  datatype SymbolTable<T> = SymbolTable(keys: seq<seq<int>>, data: seq<T>)

  /** A table has one payload per key, and fewer entries than `size_t` can
      count. */
  type Table<T> = t: SymbolTable<T> | |t.keys| == |t.data| < SizeMax
    witness SymbolTable([], [])

  //=== modifiers ===//

  /** `symbol_table<T>`: the table without entries. */
  function EmptyTable<T>(): (t: Table<T>)
    ensures Empty(t)
  {
    SymbolTable([], [])
  }

  /** `size()`: the number of keys, which is the number of payloads. */
  function Size<T>(t: Table<T>): (n: nat)
    ensures n == |t.keys| == |t.data| < SizeMax
  {
    |t.keys|
  }

  /** `empty()`: no key index names an entry. */
  predicate Empty<T>(t: Table<T>): (b: bool)
    ensures b <==> t.keys == [] && t.data == []
    ensures b <==> forall k :: !KeyValid(t, k)
  {
    assert Size(t) > 0 ==> KeyValid(t, KeyIndex(0));
    Size(t) == 0
  }

  /** `map<Key>(args...)`: a new table with one more entry; the entries of
      `t` keep their indices and the new entry is last.  `t` itself is a
      value and stays as it was. */
  function Map<T>(t: Table<T>, key: seq<int>, value: T): (r: Table<T>)
    requires Size(t) + 1 < SizeMax
    ensures Size(r) == Size(t) + 1 && !Empty(r)
    ensures r.keys[..Size(t)] == t.keys && r.data[..Size(t)] == t.data
    ensures r.keys[Size(t)] == key && r.data[Size(t)] == value
  {
    SymbolTable(t.keys + [key], t.data + [value])
  }

  /** The table `symbol_table<T>.map<k0>(v0).map<k1>(v1)...` built from
      `entries` in order. */
  function Build<T>(entries: seq<(seq<int>, T)>): (t: Table<T>)
    requires |entries| < SizeMax
    ensures Size(t) == |entries|
  {
    if entries == [] then EmptyTable()
    else
      var last := entries[|entries| - 1];
      Map(Build(entries[..|entries| - 1]), last.0, last.1)
  }

  /** The table built by successive `map` calls holds exactly the mapped
      entries, at the indices of the calls; it is empty exactly when nothing
      was mapped. */
  lemma {:induction false} BuildEntries<T>(entries: seq<(seq<int>, T)>)
    requires |entries| < SizeMax
    ensures Size(Build(entries)) == |entries|
    ensures Empty(Build(entries)) <==> entries == []
    ensures forall i :: 0 <= i < |entries| ==>
              Build(entries).keys[i] == entries[i].0 && Build(entries).data[i] == entries[i].1
  {
    if entries != [] {
      var prefix := entries[..|entries| - 1];
      BuildEntries(prefix);
      var t := Build(entries);
      forall i | 0 <= i < |entries|
        ensures t.keys[i] == entries[i].0 && t.data[i] == entries[i].1
      {
        if i < |prefix| {
          assert t.keys[i] == t.keys[..|prefix|][i];
          assert t.data[i] == t.data[..|prefix|][i];
        }
      }
    }
  }

  //=== key_index ===//

  /** `key_index`: an index into the table, or `SizeMax` for none. */
  datatype KeyIndex = KeyIndex(value: nat)

  /** `explicit operator bool`: the index names an entry. */
  predicate KeyValid<T>(t: Table<T>, k: KeyIndex): (b: bool)
    ensures b <==> k.value < |t.keys| && k.value < |t.data|
  {
    k.value < Size(t)
  }

  /** `key_index()`: holds `size_t(-1)`, which names no entry of any table. */
  function DefaultKeyIndex(): (k: KeyIndex)
    ensures k.value >= SizeMax
  {
    KeyIndex(SizeMax)
  }

  /** The default index is invalid for every table, whatever its values. */
  lemma DefaultKeyInvalid<T>(t: Table<T>)
    ensures !KeyValid(t, DefaultKeyIndex())
  {
  }

  /** `key_index(idx)`: requires `idx` to name an entry. */
  function MakeKeyIndex<T>(t: Table<T>, idx: nat): (k: KeyIndex)
    requires idx < Size(t)
    ensures KeyValid(t, k) && k.value == idx
  {
    KeyIndex(idx)
  }

  /** `operator[](idx)`: requires a valid index and gives its payload. */
  function Get<T>(t: Table<T>, k: KeyIndex): (r: T)
    requires KeyValid(t, k)
    ensures r == t.data[k.value]
  {
    t.data[k.value]
  }

  /** `map` leaves what every valid index of the old table gives unchanged,
      and the index of the new entry gives the new payload. */
  lemma GetAfterMap<T>(t: Table<T>, key: seq<int>, value: T, k: KeyIndex)
    requires Size(t) + 1 < SizeMax
    ensures KeyValid(t, k) ==> KeyValid(Map(t, key, value), k) && Get(Map(t, key, value), k) == Get(t, k)
    ensures Get(Map(t, key, value), MakeKeyIndex(Map(t, key, value), Size(t))) == value
  {
    var r := Map(t, key, value);
    if KeyValid(t, k) {
      assert r.data[k.value] == r.data[..Size(t)][k.value];
    }
  }

  //=== try_parse ===//

  /** The outcome of a trie search: the index of the key found, and where the
      searching reader stopped. */
  datatype TrieRun = TrieRun(result: Option<nat>, stop: nat)

  /** What a trie search of `t` from `begin` over `units` can answer: it
      stops within the units, and a key it finds is one of the table's keys
      and is exactly the units it went over. */
  ghost predicate RunFits<T>(t: Table<T>, units: seq<int>, begin: nat, run: TrieRun)
  {
    && begin <= run.stop <= |units|
    && (run.result.Some? ==> run.result.value < Size(t) && t.keys[run.result.value] == units[begin..run.stop])
  }

  /** The `key_index` that `try_parse` makes of a trie search: invalid
      exactly when the trie found nothing, the found index otherwise. */
  function Lookup<T>(t: Table<T>, run: TrieRun): (k: KeyIndex)
    requires run.result.Some? ==> run.result.value < Size(t)
    ensures KeyValid(t, k) <==> run.result.Some?
    ensures run.result.Some? ==> k.value == run.result.value
  {
    if run.result.None? then DefaultKeyIndex() else MakeKeyIndex(t, run.result.value)
  }

  /** `try_parse(reader)`: runs the trie on the reader, which is left where
      the trie stopped.  The table must not be empty. */
  method TryParse<T>(t: Table<T>, reader: Reader, run: TrieRun) returns (k: KeyIndex)
    requires !Empty(t) && reader.Valid() && RunFits(t, reader.View(), reader.cur, run)
    modifies reader
    ensures reader.Valid() && reader.cur == run.stop
    ensures k == Lookup(t, run)
    ensures KeyValid(t, k) ==> t.keys[k.value] == reader.View()[old(reader.cur)..reader.cur]
  {
    reader.SetPosition(run.stop);
    if run.result.None? {
      k := DefaultKeyIndex();
    } else {
      k := MakeKeyIndex(t, run.result.value);
    }
  }

  //=== iterator ===//

  /** `iterator`: an index into a table whose size the iterator's type
      fixes; `table` is `None` for a default-constructed iterator. */
  class SymbolIterator<T> {
    const size: nat
    const table: Option<Table<T>>
    var idx: nat

    ghost predicate Valid()
      reads this
    {
      idx <= size && (table.Some? ==> Size(table.value) == size)
    }

    /** `iterator()`: no table, index 0. */
    constructor Default(size: nat)
      ensures Valid() && this.size == size && table.None? && idx == 0
    {
      this.size := size;
      table := None;
      idx := 0;
    }

    /** `iterator(table, idx)`, as `begin()` and `end()` call it. */
    constructor At(t: Table<T>, idx: nat)
      requires idx <= Size(t)
      ensures Valid() && size == Size(t) && table == Some(t) && this.idx == idx
    {
      size := Size(t);
      table := Some(t);
      this.idx := idx;
    }

    /** `deref()`: requires a table and an index naming an entry; gives that
        entry's key and payload.  An iterator of an empty table can never be
        dereferenced. */
    function Deref(): (r: (seq<int>, T))
      reads this
      requires Valid() && table.Some? && idx < size
      ensures r.0 in table.value.keys && r.1 in table.value.data
      ensures r.0 == table.value.keys[idx] && r.1 == table.value.data[idx]
    {
      (table.value.keys[idx], table.value.data[idx])
    }

    /** `increment()`: requires the iterator not to be at the end. */
    method Increment()
      requires Valid() && idx != size
      modifies this
      ensures Valid() && idx == old(idx) + 1
    {
      idx := idx + 1;
    }

    /** `decrement()`: requires the iterator not to be at the beginning. */
    method Decrement()
      requires Valid() && idx != 0
      modifies this
      ensures Valid() && idx == old(idx) - 1
    {
      idx := idx - 1;
    }

    /** `equal(rhs)`: requires both iterators to belong to the same table;
        they are equal exactly when their indices are. */
    function Equal(rhs: SymbolIterator<T>): (r: bool)
      reads this, rhs
      requires table == rhs.table
      ensures r <==> idx == rhs.idx
    {
      idx == rhs.idx
    }
  }

  /** `begin()`: the iterator at index 0. */
  method Begin<T>(t: Table<T>) returns (it: SymbolIterator<T>)
    ensures fresh(it) && it.Valid() && it.table == Some(t) && it.idx == 0 && it.size == Size(t)
  {
    it := new SymbolIterator.At(t, 0);
  }

  /** `end()`: the iterator at index `size()`. */
  method End<T>(t: Table<T>) returns (it: SymbolIterator<T>)
    ensures fresh(it) && it.Valid() && it.table == Some(t) && it.idx == Size(t) && it.size == Size(t)
  {
    it := new SymbolIterator.At(t, Size(t));
  }

  //=== the _sym branch parsers ===//

  /** What `bp::try_parse` stores on success: the symbol and the end of its
      lexeme. */
  datatype Match = Match(symbol: KeyIndex, end: nat)

  /** The token variant: the token must parse (it ends at `tokenEnd`), and
      the trie, run on the token's lexeme alone, must stop at its end and find
      a key; so the key found is the whole lexeme. */
  function TokenMatch<T>(t: Table<T>, units: seq<int>, pos: nat, tokenEnd: Option<nat>, run: TrieRun): (r: Option<Match>)
    requires tokenEnd.Some? ==> pos <= tokenEnd.value <= |units| && RunFits(t, units[..tokenEnd.value], pos, run)
    ensures r.Some? <==> tokenEnd.Some? && run.stop == tokenEnd.value && run.result.Some?
    ensures r.Some? ==>
              && r.value.end == tokenEnd.value && KeyValid(t, r.value.symbol)
              && t.keys[r.value.symbol.value] == units[pos..r.value.end]
  {
    if tokenEnd.None? then None
    else
      var symbol := Lookup(t, run);
      if run.stop != tokenEnd.value then None
      else if !KeyValid(t, symbol) then None
      else Some(Match(symbol, tokenEnd.value))
  }

  /** The identifier variant: the trie must find a key, and the identifier's
      trailing character class must not match after it (`trailing` says
      whether it does), so that the key is not the prefix of a longer
      identifier. */
  function IdentifierMatch<T>(t: Table<T>, units: seq<int>, pos: nat, run: TrieRun, trailing: bool): (r: Option<Match>)
    requires RunFits(t, units, pos, run)
    ensures r.Some? <==> run.result.Some? && !trailing
    ensures r.Some? ==>
              && r.value.end == run.stop && KeyValid(t, r.value.symbol)
              && t.keys[r.value.symbol.value] == units[pos..r.value.end]
  {
    var symbol := Lookup(t, run);
    if !KeyValid(t, symbol) then None
    else if trailing then None
    else Some(Match(symbol, run.stop))
  }

  /** The plain variant: the trie must find a key. */
  function PlainMatch<T>(t: Table<T>, units: seq<int>, pos: nat, run: TrieRun): (r: Option<Match>)
    requires RunFits(t, units, pos, run)
    ensures r.Some? <==> run.result.Some?
    ensures r.Some? ==>
              && r.value.end == run.stop && KeyValid(t, r.value.symbol)
              && t.keys[r.value.symbol.value] == units[pos..r.value.end]
  {
    var symbol := Lookup(t, run);
    if KeyValid(t, symbol) then Some(Match(symbol, run.stop)) else None
  }

  /** `bp<Reader>`: the symbol and end that `try_parse` stores for `finish`.
      `cancel` does nothing in any variant, so it is not modelled. */
  class SymbolBranch<T> {
    const table: Table<T>
    var symbol: KeyIndex
    var end: nat

    /** `bp<Reader> impl{}`: a default key index and a value-initialised
        iterator. */
    constructor (table: Table<T>)
      ensures this.table == table && symbol == DefaultKeyIndex() && end == 0
    {
      this.table := table;
      symbol := DefaultKeyIndex();
      end := 0;
    }

    /** Token variant, `try_parse(cb, reader)`: `tokenEnd` is where the token
        parser ends on `reader` (none if it fails).  The trie runs on a
        partial reader over the token's lexeme; `reader` is not moved. */
    method TryParseToken(reader: Reader, tokenEnd: Option<nat>, run: TrieRun) returns (ok: bool)
      requires !Empty(table) && reader.Valid()
      requires tokenEnd.Some? ==>
                 && reader.cur <= tokenEnd.value <= reader.end
                 && RunFits(table, reader.View()[..tokenEnd.value], reader.cur, run)
      modifies this
      ensures var m := TokenMatch(table, reader.View(), reader.cur, tokenEnd, run);
              && ok == m.Some?
              && (ok ==> symbol == m.value.symbol && end == m.value.end)
    {
      if tokenEnd.None? {
        return false;
      }
      end := tokenEnd.value;
      var content := PartialReader(reader, end);
      assert content.View() == reader.View()[..end];
      symbol := TryParse(table, content, run);
      if content.Position() != end {
        return false;
      }
      ok := KeyValid(table, symbol);
    }

    /** Identifier variant, `try_parse(cb, reader)`: the trie runs on a copy
        of `reader`; `trailing` is whether the identifier's trailing pattern
        matches where the trie stopped. */
    method TryParseIdentifier(reader: Reader, run: TrieRun, trailing: bool) returns (ok: bool)
      requires !Empty(table) && reader.Valid() && RunFits(table, reader.View(), reader.cur, run)
      modifies this
      ensures var m := IdentifierMatch(table, reader.View(), reader.cur, run, trailing);
              && ok == m.Some?
              && (ok ==> symbol == m.value.symbol && end == m.value.end)
    {
      var copy := reader.Clone();
      symbol := TryParse(table, copy, run);
      if !KeyValid(table, symbol) {
        return false;
      }
      end := copy.Position();
      ok := !trailing;
    }

    /** Plain variant, `try_parse(cb, reader)`: the trie runs on a copy of
        `reader`. */
    method TryParsePlain(reader: Reader, run: TrieRun) returns (ok: bool)
      requires !Empty(table) && reader.Valid() && RunFits(table, reader.View(), reader.cur, run)
      modifies this
      ensures var m := PlainMatch(table, reader.View(), reader.cur, run);
              && ok == m.Some?
              && (ok ==> symbol == m.value.symbol && end == m.value.end)
      ensures end == run.stop
    {
      var copy := reader.Clone();
      symbol := TryParse(table, copy, run);
      end := copy.Position();
      ok := KeyValid(table, symbol);
    }

    /** `finish(context, reader, args...)`: reports one token of `kind` over
        `[position, end)`, moves the reader to `end` and continues with the
        symbol's payload. */
    method Finish(reader: Reader, kind: TokenKind) returns (ev: Event, value: T)
      requires reader.Valid() && KeyValid(table, symbol) && reader.cur <= end <= reader.end
      modifies reader
      ensures reader.Valid() && reader.cur == end
      ensures ev == TokenEvent(kind, old(reader.cur), end) && value == Get(table, symbol)
    {
      ev := TokenEvent(kind, reader.Position(), end);
      reader.SetPosition(end);
      value := Get(table, symbol);
    }
  }

  //=== the _sym parsers ===//

  /** How a `_sym` parser goes on: with the symbol's payload handed to the
      next parser, or failed. */
  datatype SymOutcome<T> = Continue(value: T) | Fail

  /** Token variant, `p::_cont::parse`: the token has been captured as the
      lexeme `[lexBegin, lexEnd)`.  The trie runs on a partial reader over
      the lexeme; a key that is the whole lexeme continues with its payload,
      anything else reports one unknown-symbol error (or the user's tag) over
      the whole lexeme and fails.  `reader` is not moved. */
  method ParseToken<T>(t: Table<T>, reader: Reader, lexBegin: nat, lexEnd: nat, run: TrieRun, tag: Option<nat>)
      returns (outcome: SymOutcome<T>, events: seq<Event>)
    requires !Empty(t) && reader.Valid() && lexBegin <= lexEnd <= reader.end
    requires RunFits(t, reader.data[..lexEnd], lexBegin, run)
    ensures outcome.Continue? <==> run.result.Some? && run.stop == lexEnd
    ensures outcome.Continue? ==>
              && events == []
              && t.keys[run.result.value] == reader.data[lexBegin..lexEnd]
              && outcome.value == t.data[run.result.value]
    ensures outcome.Fail? ==> events == [ErrorEvent(TagOr(tag), lexBegin, lexEnd)]
  {
    var content := PartialReaderRange(reader, lexBegin, lexEnd);
    var symbol := TryParse(t, content, run);
    if !KeyValid(t, symbol) || content.Position() != lexEnd {
      outcome, events := Fail, [ErrorEvent(TagOr(tag), lexBegin, lexEnd)];
      return;
    }
    outcome, events := Continue(Get(t, symbol)), [];
  }

  /** What parsing the identifier pattern as a token rule did when it
      matched: it reported its token over `[position, tokenEnd)`, then skipped
      whitespace up to `skipEnd`, reporting the events `skipped`. */
  datatype IdentifierRun = IdentifierRun(tokenEnd: nat, skipEnd: nat, skipped: seq<Event>)

  /** Identifier variant, `p::parse`.  If the trie finds a key that the
      identifier's trailing pattern does not continue (`trailing`), the
      identifier token is reported over the key and parsing continues with
      its payload.  Otherwise the identifier pattern is parsed normally as a
      token rule: if it fails (`id` is none) the parser fails with the
      pattern's own error and nothing of its own; if it matches, its token
      and whitespace events come first, then one unknown-symbol error (or
      the user's tag) from the start up to where the pattern parser left the
      reader, which stays there, and the parser fails. */
  method ParseIdentifier<T>(t: Table<T>, reader: Reader, run: TrieRun, trailing: bool,
                            id: Option<IdentifierRun>, kind: TokenKind, tag: Option<nat>)
      returns (outcome: SymOutcome<T>, events: seq<Event>)
    requires !Empty(t) && reader.Valid() && RunFits(t, reader.View(), reader.cur, run)
    requires id.Some? ==> reader.cur <= id.value.tokenEnd <= id.value.skipEnd <= reader.end
    modifies reader
    ensures reader.Valid()
    ensures var m := IdentifierMatch(t, old(reader.View()), old(reader.cur), run, trailing);
            && (m.Some? ==>
                  && outcome == Continue(Get(t, m.value.symbol))
                  && events == [TokenEvent(kind, old(reader.cur), m.value.end)]
                  && reader.cur == m.value.end)
            && (m.None? && id.Some? ==>
                  && outcome == Fail
                  && events == [TokenEvent(kind, old(reader.cur), id.value.tokenEnd)] + id.value.skipped
                                + [ErrorEvent(TagOr(tag), old(reader.cur), id.value.skipEnd)]
                  && reader.cur == id.value.skipEnd)
            && (m.None? && id.None? ==> outcome == Fail && events == [] && reader.cur == old(reader.cur))
  {
    var begin := reader.Position();
    var symbolReader := reader.Clone();
    var symbol := TryParse(t, symbolReader, run);
    if !KeyValid(t, symbol) || trailing {
      if id.None? {
        return Fail, [];
      }
      var token := TokenEvent(kind, begin, id.value.tokenEnd);
      reader.SetPosition(id.value.tokenEnd);
      reader.SetPosition(id.value.skipEnd);
      outcome, events := Fail, [token] + id.value.skipped + [ErrorEvent(TagOr(tag), begin, reader.Position())];
    } else {
      var end := symbolReader.Position();
      reader.SetPosition(end);
      outcome, events := Continue(Get(t, symbol)), [TokenEvent(kind, begin, end)];
    }
  }

  /** Plain variant, `p::parse`: the branch parser is tried; on success its
      `finish` reports an identifier token over the key and parsing
      continues with the payload, otherwise one unknown-symbol error (or the
      user's tag) is reported at the reader's position, which does not move,
      and the parser fails. */
  method ParsePlain<T>(t: Table<T>, reader: Reader, run: TrieRun, tag: Option<nat>)
      returns (outcome: SymOutcome<T>, events: seq<Event>)
    requires !Empty(t) && reader.Valid() && RunFits(t, reader.View(), reader.cur, run)
    modifies reader
    ensures reader.Valid()
    ensures var m := PlainMatch(t, old(reader.View()), old(reader.cur), run);
            && (m.Some? ==>
                  && outcome == Continue(Get(t, m.value.symbol))
                  && events == [TokenEvent(IdentifierKind, old(reader.cur), m.value.end)]
                  && reader.cur == m.value.end)
            && (m.None? ==>
                  && outcome == Fail
                  && events == [ErrorEvent(TagOr(tag), old(reader.cur), old(reader.cur))]
                  && reader.cur == old(reader.cur))
  {
    var impl := new SymbolBranch(t);
    var ok := impl.TryParsePlain(reader, run);
    if ok {
      var ev, value := impl.Finish(reader, IdentifierKind);
      outcome, events := Continue(value), [ev];
    } else {
      outcome, events := Fail, [ErrorEvent(TagOr(tag), reader.Position(), reader.Position())];
    }
  }
}
