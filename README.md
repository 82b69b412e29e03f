# lexy core in Dafny

A model of the core of lexy, a C++ parser-combinator library, together with proofs about it.

- **Code-point codec.** `encode_code_point` writes a code point as ASCII, UTF-8, UTF-16 or UTF-32 code units. `parse_code_point` decodes one code point and classifies the errors. `recover_code_point` moves a reader past the bad units.
- **Reader.** `_rr` is a cursor over an iterator range with `peek`, `bump`, `position` and `set_position`. `partial_reader` builds a reader over part of another reader's range.
- **`range_input`.** It holds an input's begin and end iterators and hands out readers.
- **Symbol table.** `_symbol_table` is an immutable table from strings of code units to payloads. It has `map`, `size`/`empty`, a bidirectional iterator, `key_index`, `try_parse` and `operator[]`.
- **`_sym` rule.** It has three variants: after a token, after an identifier pattern, and on its own. Each has a branch parser (`bp`) and a plain parser (`p`).
- **Container callbacks and sinks.** `as_list` pushes values to the back. `as_collection` inserts values. `collect` stores a callback's results or counts its calls.
- **`parse_tree_handler`.** It turns parse events into a lossless parse tree.

Iterators are natural numbers that index the buffer they point into. `peek` answers `EofValue` (-1) at the end. Every code unit is a non-negative value of the encoding's char type, so no unit equals it.

`parse_code_point` takes its reader by value, so only its result can be observed. It is therefore a pure function of the units and the starting index. The source tests bit masks; the model tests ranges. `CodePointProofs.Utf8MasksAreRanges` and `CodePointProofs.Utf16MasksAreRanges` prove that the two agree on `bv8`/`bv16` units.

The main properties proved:
- **Codec round trip, in both directions.** `ParseCodePoint` is the decoder with its UTF-16 arm corrected as described under "## Findings". `ParseCodePointAsWritten` is the decoder as the source writes it. `CodePointProofs.AsWrittenDiffersOnlyOnPairs` proves that the two differ only in the value of a UTF-16 surrogate pair. The round trip is proved of the corrected decoder:
  - Decoding the units that `EncodeUnits` writes for a Unicode scalar value gives it back, with `end` at the end of those units.
  - Every successful decode reads exactly the encoding of the code point it returns.
- **Error classification.** For every error class there is an if-and-only-if characterisation of the inputs that produce it.
- **Symbol table.**
  - `map` keeps earlier entries and appends the new one last.
  - Assuming the trie run fits (`RunFits`: a found key equals the units the search passed over), the outcome, the events and the reader position of each `_sym` variant are given exactly on every path. The token variant continues with no event of its own, since the token event comes from the captured token. The identifier and plain variants continue with a token over the key. The failure events are those in the `Symbol.ParseToken`, `Symbol.ParseIdentifier` and `Symbol.ParsePlain` rows.
- **Sinks.** Feeding arguments to a sink one call at a time gives what the one-shot callback gives.
- **Parse-tree handler.** Its ghost state proves that the leaves of the tree cover the input from the root's start without gap or overlap. This still holds after a nested production is cancelled.

Files:
- `wrappers.dfy`: `Option`.
- `events.dfy`: parse events and token kinds.
- `input_base.dfy`: the reader and `partial_reader`.
- `range_input.dfy`: `range_input`.
- `code_point.dfy`: the codec.
- `code_point_proofs.dfy`: lemmas about the codec.
- `symbol.dfy`: the symbol table and `_sym`.
- `container.dfy`: the container callbacks and sinks.
- `parse_as_tree.dfy`: the parse-tree handler.

## Model

| member | source | states |
|---|---|---|
| InputBase.PeekAt | include/lexy/input/base.hpp:70-76 | the eof value exactly at the end of the units, the unit at the index otherwise |
| InputBase.Reader.constructor | include/lexy/input/base.hpp:65-68 | requires begin to precede end; the cursor starts at begin and the end is the given end |
| InputBase.Reader.Peek | include/lexy/input/base.hpp:70-76 | `peek` is the eof value iff the cursor is at the end; otherwise it is the current unit |
| InputBase.Reader.Position | include/lexy/input/base.hpp:84-87 | the position is the cursor and never lies past the end |
| InputBase.Reader.Bump | include/lexy/input/base.hpp:78-82 | requires cursor ≠ end; advances the cursor by exactly one unit, end unchanged |
| InputBase.Reader.SetPosition | include/lexy/input/base.hpp:89-93 | requires the new position to precede end; afterwards the cursor is that position and end is unchanged |
| InputBase.Reader.Clone | include/lexy/input/base.hpp:95-97 | a copy of a reader is a distinct object with the same cursor and end |
| InputBase.RangeReader | include/lexy/input/base.hpp:109-127 | `_range_reader(begin, end)` is a fresh reader at begin that ends at end |
| InputBase.PartialReaderRange | include/lexy/input/base.hpp:140-145 | a fresh reader of the same encoding over `[begin, end)` of the same buffer |
| InputBase.PartialReader | include/lexy/input/base.hpp:147-152 | a fresh reader starting at the reader's position and ending at `end`; the original reader is not modified |
| InputBase.BumpCopy | include/lexy/input/base.hpp:13 | readers are values: bumping a copy advances the copy by one and leaves the original where it was |
| RangeInput.DefaultInput | include/lexy/input/range_input.hpp:25 | a default input has equal begin and end |
| RangeInput.MakeInput | include/lexy/input/range_input.hpp:27-38 | `begin()` and `end()` give back exactly the iterators the input was constructed from |
| RangeInput.RangeInput.Begin | include/lexy/input/range_input.hpp:30-33 | `begin()` gives the stored begin iterator |
| RangeInput.RangeInput.End | include/lexy/input/range_input.hpp:35-38 | `end()` gives the stored end iterator |
| RangeInput.ReaderOf | include/lexy/input/range_input.hpp:41-44 | `reader()` is a fresh reader at `begin()` that peeks eof immediately iff begin equals end, and ends at `end()` |
| RangeInput.TwoReaders | include/lexy/input/range_input.hpp:41-44 | two calls of `reader()` give two distinct readers with equal state; the input is not modified |
| Events.TagOr | include/lexy/dsl/symbol.hpp:294-295 | the error tag is `unknown_symbol` iff no user tag was given, the user tag otherwise |
| CodePoint.Utf8Units | include/lexy/_detail/code_point.hpp:26-77 | UTF-8 encoding writes 1 unit up to 0x7F, 2 up to 0x7FF, 3 up to 0xFFFF and 4 beyond; the first unit has the matching lead pattern and the rest are continuations |
| CodePoint.Utf16Units | include/lexy/_detail/code_point.hpp:78-103 | UTF-16 encoding writes one unit (the value) for BMP values, otherwise a high surrogate followed by a low surrogate |
| CodePoint.EncodeUnits | include/lexy/_detail/code_point.hpp:15-121 | 1 to 4 units, each a value of the encoding's char type; ASCII and UTF-32 write the value itself |
| CodePoint.EncodeCodePoint | include/lexy/_detail/code_point.hpp:15-121 | writes exactly the encoding into `buffer[0..n)`, returns n and leaves the rest of the buffer unchanged |
| CodePoint.ParseAscii | include/lexy/_detail/code_point.hpp:150-163 | the ASCII decoder's result is well-formed: eof consumes nothing, otherwise one unit is consumed |
| CodePoint.ParseUtf8 | include/lexy/_detail/code_point.hpp:164-275 | the UTF-8 decoder consumes at most 4 units, and consumes nothing exactly for eof and leads_with_trailing; success carries a code point |
| CodePoint.ParseUtf8Two | include/lexy/_detail/code_point.hpp:189-207 | the two-unit branch consumes at least the lead unit |
| CodePoint.ParseUtf8Three | include/lexy/_detail/code_point.hpp:208-235 | the three-unit branch consumes at least the lead unit |
| CodePoint.ParseUtf8Four | include/lexy/_detail/code_point.hpp:236-270 | the four-unit branch consumes at least the lead unit |
| CodePoint.ParseUtf16With | include/lexy/_detail/code_point.hpp:276-316 | the UTF-16 decoder consumes at most 2 units and nothing exactly for eof and leads_with_trailing |
| CodePoint.ParseUtf16AsWritten | include/lexy/_detail/code_point.hpp:276-316 | the decoder as written classifies errors and consumes units exactly as the corrected one does |
| CodePoint.ParseUtf16 | include/lexy/_detail/code_point.hpp:276-316 | the corrected UTF-16 decoder's result is well-formed |
| CodePoint.ParseUtf32 | include/lexy/_detail/code_point.hpp:317-332 | the UTF-32 decoder consumes nothing at eof and one unit otherwise |
| CodePoint.ParseCodePoint | include/lexy/_detail/code_point.hpp:147-339 | for every encoding the result is well-formed and `predicate_failure` is never produced; the UTF-16 arm is the corrected decoder from "## Findings" |
| CodePoint.ParseCodePointAsWritten | include/lexy/_detail/code_point.hpp:147-339 | the decoder as written, with the source's UTF-16 pair combination; for every encoding its result is well-formed and has the same error and end as the corrected decoder |
| CodePoint.RecoveredPosition | include/lexy/_detail/code_point.hpp:341-368 | eof leaves the position, leads_with_trailing advances it by one, every other error moves it to the result's end |
| CodePoint.RecoverCodePoint | include/lexy/_detail/code_point.hpp:341-368 | recovery moves the reader to `RecoveredPosition`; recovering from success is excluded by the precondition |
| CodePointProofs.Utf8TwoFields | include/lexy/_detail/code_point.hpp:189-207 | the payload bits the decoder assembles from a two-unit encoding are the code point; an encoding never starts with C0 or C1 |
| CodePointProofs.Utf8ThreeFields | include/lexy/_detail/code_point.hpp:208-235 | the payload bits of a three-unit encoding are the code point, and the encoding is never overlong |
| CodePointProofs.Utf8FourFields | include/lexy/_detail/code_point.hpp:236-270 | the payload bits of a four-unit encoding are the code point, and the encoding is never overlong |
| CodePointProofs.Utf8Decodes | include/lexy/_detail/code_point.hpp:164-275 | the UTF-8 encoding of a scalar value decodes to it with success, consuming exactly its units |
| CodePointProofs.Utf8TwoSuccess | include/lexy/_detail/code_point.hpp:189-207 | a successful two-unit decode is a scalar value whose encoding is the two units read |
| CodePointProofs.Utf8ThreeSuccess | include/lexy/_detail/code_point.hpp:208-235 | a successful three-unit decode is a scalar value whose encoding is the three units read |
| CodePointProofs.Utf8FourSuccess | include/lexy/_detail/code_point.hpp:236-270 | a successful four-unit decode is a scalar value whose encoding is the four units read |
| CodePointProofs.Utf8SuccessIsEncoding | include/lexy/_detail/code_point.hpp:164-275 | every successful UTF-8 decode returns a scalar value and consumes exactly its encoding |
| CodePointProofs.Utf8LeadsWithTrailing | include/lexy/_detail/code_point.hpp:185-188 | leads_with_trailing iff the first unit is a continuation unit |
| CodePointProofs.Utf8Eof | include/lexy/_detail/code_point.hpp:271-274 | eof iff at the end or the first unit is F8..FF |
| CodePointProofs.Utf8MissingTrailing | include/lexy/_detail/code_point.hpp:189-270 | missing_trailing iff a multi-unit lead is not followed by all its continuation units; `end` is just after the last good unit, and what follows is not a continuation |
| CodePointProofs.Utf8CompleteConsumed | include/lexy/_detail/code_point.hpp:189-270 | when all continuation units are present, all are consumed, and the result is success, surrogate, overlong or out of range |
| CodePointProofs.Utf8Overlong | include/lexy/_detail/code_point.hpp:189-270 | overlong_sequence iff the sequence is complete and starts with C0/C1, with E0 and a second unit below A0, or with F0 and a second unit below 90 |
| CodePointProofs.Utf8Surrogate | include/lexy/_detail/code_point.hpp:228-230 | surrogate iff the sequence is ED, A0..BF, continuation |
| CodePointProofs.Utf8OutOfRange | include/lexy/_detail/code_point.hpp:263-265 | out_of_range iff a complete four-unit sequence starts with F5..F7, or with F4 and a second unit of at least 90 |
| CodePointProofs.Utf16PairFields | include/lexy/_detail/code_point.hpp:95-101 | the ten payload bits of the two surrogates the encoder writes are the code point minus 0x10000 |
| CodePointProofs.Utf16Decodes | include/lexy/_detail/code_point.hpp:276-316 | the UTF-16 encoding of a scalar value decodes to it with success (corrected decoder) |
| CodePointProofs.Utf16SuccessIsEncoding | include/lexy/_detail/code_point.hpp:284-315 | every successful UTF-16 decode (corrected) returns a scalar value and consumes exactly its encoding |
| CodePointProofs.Utf16AsWrittenDecodes | include/lexy/_detail/code_point.hpp:299-304 | as written, a surrogate pair decodes to the code point only when bit 16 of cp − 0x10000 is clear, and to cp − 0x10000 otherwise |
| CodePointProofs.Utf16AsWrittenCounterexample | include/lexy/_detail/code_point.hpp:303 | D840 DC00, the encoding of U+20000, decodes as written to U+10000, and to U+20000 when corrected |
| CodePointProofs.Utf16Errors | include/lexy/_detail/code_point.hpp:284-315 | leads_with_trailing iff the first unit is a low surrogate; missing_trailing iff a high surrogate is not followed by a low one, and then one unit is consumed; no other error occurs |
| CodePointProofs.RoundTrip | include/lexy/_detail/code_point.hpp:15-339 | for every encoding, decoding the encoding of a scalar value gives it back with success, and `end` advances by the number of units written; the UTF-16 arm is the corrected decoder, and `Utf16AsWrittenDecodes` states what the source as written returns |
| CodePointProofs.DecodeSuccessIsEncoding | include/lexy/_detail/code_point.hpp:147-339 | for every encoding, a successful decode is the encoding of a scalar value; the UTF-16 arm is the corrected decoder |
| CodePointProofs.AsWrittenDiffersOnlyOnPairs | include/lexy/_detail/code_point.hpp:276-316 | the decoder as written and the corrected one agree on error and end everywhere, and on the value except for a UTF-16 surrogate pair, where the source sets bit 16 of cp − 0x10000 instead of adding 0x10000 |
| CodePointProofs.EncodedSurrogateRejected | include/lexy/_detail/code_point.hpp:228-332 | a surrogate written in UTF-8 or UTF-32 decodes to error surrogate over all its units; in UTF-16 it never decodes to itself |
| CodePointProofs.SingleUnitClassified | include/lexy/_detail/code_point.hpp:150-332 | ASCII and UTF-32 consume one unit and report it; ASCII succeeds iff the unit is ASCII; UTF-32 succeeds iff scalar, out_of_range iff above 0x10FFFF, surrogate iff a surrogate |
| CodePointProofs.SingleUnitSuccessIsEncoding | include/lexy/_detail/code_point.hpp:150-332 | a successful ASCII or UTF-32 decode read exactly one unit, which is the encoding of the value it reports |
| CodePointProofs.EofAtEnd | include/lexy/_detail/code_point.hpp:147-339 | at the end of the input every encoding gives eof with nothing consumed |
| CodePointProofs.ParseThenRecover | include/lexy/_detail/code_point.hpp:341-368 | after a failed decode recovery is allowed, stays within the input, moves iff the error is not eof, and moves by at most the encoding's longest sequence |
| CodePointProofs.Utf8MasksAreRanges | include/lexy/_detail/code_point.hpp:166-185 | on bytes, the lead and continuation mask tests equal the range tests, and the payload masks equal remainders |
| CodePointProofs.Utf16MasksAreRanges | include/lexy/_detail/code_point.hpp:278-288 | on 16-bit units, the surrogate mask tests equal the range tests, and the payload mask equals the unsigned remainder by 0x400 |
| CodePointProofs.CountAfterParse | tests/lexy/dsl/code_point.cpp:25-43 | the units passed after decoding (and recovering) never exceed the input |
| CodePointProofs.AsciiCases | tests/lexy/dsl/code_point.cpp:49-64 | the ASCII cases of the test suite: eof, success, out_of_range, with their unit counts |
| CodePointProofs.Utf8SuccessCases | tests/lexy/dsl/code_point.cpp:102-125 | empty input is eof with nothing consumed; two-, three- and four-unit encodings of U+00E4, U+20AC and U+1F642 decode to those values with the unit counts 2, 3, 4 |
| CodePointProofs.Utf8TrailingCases | tests/lexy/dsl/code_point.cpp:126-180 | a stray continuation is leads_with_trailing after one unit; lead units without enough continuations are missing_trailing, after the units the test suite counts |
| CodePointProofs.Utf8InvalidValueCases | tests/lexy/dsl/code_point.cpp:181-188 | an encoded surrogate is reported as surrogate after three units; a four-unit value above U+10FFFF is out_of_range after four units |
| CodePointProofs.Utf8OverlongCases | tests/lexy/dsl/code_point.cpp:189-196 | the two-unit overlong sequences C0 84 and C1 84 are each overlong_sequence after two units |
| CodePointProofs.Utf8LongOverlongCases | tests/lexy/dsl/code_point.cpp:197-205 | the overlong sequences E0 80 80 and F0 80 80 80 are overlong_sequence after three and four units |
| CodePointProofs.Utf16Utf32Cases | tests/lexy/dsl/code_point.cpp:226-346 | the UTF-16 and UTF-32 cases of the test suite: a pair, a lone low/high surrogate, a UTF-32 surrogate and out-of-range value |
| Symbol.EmptyTable | include/lexy/dsl/symbol.hpp:44 | the initial table is empty |
| Symbol.Size | include/lexy/dsl/symbol.hpp:82-85 | `size()` is the number of keys, which equals the number of payloads |
| Symbol.Empty | include/lexy/dsl/symbol.hpp:77-80 | `empty()` holds iff the table has no keys and no payloads, iff no key index is valid |
| Symbol.Map | include/lexy/dsl/symbol.hpp:46-55 | one more entry; the old keys and payloads keep their indices; the new key and payload are last |
| Symbol.Build | include/lexy/dsl/symbol.hpp:46-55 | a table built by successive `map` calls has one entry per call |
| Symbol.BuildEntries | include/lexy/dsl/symbol.hpp:46-85 | the built table holds exactly the mapped entries at the indices of the calls; `size()` is their number and `empty()` holds iff there are none |
| Symbol.DefaultKeyIndex | include/lexy/dsl/symbol.hpp:149 | the default `key_index` holds a value no table size reaches |
| Symbol.KeyValid | include/lexy/dsl/symbol.hpp:155-158 | an index converts to true iff it names both a key and a payload of the table |
| Symbol.DefaultKeyInvalid | include/lexy/dsl/symbol.hpp:149-158 | the default `key_index` is invalid for every table |
| Symbol.MakeKeyIndex | include/lexy/dsl/symbol.hpp:150-153 | the explicit constructor requires an index below `size()` and yields a valid index |
| Symbol.Get | include/lexy/dsl/symbol.hpp:183-187 | `operator[]` requires a valid index and gives the payload of the entry it names |
| Symbol.GetAfterMap | include/lexy/dsl/symbol.hpp:183-187 | `operator[]` on a valid index of the old table gives the same payload after `map`; the new index gives the new payload |
| Symbol.Lookup | include/lexy/dsl/symbol.hpp:170-181 | the result of `try_parse` is invalid exactly when the trie found nothing, and otherwise it is the found index |
| Symbol.TryParse | include/lexy/dsl/symbol.hpp:170-181 | requires a non-empty table and, assuming the trie run fits (`RunFits`), the reader ends where the trie stopped and a valid result names a key equal to the units consumed |
| Symbol.SymbolIterator.Default | include/lexy/dsl/symbol.hpp:91 | a default iterator has no table and index 0 |
| Symbol.SymbolIterator.At | include/lexy/dsl/symbol.hpp:126-128 | an iterator of a table at an index up to `size()` |
| Symbol.SymbolIterator.Deref | include/lexy/dsl/symbol.hpp:93-106 | requires a table and an index below size; gives `(keys[idx], data[idx])` |
| Symbol.SymbolIterator.Increment | include/lexy/dsl/symbol.hpp:108-112 | requires idx ≠ size; the index goes up by one |
| Symbol.SymbolIterator.Decrement | include/lexy/dsl/symbol.hpp:113-117 | requires idx ≠ 0; the index goes down by one |
| Symbol.SymbolIterator.Equal | include/lexy/dsl/symbol.hpp:119-123 | requires the same table; equal iff the indices are equal |
| Symbol.Begin | include/lexy/dsl/symbol.hpp:136-139 | `begin()` is the iterator at index 0 |
| Symbol.End | include/lexy/dsl/symbol.hpp:140-143 | `end()` is the iterator at index `size()` |
| Symbol.TokenMatch | include/lexy/dsl/symbol.hpp:240-259 | assuming the trie run fits (`RunFits`), the token branch matches iff the token parses, the trie stops at the token's end and finds a key; the key is then the whole lexeme |
| Symbol.IdentifierMatch | include/lexy/dsl/symbol.hpp:331-342 | assuming the trie run fits (`RunFits`), the identifier branch matches iff the trie finds a key and the trailing pattern does not match after it; the key is then the units up to `end` |
| Symbol.PlainMatch | include/lexy/dsl/symbol.hpp:416-425 | assuming the trie run fits (`RunFits`), the plain branch matches iff the trie finds a key, which is then the units up to `end` |
| Symbol.SymbolBranch.constructor | include/lexy/dsl/symbol.hpp:450 | a fresh branch parser holds the default (invalid) key index |
| Symbol.SymbolBranch.TryParseToken | include/lexy/dsl/symbol.hpp:240-259 | succeeds exactly when `TokenMatch` does and then stores its symbol and end |
| Symbol.SymbolBranch.TryParseIdentifier | include/lexy/dsl/symbol.hpp:331-342 | succeeds exactly when `IdentifierMatch` does and then stores its symbol and end |
| Symbol.SymbolBranch.TryParsePlain | include/lexy/dsl/symbol.hpp:416-425 | succeeds exactly when `PlainMatch` does and stores where the trie stopped |
| Symbol.SymbolBranch.Finish | include/lexy/dsl/symbol.hpp:265-275 | reports one token over `[position, end)`, moves the reader to `end` and continues with the symbol's payload |
| Symbol.ParseToken | include/lexy/dsl/symbol.hpp:285-302 | continues with the payload iff the trie finds a key spanning the whole lexeme; otherwise exactly one error with the tag over the lexeme, and failure |
| Symbol.ParseIdentifier | include/lexy/dsl/symbol.hpp:364-399 | on a match, a token over the key, the reader after it, and the payload; otherwise failure: if the identifier pattern parses, its token over the identifier, the whitespace events it reported, then one error from the start to where the pattern parser left the reader, which stays there; if it does not, nothing of its own |
| Symbol.ParsePlain | include/lexy/dsl/symbol.hpp:447-461 | on a match, an identifier token over the key, the reader after it, and the payload; otherwise one error at the unmoved position, and failure |
| Container.ListSink.constructor | include/lexy/callback/container.hpp:128-131 | `sink()` starts with an empty container |
| Container.ListSink.Push | include/lexy/callback/container.hpp:26-36 | each call appends exactly its argument at the back |
| Container.ListSink.Finish | include/lexy/callback/container.hpp:38-41 | `finish()` hands out the container the sink has built |
| Container.ListOf | include/lexy/callback/container.hpp:106-116 | `_list(args...)` holds exactly the arguments, in argument order |
| Container.ListFrom | include/lexy/callback/container.hpp:97-104 | an existing container is returned unchanged; nullopt gives an empty one |
| Container.ListThroughSink | include/lexy/callback/container.hpp:19-42 | feeding the arguments to the sink one by one and finishing gives what `_list(args...)` gives |
| Container.CollectionSink.constructor | include/lexy/callback/container.hpp:267-270 | `sink()` starts with an empty container |
| Container.CollectionSink.Insert | include/lexy/callback/container.hpp:164-174 | each call inserts its argument, and reports whether it was new |
| Container.CollectionSink.Finish | include/lexy/callback/container.hpp:176-179 | `finish()` hands out the collection the sink has built |
| Container.CollectionOf | include/lexy/callback/container.hpp:244-254 | `_collection(args...)` holds exactly the arguments |
| Container.CollectionFrom | include/lexy/callback/container.hpp:235-242 | an existing container is returned unchanged; nullopt gives an empty one |
| Container.CollectionThroughSink | include/lexy/callback/container.hpp:157-180 | inserting the arguments through the sink and finishing gives what `_collection(args...)` gives |
| Container.CollectSink.constructor | include/lexy/callback/container.hpp:300 | the sink keeps the callback and starts empty |
| Container.CollectSink.Call | include/lexy/callback/container.hpp:308-313 | each call appends the callback's result |
| Container.CollectSink.Finish | include/lexy/callback/container.hpp:315-318 | `finish()` hands out the callback results collected so far |
| Container.CountSink.constructor | include/lexy/callback/container.hpp:328-329 | the count starts at 0 |
| Container.CountSink.Call | include/lexy/callback/container.hpp:333-339 | each call increases the count by exactly one |
| Container.CountSink.Finish | include/lexy/callback/container.hpp:341-344 | `finish()` gives the number of calls counted |
| Container.CollectSinkOf | include/lexy/callback/container.hpp:357-360 | `_collect::sink()` is a fresh, empty sink holding the callback |
| Container.CountSinkOf | include/lexy/callback/container.hpp:357-360 | `_collect<void>::sink()` is a fresh sink with count 0 |
| Container.CollectThroughSink | include/lexy/callback/container.hpp:296-323 | after one call per argument, `finish` gives the callback's results in call order |
| Container.CountThroughSink | include/lexy/callback/container.hpp:324-349 | after n calls, `finish` gives n |
| ParseAsTree.NewBuilder | include/lexy/action/parse_as_tree.hpp:31 | the builder opens the root production with no leaves |
| ParseAsTree.StartProduction | include/lexy/action/parse_as_tree.hpp:33 | opens an empty child production; the marker is its depth; open productions and leaves are unchanged |
| ParseAsTree.FinishProduction | include/lexy/action/parse_as_tree.hpp:43 | the innermost production becomes the last child of its parent; no leaf is lost or added |
| ParseAsTree.CancelProduction | include/lexy/action/parse_as_tree.hpp:57 | the innermost production is dropped with all its leaves, which are exactly what disappears from the frontier |
| ParseAsTree.AddToken | include/lexy/action/parse_as_tree.hpp:68 | the token becomes the last leaf of the innermost production; the outer productions are unchanged |
| ParseAsTree.FinishTree | include/lexy/action/parse_as_tree.hpp:41 | the finished tree is the root production, and its leaves are every leaf the builder kept |
| ParseAsTree.CancelKeepsCovered | include/lexy/action/parse_as_tree.hpp:52-59 | if the leaves before a cancelled production cover the input up to its begin, then after the error token they cover it up to the cancel position |
| ParseAsTree.TokenKeepsCovered | include/lexy/action/parse_as_tree.hpp:64-70 | a token starting where the covered input ends extends the coverage to its end |
| ParseAsTree.ParseTreeHandler.constructor | include/lexy/action/parse_as_tree.hpp:18-20 | depth 0, no builder, the caller's tree |
| ParseAsTree.EventHandler.constructor | include/lexy/action/parse_as_tree.hpp:84-87 | an event handler for its production |
| ParseAsTree.EventHandler.OnProductionStart | include/lexy/action/parse_as_tree.hpp:28-36 | depth + 1; at depth 0 it creates the root builder; deeper it starts a child and keeps the marker; forwards the event; keeps the tree lossless |
| ParseAsTree.EventHandler.OnProductionFinish | include/lexy/action/parse_as_tree.hpp:38-46 | depth − 1; at the root it stores the finished tree; deeper it finishes the production at the marker; forwards; the stored tree covers the input from the root's start |
| ParseAsTree.EventHandler.OnProductionCancel | include/lexy/action/parse_as_tree.hpp:48-62 | depth − 1; at the root it clears the tree; deeper it drops the production and adds one error token over `[begin, pos)`; forwards; keeps the tree lossless |
| ParseAsTree.EventHandler.OnToken | include/lexy/action/parse_as_tree.hpp:64-70 | appends a leaf with the same kind and range; forwards; a contiguous token keeps the tree lossless |
| ParseAsTree.EventHandler.OnOther | include/lexy/action/parse_as_tree.hpp:72-82 | error and other events are only forwarded; the tree, the builder and the depth are unchanged |

## Left out

- The `code_point` class is not part of this model. Its predicates are taken as `is_ascii` ≤ 0x7F, `is_bmp` ≤ 0xFFFF, `is_surrogate` 0xD800–0xDFFF and `is_valid` ≤ 0x10FFFF. `is_valid` lets surrogates through, as the UTF-32 surrogate test requires.
- The encodings' `eof()` and `to_int_type` are not part of this model. Eof is the distinguished value -1, and units are their non-negative values.
- CodePoint.ParseCodePoint: its UTF-16 arm combines a surrogate pair by adding 0x10000, not by the source's `|= 0x10000` (see "## Findings"). The round-trip lemmas are about this corrected decoder; `CodePoint.ParseCodePointAsWritten` is the decoder as written, and `CodePointProofs.AsWrittenDiffersOnlyOnPairs` bounds the difference.
- The trie (`_detail/trie.hpp`) is not part of this model. A search is given by its outcome (`TrieRun`): the key found, which must equal the units passed over, and where it stopped. Longest match is not verified.
- Token parsers, identifier patterns and the trailing-pattern match are not part of this model. Their outcomes are parameters: where the token ends, whether the identifier parses (and then where its token ends, where its whitespace skipping stops and what events the skipping reports), whether the trailing pattern matches. Events (tokens, whitespace, errors) those parsers report themselves are not modelled, except the identifier token and whitespace events of the unknown-identifier path of `Symbol.ParseIdentifier`, which are given as parameters.
- The whitespace continuation and the next parser after `_sym` are not modelled. The model stops at the payload it would hand on.
- `lexy::error(pos)`, the single-position error of the plain `_sym`, is modelled as an error over `[pos, pos)`.
- `cancel` of the `_sym` branch parsers does nothing and has no counterpart.
- Symbol.Map: requires the new size to stay below `size_t(-1)`. The model's table keeps its size below that value, so that no valid index can equal the default `key_index`.
- Symbol.SymbolIterator.Equal: compares table identity as equality of table values. The source compares table pointers.
- The parse-tree builder (`parse_tree.hpp`) is not part of this model. It is a stack of open productions with their children, and a marker is the depth of the production it was handed out for.
- ParseAsTree.EventHandler.OnProductionFinish: after the root finish the builder is `None`. The source leaves a moved-from builder in place until the next root start replaces it.
- The validate handler and `get_result_void` are not part of this model. Forwarded events are only logged.
- Allocator overloads, `_list_alloc`/`_collection_alloc` and the allocator-taking `sink`/`_collect_sink` constructors are left out. Containers are plain sequences and sets; a container built from `alloc(state)` is not distinguished from an empty one.
- `reserve` only changes capacity, so it has no counterpart.
- Container.CountSink.Call: the count is a `nat`. The source's `size_t` would wrap after 2^64 calls.
- `collect`'s `static_assert`s on the callback's return type are compile-time checks. The void and non-void sinks are separate classes instead.
- The callback's own effects in `_collect_sink<void>` are not modelled.
- `LEXY_SYMBOL` and the other compile-time string machinery are left out. Keys are sequences of code units.

## Findings

| source | as written | input that shows it | evidently intended | confidence | as-written member | corrected member |
|---|---|---|---|---|---|---|
| include/lexy/_detail/code_point.hpp:303 | a UTF-16 surrogate pair is combined by ORing 0x10000 into the payload | D840 DC00 (the encoding of U+20000) decodes to U+10000; every supplementary code point whose value minus 0x10000 has bit 16 set (planes 2, 4, …, 16) comes out 0x10000 too low | `payload + 0x10000`, as RFC 2781 section 2.2 says | not executed | CodePointProofs.Utf16AsWrittenCounterexample | CodePointProofs.Utf16SuccessIsEncoding |
