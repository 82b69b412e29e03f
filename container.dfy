/** The container callbacks and sinks: `as_list` (`_list`, `_list_sink`),
    `as_collection` (`_collection`, `_collection_sink`) and `collect`
    (`_collect`, `_collect_sink`).

    A list container is a sequence (`push_back`/`emplace_back` append), a
    collection container is a set (`insert`/`emplace` add an element).
    `reserve` only changes capacity, so it has no counterpart here. */
module Container {
  import opened Wrappers

  //=== as_list ===//

  /** `_list_sink<Container>`: appends every value it is called with. */
  class ListSink<T> {
    var result: seq<T>

    /** `_list_sink<Container>{Container()}`. */
    constructor ()
      ensures result == []
    {
      result := [];
    }

    /** `operator()(obj)`: `push_back` (or `emplace_back`) at the back. */
    method Push(obj: T)
      modifies this
      ensures result == old(result) + [obj]
    {
      result := result + [obj];
    }

    /** `finish()`: the container, moved out. */
    function Finish(): (r: seq<T>)
      reads this
      ensures r == result
    {
      result
    }
  }

  /** `_list::operator()(args...)`: a new container into which every
      argument is emplaced at the back in turn; it holds exactly the
      arguments, in argument order. */
  function ListOf<T>(args: seq<T>): (r: seq<T>)
    ensures r == args
  {
    if args == [] then [] else ListOf(args[..|args| - 1]) + [args[|args| - 1]]
  }

  /** `_list::operator()(Container&&)` and `operator()(nullopt&&)`: an
      existing container is returned as it is, `nullopt` gives an empty
      one. */
  function ListFrom<T>(c: Option<seq<T>>): (r: seq<T>)
    ensures c.Some? ==> r == c.value
    ensures c.None? ==> r == []
  {
    if c.Some? then c.value else []
  }

  /** A caller of `_list::sink()` that calls the sink with each argument in
      order and then finishes it gets what `_list(args...)` gives. */
  method ListThroughSink<T>(args: seq<T>) returns (r: seq<T>)
    ensures r == ListOf(args)
  {
    var sink := new ListSink();
    var i := 0;
    while i < |args|
      invariant 0 <= i <= |args|
      invariant sink.result == args[..i]
    {
      sink.Push(args[i]);
      i := i + 1;
    }
    assert args[..i] == args;
    r := sink.Finish();
  }

  //=== as_collection ===//

  /** `_collection_sink<Container>`: inserts every value it is called with. */
  class CollectionSink<T(==)> {
    var result: set<T>

    /** `_collection_sink<Container>{Container()}`. */
    constructor ()
      ensures result == {}
    {
      result := {};
    }

    /** `operator()(obj)`: `insert` (or `emplace`), which answers whether the
        value was new to the container. */
    method Insert(obj: T) returns (inserted: bool)
      modifies this
      ensures result == old(result) + {obj}
      ensures inserted <==> obj !in old(result)
    {
      inserted := obj !in result;
      result := result + {obj};
    }

    /** `finish()`: the container, moved out. */
    function Finish(): (r: set<T>)
      reads this
      ensures r == result
    {
      result
    }
  }

  /** `_collection::operator()(args...)`: a new container into which every
      argument is inserted in turn; it holds exactly the arguments. */
  function CollectionOf<T(==)>(args: seq<T>): (r: set<T>)
    ensures r == set i | 0 <= i < |args| :: args[i]
  {
    if args == [] then {} else CollectionOf(args[..|args| - 1]) + {args[|args| - 1]}
  }

  /** `_collection::operator()(Container&&)` and `operator()(nullopt&&)`. */
  function CollectionFrom<T(==)>(c: Option<set<T>>): (r: set<T>)
    ensures c.Some? ==> r == c.value
    ensures c.None? ==> r == {}
  {
    if c.Some? then c.value else {}
  }

  /** A caller of `_collection::sink()` that calls the sink with each
      argument and then finishes it gets what `_collection(args...)` gives. */
  method CollectionThroughSink<T(==)>(args: seq<T>) returns (r: set<T>)
    ensures r == CollectionOf(args)
  {
    var sink := new CollectionSink();
    var i := 0;
    while i < |args|
      invariant 0 <= i <= |args|
      invariant sink.result == set k | 0 <= k < i :: args[k]
    {
      var _ := sink.Insert(args[i]);
      i := i + 1;
    }
    r := sink.Finish();
  }

  //=== collect ===//

  /** `_collect_sink<Container, Callback>`: appends what the callback returns
      for every call.  The arguments of one call are a value of `A`. */
  class CollectSink<A, R> {
    const callback: A -> R
    var result: seq<R>

    /** `_collect_sink(callback)`: an empty container. */
    constructor (callback: A -> R)
      ensures this.callback == callback && result == []
    {
      this.callback := callback;
      result := [];
    }

    /** `operator()(args...)`: `push_back(callback(args...))`. */
    method Call(args: A)
      modifies this
      ensures result == old(result) + [callback(args)]
    {
      result := result + [callback(args)];
    }

    /** `finish()`: the container, moved out. */
    function Finish(): (r: seq<R>)
      reads this
      ensures r == result
    {
      result
    }
  }

  /** `_collect_sink<void, Callback>`: counts the calls of a callback that
      returns nothing. */
  class CountSink {
    var count: nat

    /** `_collect_sink(callback)`: the count starts at 0. */
    constructor ()
      ensures count == 0
    {
      count := 0;
    }

    /** `operator()(args...)`: invokes the callback and counts one call. */
    method Call()
      modifies this
      ensures count == old(count) + 1
    {
      count := count + 1;
    }

    /** `finish()`: the number of calls. */
    function Finish(): (n: nat)
      reads this
      ensures n == count
    {
      count
    }
  }

  /** `_collect<Container, Callback>`, made by `collect<Container>(callback)`;
      `sink()` hands out a fresh sink holding the callback. */
  datatype Collect<!A, R> = Collect(callback: A -> R)

  /** `_collect<Container, Callback>::sink()`. */
  method CollectSinkOf<A, R>(c: Collect<A, R>) returns (s: CollectSink<A, R>)
    ensures fresh(s) && s.callback == c.callback && s.result == []
  {
    s := new CollectSink(c.callback);
  }

  /** `_collect<void, Callback>::sink()`. */
  method CountSinkOf() returns (s: CountSink)
    ensures fresh(s) && s.count == 0
  {
    s := new CountSink();
  }

  /** A caller of `collect<Container>(callback).sink()` that calls the sink
      once per argument gets the callback's results in call order. */
  method CollectThroughSink<A, R>(c: Collect<A, R>, args: seq<A>) returns (r: seq<R>)
    ensures |r| == |args|
    ensures forall i :: 0 <= i < |args| ==> r[i] == c.callback(args[i])
  {
    var sink := CollectSinkOf(c);
    var i := 0;
    while i < |args|
      invariant 0 <= i <= |args|
      invariant |sink.result| == i
      invariant forall k :: 0 <= k < i ==> sink.result[k] == c.callback(args[k])
    {
      sink.Call(args[i]);
      i := i + 1;
    }
    r := sink.Finish();
  }

  /** A caller of `collect(callback).sink()` that calls the sink `calls`
      times gets `calls` back. */
  method CountThroughSink(calls: nat) returns (n: nat)
    ensures n == calls
  {
    var sink := CountSinkOf();
    var i := 0;
    while i < calls
      invariant 0 <= i <= calls
      invariant sink.count == i
    {
      sink.Call();
      i := i + 1;
    }
    n := sink.Finish();
  }
}
