/**
  The stream helpers of the word-count example
  (examples/word-count/src/util.js): the Set-backed callback stack,
  `reduceStreams`, `createStream`, `tapSubscribe` and `subscribe`.
  Subscribing is reported as the list of observables subscribed, in order.
 */
module WordCountUtil {
  import opened JsObject
  import opened Values
  import opened JsArray
  import CreateStreams
  import Run

  /**
    `useCallbackStack()`: a `Set` of callbacks with its `add` and `call`.
    `members` is the set in insertion order.
   */
  class CallbackSet {
    var members: seq<Value>

    ghost predicate Valid()
      reads this
    {
      (forall i, j :: 0 <= i < j < |members| ==> members[i] != members[j])
      && (forall i :: 0 <= i < |members| ==> members[i].Fn?)
    }

    constructor ()
      ensures Valid() && members == []
    {
      members := [];
    }

    /** `add(value)`: functions only, and a function already held is not added again. */
    method Add(value: Value)
      requires Valid()
      modifies this
      ensures Valid()
      ensures members == if value.Fn? && value !in old(members) then old(members) + [value] else old(members)
      ensures value.Fn? ==> value in members && |members| <= |old(members)| + 1
    {
      if value.Fn? && value !in members {
        members := members + [value];
      }
    }

    /** `call()`: every callback once, in insertion order, then the set is emptied. */
    method Call() returns (ran: seq<Value>)
      requires Valid()
      modifies this
      ensures Valid() && members == []
      ensures ran == old(members)
      ensures forall i, j :: 0 <= i < j < |ran| ==> ran[i] != ran[j]
    {
      ran := [];
      for i := 0 to |members|
        invariant ran == members[..i]
      {
        ran := ran + [members[i]];
      }
      assert ran == members;
      members := [];
    }
  }

  /** The own properties object spread copies: none from `null`, `undefined` or a primitive without indices. */
  function SpreadEntries(v: Value): Obj<Value>
  {
    match Run.OwnEntries(v)
    case Done(entries) => entries
    case Throws => []
  }

  /** `source.reduce((prev, curr) => ({ ...prev, ...curr }), init)` after the initial spread. */
  function Fold(acc: Obj<Value>, source: seq<Value>): Obj<Value>
  {
    if source == [] then acc else Spread(Fold(acc, source[..|source| - 1]), SpreadEntries(source[|source| - 1]))
  }

  /**
    `reduceStreams(init)` applied to one combined emission `source`; an
    `undefined` init is the default `{}`. An empty list gives `init`
    itself, as `reduce` does.
   */
  function ReduceStreams(init: Value, source: seq<Value>): (r: Value)
    ensures source == [] ==> r == (if init == Undefined then Rec([]) else init)
    ensures source != [] ==> r.Rec?
  {
    var start := if init == Undefined then Rec([]) else init;
    if source == [] then start
    else Rec(Fold(SpreadEntries(start), source))
  }

  /** Holder `i` has key `k` and no later element of `source` has it. */
  predicate LastHolder(source: seq<Value>, k: string, i: int)
  {
    && 0 <= i < |source| && Has(SpreadEntries(source[i]), k)
    && forall j :: i < j < |source| ==> !Has(SpreadEntries(source[j]), k)
  }

  lemma {:induction false} FoldGetHolder(acc: Obj<Value>, source: seq<Value>, k: string, i: int)
    requires forall j :: 0 <= j < |source| ==> WellFormed(SpreadEntries(source[j]))
    requires LastHolder(source, k, i)
    ensures Get(Fold(acc, source), k) == Get(SpreadEntries(source[i]), k)
  {
    var init, last := source[..|source| - 1], source[|source| - 1];
    SpreadGet(Fold(acc, init), SpreadEntries(last), k);
    if i < |source| - 1 {
      assert LastHolder(init, k, i);
      FoldGetHolder(acc, init, k, i);
    }
  }

  lemma {:induction false} FoldGetNone(acc: Obj<Value>, source: seq<Value>, k: string)
    requires forall j :: 0 <= j < |source| ==> WellFormed(SpreadEntries(source[j]))
    requires forall j :: 0 <= j < |source| ==> !Has(SpreadEntries(source[j]), k)
    ensures Get(Fold(acc, source), k) == Get(acc, k)
  {
    if source != [] {
      var init, last := source[..|source| - 1], source[|source| - 1];
      FoldGetNone(acc, init, k);
      SpreadGet(Fold(acc, init), SpreadEntries(last), k);
    }
  }

  /**
    Each key of the combined object comes from the last element of the
    emission that has it, and from `init` when none has it.
   */
  lemma ReduceStreamsGet(init: Value, source: seq<Value>, k: string)
    requires source != []
    requires forall j :: 0 <= j < |source| ==> WellFormed(SpreadEntries(source[j]))
    ensures forall i :: LastHolder(source, k, i) ==>
              Get(ReduceStreams(init, source).fields, k) == Get(SpreadEntries(source[i]), k)
    ensures (forall j :: 0 <= j < |source| ==> !Has(SpreadEntries(source[j]), k)) ==>
              Get(ReduceStreams(init, source).fields, k) == Get(SpreadEntries(if init == Undefined then Rec([]) else init), k)
  {
    var start := SpreadEntries(if init == Undefined then Rec([]) else init);
    forall i | LastHolder(source, k, i)
      ensures Get(ReduceStreams(init, source).fields, k) == Get(SpreadEntries(source[i]), k)
    {
      FoldGetHolder(start, source, k, i);
    }
    if forall j :: 0 <= j < |source| ==> !Has(SpreadEntries(source[j]), k) {
      FoldGetNone(start, source, k);
    }
  }

  /**
    `createStream(initialValue)`: a cell (a `Subject` for `undefined`, a
    `BehaviorSubject` otherwise) and a function named `next` that pushes
    into it.
   */
  function CreateStream(initialValue: Value): (pair: (Value, Bound))
    ensures pair.1 == Bound(pair.0, Next, "next")
  {
    var cell := CreateStreams.CreateStream(initialValue);
    (cell, Bound(cell, Next, "next"))
  }

  /**
    The cell is the one `createStreams({ [name]: initialValue })` makes
    under `name$`, and calling `next` with a value pushes it into that
    cell, which then replays it.
   */
  lemma CreateStreamAgrees(name: string, initialValue: Value, v: Value)
    ensures Get(CreateStreams.CreateStreams(CreateStreams.Initial([(name, initialValue)])), name + "$")
              == Some(CreateStream(initialValue).0)
    ensures Invoke(CreateStream(initialValue).1, v) == Done(Call(CreateStream(initialValue).0, Next, v))
    ensures CanPush(CreateStream(initialValue).0)
    ensures initialValue != Undefined ==> PushNext(CreateStream(initialValue).0, v) == Stream(Replaying(v))
  {
    CreateStreams.ObjectInputCell([(name, initialValue)], 0);
  }

  /** `typeof v.pipe === 'function'` */
  predicate CanPipe(v: Value)
  {
    IsInstance(v) || HasFunction(v, "pipe")
  }

  /** `typeof v.subscribe === 'function'` */
  predicate CanSubscribe(v: Value)
  {
    IsInstance(v) || HasFunction(v, "subscribe")
  }

  /**
    `tapSubscribe(...sources)` applied to `source`: the stream it returns
    and the observables it subscribes, in order. With no sources the
    source is returned untouched and nothing is subscribed; otherwise the
    shared source is subscribed first, then each source. A value without
    `pipe` or `subscribe` makes it throw.
   */
  function TapSubscribe(sources: seq<Value>, source: Value): (r: Outcome<(Value, seq<Value>)>)
    ensures sources == [] ==> r == Done((source, []))
    ensures sources != [] && r.Done? ==>
              && r.value.0 == Stream(Derived(ShareReplay, [source]))
              && r.value.1 == [r.value.0] + sources
    ensures sources != [] ==> (r.Throws? <==> !CanPipe(source) || exists i :: 0 <= i < |sources| && !CanSubscribe(sources[i]))
  {
    if sources == [] then Done((source, []))
    else if !CanPipe(source) then Throws
    else if exists i :: 0 <= i < |sources| && !CanSubscribe(sources[i]) then Throws
    else
      var shared := Stream(Derived(ShareReplay, [source]));
      Done((shared, [shared] + sources))
  }

  /** `sourceToArray()` inside `subscribe`. */
  function SourceToArray(source: Value): Outcome<seq<Value>>
  {
    if IsObservable(source) then Done([source])
    else if source.Arr? then Done(source.items)
    else match Run.OwnEntries(source)
      case Throws => Throws
      case Done(entries) => Done(seq(|entries|, i requires 0 <= i < |entries| => entries[i].1))
  }

  /** `subscribe(source)`: the observables it subscribes, in order; the function it returns unsubscribes them all. */
  function Subscribe(source: Value): Outcome<seq<Value>>
  {
    match SourceToArray(source)
    case Throws => Throws
    case Done(items) => Done(Filter(items, IsObservable))
  }

  /**
    An observable is subscribed alone; a list gives its observable
    elements in order, an object its observable property values in
    `Object.keys` order;
    `null` and `undefined` throw; what is subscribed is always observable.
   */
  lemma SubscribeSpec(source: Value)
    ensures IsObservable(source) ==> Subscribe(source) == Done([source])
    ensures !IsObservable(source) && source.Arr? ==> Subscribe(source) == Done(Filter(source.items, IsObservable))
    ensures !IsObservable(source) && source.Rec? ==>
              var entries := OwnOrder(source.fields);
              Subscribe(source) == Done(Filter(seq(|entries|, i requires 0 <= i < |entries| => entries[i].1), IsObservable))
    ensures Subscribe(source).Throws? <==> source == Null || source == Undefined
    ensures Subscribe(source).Done? ==> forall v :: v in Subscribe(source).value ==> IsObservable(v)
  {
    if IsObservable(source) {
      var single := [source];
      assert single[1..] == [];
      assert Filter(single, IsObservable) == [source];
      assert Subscribe(source) == Done([source]);
    }
  }
}
