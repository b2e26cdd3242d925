/**
  `createStreams` (packages/conduit-rxjs/src/createStreams.js, and the
  older identical lib/createStreams.js): a mapping from each name plus `$`
  to a fresh cell, Replaying when the name has an initial value and Pure
  when it does not.
 */
module CreateStreams {
  import opened JsObject
  import opened Values

  /** The argument is either a list of names or an object of initial values. */
  datatype Source = Names(names: seq<string>) | Initial(config: Obj<Value>)

  /** `createStream(initValue)`: `new Subject()` for `undefined`, else `new BehaviorSubject(initValue)`. */
  function CreateStream(init: Value): (cell: Value)
    ensures IsObservable(cell) && CanPush(cell)
    ensures cell.Stream? && (cell.stream.Pure? <==> init == Undefined)
    ensures cell.stream.Replaying? <==> init != Undefined
    ensures cell.stream.Replaying? ==> cell.stream.current == init
  {
    if init == Undefined then Stream(Pure) else Stream(Replaying(init))
  }

  /** The key a stream is stored under: the name with `$` appended. */
  function StreamKey(name: string): string
  {
    name + "$"
  }

  /** `k` is the stream key of one of `names`: it ends in `$` and what precedes the `$` is in `names`. */
  predicate IsStreamKeyOf(k: string, names: seq<string>)
  {
    0 < |k| && k[|k| - 1] == '$' && k[..|k| - 1] in names
  }

  /** A key ends in `$` exactly when it is the stream key of what precedes the `$`. */
  lemma StreamKeyOf(k: string, name: string)
    ensures k == StreamKey(name) <==> 0 < |k| && k[|k| - 1] == '$' && k[..|k| - 1] == name
  {
    if k == StreamKey(name) {
      assert k[..|k| - 1] == name;
    }
    if 0 < |k| && k[|k| - 1] == '$' && k[..|k| - 1] == name {
      assert k == k[..|k| - 1] + [k[|k| - 1]];
    }
  }

  lemma StreamKeyInjective(a: string, b: string)
    ensures StreamKey(a) == StreamKey(b) <==> a == b
  {
    if StreamKey(a) == StreamKey(b) {
      assert a == StreamKey(a)[..|a|];
      assert b == StreamKey(b)[..|b|];
    }
  }

  /**
    `list[key]` for the list `names`: its length, the element at an index
    key, a property the list inherits from `Array.prototype` or
    `Object.prototype`, or `undefined`.
   */
  function ListProperty(names: seq<string>, key: string): Value
  {
    if key == "length" then Num(|names|)
    else match IndexOf(names, key, 0)
      case Some(i) => Str(names[i])
      case None => Inherited(key)
  }

  /** The methods of `Array.prototype` (ECMAScript 2023), each with its `length`. */
  const ArrayMethods: map<string, nat> := map[
    "at" := 1, "concat" := 1, "copyWithin" := 2, "entries" := 0, "every" := 1, "fill" := 1,
    "filter" := 1, "find" := 1, "findIndex" := 1, "findLast" := 1, "findLastIndex" := 1,
    "flat" := 0, "flatMap" := 1, "forEach" := 1, "includes" := 1, "indexOf" := 1, "join" := 1,
    "keys" := 0, "lastIndexOf" := 1, "map" := 1, "pop" := 0, "push" := 1, "reduce" := 1,
    "reduceRight" := 1, "reverse" := 0, "shift" := 0, "slice" := 2, "some" := 1, "sort" := 1,
    "splice" := 2, "toLocaleString" := 0, "toReversed" := 0, "toSorted" := 1, "toSpliced" := 2,
    "toString" := 0, "unshift" := 1, "values" := 0, "with" := 2]

  /** The methods of `Object.prototype` that `Array.prototype` does not override. */
  const ObjectMethods: map<string, nat> := map[
    "hasOwnProperty" := 1, "isPrototypeOf" := 1, "propertyIsEnumerable" := 1, "valueOf" := 0,
    "__defineGetter__" := 2, "__defineSetter__" := 2, "__lookupGetter__" := 1, "__lookupSetter__" := 1]

  /**
    What an array inherits under `key`: a prototype method, the `Array`
    constructor, or the prototype itself under `__proto__`.
   */
  function Inherited(key: string): (v: Value)
    ensures v != Undefined <==> key in ArrayMethods || key in ObjectMethods || key == "constructor" || key == "__proto__"
    ensures key in ArrayMethods ==> v == Fn(key, ArrayMethods[key])
  {
    if key == "constructor" then Fn("Array", 1)
    else if key == "__proto__" then Arr([])
    else if key in ArrayMethods then Fn(key, ArrayMethods[key])
    else if key in ObjectMethods then Fn(key, ObjectMethods[key])
    else Undefined
  }

  /** The index `i` of `names` whose decimal form is `key`, searching from `from`. */
  function IndexOf(names: seq<string>, key: string, from: nat): (r: Option<nat>)
    ensures r.Some? ==> from <= r.value < |names| && DecimalString(r.value) == key
    ensures r.None? ==> forall i :: from <= i < |names| ==> DecimalString(i) != key
    decreases |names| - from
  {
    if from >= |names| then None
    else if DecimalString(from) == key then Some(from)
    else IndexOf(names, key, from + 1)
  }

  /** `Array.isArray(source) ? source : Object.keys(source)`, in enumeration order. */
  function SourceKeys(source: Source): seq<string>
  {
    match source
    case Names(names) => names
    case Initial(config) => Keys(OwnOrder(config))
  }

  /** `source[key]`: looked up on the list itself, or on the object. */
  function Lookup(source: Source, key: string): Value
  {
    match source
    case Names(names) => ListProperty(names, key)
    case Initial(config) => if Has(config, key) then Get(config, key).value else Undefined
  }

  /** The `reduce` over `keys`, each step `{ ...acc, [`${key}$`]: createStream(source[key]) }`. */
  function Build(source: Source, keys: seq<string>): Obj<Value>
  {
    if keys == [] then []
    else
      var key := keys[|keys| - 1];
      Put(Build(source, keys[..|keys| - 1]), StreamKey(key), CreateStream(Lookup(source, key)))
  }

  /**
    The result holds one key per name, the name with `$` appended, and under
    it the cell created from what the source holds for that name.
   */
  function CreateStreams(source: Source): (streams: Obj<Value>)
    ensures WellFormed(streams)
    ensures forall k :: Has(streams, k) <==> IsStreamKeyOf(k, SourceKeys(source))
  {
    BuildSpec(source, SourceKeys(source));
    Build(source, SourceKeys(source))
  }

  /** The cell under `name$` is the one created from `source[name]`. */
  lemma CreateStreamsCell(source: Source, name: string)
    requires name in SourceKeys(source)
    ensures Get(CreateStreams(source), StreamKey(name)) == Some(CreateStream(Lookup(source, name)))
  {
    BuildSpec(source, SourceKeys(source));
  }

  /**
    The reduce yields an object whose keys are exactly the names with `$`
    appended, each holding the cell created from that name's initial value.
   */
  lemma {:induction false} BuildSpec(source: Source, keys: seq<string>)
    ensures WellFormed(Build(source, keys))
    ensures forall k :: Has(Build(source, keys), k) <==> IsStreamKeyOf(k, keys)
    ensures forall n :: n in keys ==>
              Get(Build(source, keys), StreamKey(n)) == Some(CreateStream(Lookup(source, n)))
  {
    if keys != [] {
      var init, key := keys[..|keys| - 1], keys[|keys| - 1];
      var acc := Build(source, init);
      BuildSpec(source, init);
      PutWellFormed(acc, StreamKey(key), CreateStream(Lookup(source, key)));
      forall k ensures Has(Build(source, keys), k) <==> IsStreamKeyOf(k, keys) {
        PutHas(acc, StreamKey(key), CreateStream(Lookup(source, key)), k);
        StreamKeyOf(k, key);
        assert keys == init + [key];
      }
      forall n | n in keys
        ensures Get(Build(source, keys), StreamKey(n)) == Some(CreateStream(Lookup(source, n)))
      {
        PutGet(acc, StreamKey(key), CreateStream(Lookup(source, key)), StreamKey(n));
        if StreamKey(n) == StreamKey(key) {
          StreamKeyInjective(n, key);
        } else {
          assert n in init;
        }
      }
    }
  }

  /**
    Object input: a key whose value is `undefined` gets a Pure cell; any
    other value, falsy ones included, seeds a Replaying cell.
   */
  lemma ObjectInputCell(config: Obj<Value>, i: nat)
    requires WellFormed(config) && i < |config|
    ensures var cell := Get(CreateStreams(Initial(config)), StreamKey(config[i].0));
      && cell.Some?
      && (cell.value == Stream(Pure) <==> config[i].1 == Undefined)
      && (config[i].1 != Undefined ==> cell.value == Stream(Replaying(config[i].1)))
  {
    OwnOrderPermutes(config);
    assert config[i] in OwnOrder(config);
    var j :| 0 <= j < |OwnOrder(config)| && OwnOrder(config)[j] == config[i];
    assert config[i].0 == Keys(OwnOrder(config))[j];
    CreateStreamsCell(Initial(config), config[i].0);
    GetAt(config, i);
  }

  /**
    List input: each name is looked up on the list itself, so every name
    that is not `length`, not an index of the list and not inherited from
    the prototypes gets a Pure cell.
   */
  lemma ListInputOrdinaryName(names: seq<string>, n: string)
    requires n in names && n != "length" && Inherited(n) == Undefined
    requires forall i :: 0 <= i < |names| ==> DecimalString(i) != n
    ensures Get(CreateStreams(Names(names)), StreamKey(n)) == Some(Stream(Pure))
  {
    CreateStreamsCell(Names(names), n);
  }

  /**
    List input: a name the list inherits, such as `filter` or `values`,
    finds the prototype's function and seeds a Replaying cell with it.
   */
  lemma ListInputInheritedName(names: seq<string>, n: string)
    requires n in names && Inherited(n) != Undefined
    requires forall i :: 0 <= i < |names| ==> DecimalString(i) != n
    ensures Get(CreateStreams(Names(names)), StreamKey(n)) == Some(Stream(Replaying(Inherited(n))))
    ensures n in ArrayMethods ==> Get(CreateStreams(Names(names)), StreamKey(n)) == Some(Stream(Replaying(Fn(n, ArrayMethods[n]))))
  {
    CreateStreamsCell(Names(names), n);
    LengthIsOwn();
    assert n != "length";
    assert IndexOf(names, n, 0).None?;
    assert Lookup(Names(names), n) == Inherited(n);
  }

  /** `length` is the list's own property, not one it inherits. */
  lemma LengthIsOwn()
    ensures Inherited("length") == Undefined
  {
    assert "length" !in ArrayMethods;
    assert "length" !in ObjectMethods;
  }

  /** A list holding the name `length` gets a Replaying cell seeded with the list's length. */
  lemma ListInputLengthName(names: seq<string>)
    requires "length" in names
    ensures Get(CreateStreams(Names(names)), StreamKey("length")) == Some(Stream(Replaying(Num(|names|))))
  {
    CreateStreamsCell(Names(names), "length");
  }
}
