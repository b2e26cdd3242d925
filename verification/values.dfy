/**
  The JavaScript values the binding and its helpers pass around, with the
  sources they manipulate as a tagged variant: a Replaying cell
  (`BehaviorSubject`), a Pure cell (`Subject`), or any other `Observable`
  built by an operator. Plain objects that merely look like observables are
  `Rec` values whose `lift` and `subscribe` properties are functions.
 */
module Values {
  import opened JsObject

  datatype Value =
    | Undefined
    | Null
    | Bool(b: bool)
    | Num(n: int)
    | Str(s: string)
    | Fn(name: string, arity: nat)
    | Arr(items: seq<Value>)
    | Rec(fields: seq<(string, Value)>)
    | Stream(stream: Stream)

  /** The operator that produced a derived observable. */
  datatype Op = Merge | ShareReplay | Opaque(tag: string)

  datatype Stream =
    | Replaying(current: Value)
    | Pure
    | Derived(op: Op, inputs: seq<Value>)

  /** JavaScript outcome of a call that may throw a `TypeError`. */
  datatype Outcome<T> = Done(value: T) | Throws

  datatype Notification = Next | Error | Complete

  function NotificationName(n: Notification): string
  {
    match n
    case Next => "next"
    case Error => "error"
    case Complete => "complete"
  }

  /** A call `target[notification](arg)` made by a bound function or a push. */
  datatype Call = Call(target: Value, notification: Notification, arg: Value)

  /** A function that forwards its one argument to `target[notification]`; `name` is its `Function.name`. */
  datatype Bound = Bound(target: Value, notification: Notification, name: string)

  /**
    Names under which the synthesised function hides a parameter of the
    factory it closes over: named `source`, its body reads itself instead of
    the source; named `notification`, it reads the source under its own
    text. Either way `source[notification]` is `undefined`.
   */
  predicate ShadowsFactoryParameter(name: string)
  {
    name == "source" || name == "notification"
  }

  /**
    What calling a bound function with `arg` does: the call on
    `target[notification]`, or a TypeError when the function's own name
    hides the factory's parameters.
   */
  function Invoke(f: Bound, arg: Value): (r: Outcome<Call>)
    ensures r.Throws? <==> ShadowsFactoryParameter(f.name)
    ensures r.Done? ==> r.value.target == f.target && r.value.notification == f.notification && r.value.arg == arg
  {
    if ShadowsFactoryParameter(f.name) then Throws else Done(Call(f.target, f.notification, arg))
  }

  /** `!!v` */
  predicate Truthy(v: Value)
  {
    match v
    case Undefined => false
    case Null => false
    case Bool(b) => b
    case Num(n) => n != 0
    case Str(s) => s != ""
    case _ => true
  }

  /**
    The own enumerable properties of `v` with their values, in enumeration
    order, as `Object.keys`, `Object.assign` and object spread see them: an
    object's properties, an array's or a string's indices, and none for any
    other value (`Object.keys` rejects `null` and `undefined`, which spread
    and `Object.assign` skip).
   */
  function EnumerableEntries(v: Value): (r: Obj<Value>)
    ensures v.Rec? ==> multiset(r) == multiset(v.fields)
    ensures v.Arr? ==> |r| == |v.items|
    ensures v.Str? ==> |r| == |v.s|
  {
    match v
    case Rec(fields) =>
      OwnOrderPermutes(fields);
      OwnOrder(fields)
    case Arr(items) => seq(|items|, i requires 0 <= i < |items| => (DecimalString(i), items[i]))
    case Str(s) => seq(|s|, i requires 0 <= i < |s| => (DecimalString(i), Str([s[i]])))
    case _ => []
  }

  /**
    `String(v)`, as a template literal applies it: `None` where the text
    comes from something the model does not hold, a function's source
    text, an array's joined elements or an object's own `toString` or
    `valueOf`.
   */
  function ToJsString(v: Value): (r: Option<string>)
    ensures v.Str? ==> r == Some(v.s)
    ensures v.Num? && v.n >= 0 ==> r.Some? && AllDigits(r.value) && DecimalValue(r.value) == v.n
    ensures v.Num? && v.n < 0 ==> r.Some? && r.value != [] && r.value[0] == '-'
    ensures r.None? <==> v.Fn? || v.Arr? || (v.Rec? && (Has(v.fields, "toString") || Has(v.fields, "valueOf")))
  {
    match v
    case Undefined => Some("undefined")
    case Null => Some("null")
    case Bool(b) => Some(if b then "true" else "false")
    case Num(n) =>
      DecimalRoundTrip(if n < 0 then -n else n);
      Some(if n < 0 then "-" + DecimalString(-n) else DecimalString(n))
    case Str(s) => Some(s)
    case Fn(_, _) => None
    case Arr(_) => None
    case Rec(fields) => if Has(fields, "toString") || Has(fields, "valueOf") then None else Some("[object Object]")
    case Stream(_) => Some("[object Object]")
  }

  /** `v instanceof Observable` */
  predicate IsInstance(v: Value)
  {
    v.Stream?
  }

  /** `typeof v[name] === 'function'`, for the own properties of a plain object. */
  predicate HasFunction(v: Value, name: string)
  {
    v.Rec? && Get(v.fields, name).Some? && Get(v.fields, name).value.Fn?
  }

  /**
    The duck-typed check that the plumbing helpers and the binding depend on
    (packages/conduit-rxjs-react/src/isObservable.js:7, identical to the one
    RxJS 6.2 exports).
   */
  predicate IsObservable(v: Value)
  {
    Truthy(v) && (IsInstance(v) || (HasFunction(v, "lift") && HasFunction(v, "subscribe")))
  }

  /** The four cases of `isObservable`, stated together. */
  lemma IsObservableCases(v: Value)
    ensures !Truthy(v) ==> !IsObservable(v)
    ensures IsInstance(v) ==> IsObservable(v)
    ensures Truthy(v) && !IsInstance(v) ==>
              (IsObservable(v) <==> HasFunction(v, "lift") && HasFunction(v, "subscribe"))
  {
  }

  /** `v[notification] !== undefined` for an observable instance: subjects have all three methods. */
  predicate HasNotification(v: Value, n: Notification)
    requires IsInstance(v)
  {
    !v.stream.Derived?
  }

  /** `typeof v.next === 'function'`: a subject, or a plain object with a `next` method. */
  predicate CanPush(v: Value)
  {
    (v.Stream? && !v.stream.Derived?) || HasFunction(v, "next")
  }

  /** The cell's state after `cell.next(v)`: a Replaying cell now holds `v`. */
  function PushNext(cell: Value, v: Value): (r: Value)
    ensures r.Stream? <==> cell.Stream?
    ensures cell.Stream? && cell.stream.Replaying? ==> r == Stream(Replaying(v))
    ensures !(cell.Stream? && cell.stream.Replaying?) ==> r == cell
  {
    if cell.Stream? && cell.stream.Replaying? then Stream(Replaying(v)) else cell
  }
}
