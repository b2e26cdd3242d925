/**
  `connect(WrappedComponent, source, ...args)`
  (packages/conduit-rxjs-react/src/connect.js): the component class it
  returns, its lifecycle plumbing and the callback stacks handed to the
  wrapped function.

  The host hooks are methods of `Connect`; the events React and the browser
  drive are too: `Emit` for a value of the state stream, `FrameFire` for the
  animation frame, `Register` for a call of one of the registration
  functions the wrapped function received. What the component does that the
  outside sees (`setState`, running or discarding callbacks, pushing props,
  unsubscribing) is kept, in order, in the ghost log `trace`.
 */
module Connect {
  import opened JsObject
  import opened Values
  import opened Pipeline

  /** `useCallbackStack()`: `add`, `call` and `clear` share one list of callbacks. */
  class CallbackStack {
    var stack: seq<Value>

    constructor ()
      ensures stack == []
    {
      stack := [];
    }

    /** `add(value)`: only functions are kept. */
    method Add(value: Value)
      modifies this
      ensures stack == if value.Fn? then old(stack) + [value] else old(stack)
    {
      if value.Fn? {
        stack := stack + [value];
      }
    }

    /** `clear()`: drops every callback without running it. */
    method Clear()
      modifies this
      ensures stack == []
    {
      stack := [];
    }

    /** `call()`: runs every callback once, in the order added, then clears. */
    method Call() returns (ran: seq<Value>)
      modifies this
      ensures ran == old(stack) && stack == []
    {
      ran := [];
      for i := 0 to |stack|
        invariant ran == stack[..i]
      {
        ran := ran + [stack[i]];
      }
      stack := [];
    }
  }

  const DefaultArgs: seq<string> := ["props$", "componentDidRender", "componentWillUnmount"]

  /**
    `(args.length ? args : defaultArgs).slice(0, source.length)`: the names
    the wrapped function's parameters stand for.
   */
  function LifecycleNames(args: seq<string>, arity: nat): (names: seq<string>)
    ensures var given := if args != [] then args else DefaultArgs;
      && names <= given
      && |names| <= arity
      && (arity <= |given| ==> |names| == arity)
  {
    var given := if args != [] then args else DefaultArgs;
    if arity < |given| then given[..arity] else given
  }

  /** What a parameter name asks for. */
  datatype ParamKind = PropsKind | ChannelKind(channel: Channel) | NullKind

  function KindOf(name: string): (k: ParamKind)
    ensures k == PropsKind <==> name == "props$"
    ensures k == ChannelKind(DidRender) <==> name == "componentDidRender"
    ensures k == ChannelKind(WillUnmount) <==> name == "componentWillUnmount"
  {
    if name == "props$" then PropsKind
    else if name == "componentDidRender" then ChannelKind(DidRender)
    else if name == "componentWillUnmount" then ChannelKind(WillUnmount)
    else NullKind
  }

  /** Every name other than the three recognised ones becomes `null`. */
  lemma UnknownNamesAreNull(name: string)
    requires name !in DefaultArgs
    ensures KindOf(name) == NullKind
  {
  }

  /** The argument passed for one name: the props cell, a stack's `add`, or `null`. */
  datatype Param = PropsParam(cell: Value) | AddParam(stack: CallbackStack) | NullParam

  function StackOf(p: Param): CallbackStack?
  {
    if p.AddParam? then p.stack else null
  }

  /** The last index at which `name` occurs in `names`, or -1. */
  function LastIndex(names: seq<string>, name: string): (r: int)
    ensures -1 <= r < |names|
    ensures r >= 0 ==> names[r] == name && forall k :: r < k < |names| ==> names[k] != name
    ensures r == -1 <==> name !in names
  {
    if names == [] then -1
    else if names[|names| - 1] == name then |names| - 1
    else LastIndex(names[..|names| - 1], name)
  }

  /** The stream `getState()` returns: an observable, or `of(value)`. */
  datatype StateStream = Given(observable: Value) | Of(value: Value)

  /**
    `getState()`. `output` is what the wrapped function returns when `source`
    is one; it is not looked at otherwise.
   */
  function GetState(source: Value, output: Value): (s: StateStream)
    ensures IsObservable(source) ==> s == Given(source)
    ensures !IsObservable(source) && source.Fn? ==> s == if IsObservable(output) then Given(output) else Of(output)
    ensures !IsObservable(source) && !source.Fn? ==> s == Of(Rec([]))
  {
    if IsObservable(source) then Given(source)
    else if source.Fn? then (if IsObservable(output) then Given(output) else Of(output))
    else Of(Rec([]))
  }

  /**
    The values the state stream delivers while it is being subscribed in the
    constructor: `of(value)` delivers its value, a `BehaviorSubject` replays
    its current value and a fresh `Subject` delivers nothing. What any other
    observable emits synchronously depends on how it was built; it is given
    as `early`.
   */
  function SyncEmissions(s: StateStream, early: seq<Value>): (vs: seq<Value>)
    ensures s.Of? ==> vs == [s.value]
    ensures s.Given? && s.observable.Stream? && s.observable.stream.Replaying? ==>
              vs == [s.observable.stream.current]
    ensures s.Given? && s.observable == Stream(Pure) ==> vs == []
    ensures s.Given? && !(s.observable.Stream? && (s.observable.stream.Replaying? || s.observable.stream.Pure?)) ==>
              vs == early
  {
    match s
    case Given(Stream(Replaying(v))) => [v]
    case Given(Stream(Pure)) => []
    case Given(_) => early
    case Of(v) => [v]
  }

  /**
    A source that is neither an observable nor a function renders `{}` once;
    so does a wrapped function's plain (non-observable) output, as itself.
   */
  lemma {:induction false} PlainSourceRendersOnce(source: Value, output: Value)
    requires !IsObservable(source) && !(source.Fn? && IsObservable(output))
    ensures var vs := SyncEmissions(GetState(source, output), []);
      var c := Finish(EmitAll(Start, vs));
      && |vs| == 1
      && c.state == (if source.Fn? then output else Rec([]))
      && c.shouldUpdate && c.constructed && c.held.None?
  {
    var vs := SyncEmissions(GetState(source, output), []);
    ConstructionLastWins(vs);
  }

  /** `WrappedComponent[key]` for a plain object or a function. */
  function Property(v: Value, key: string): Value
  {
    match v
    case Rec(fields) => if Has(fields, key) then Get(fields, key).value else Undefined
    case Fn(name, arity) => if key == "name" then Str(name) else if key == "length" then Num(arity) else Undefined
    case _ => Undefined
  }

  /**
    `getDisplayName(WrappedComponent)`: `displayName || name || 'Component'`;
    reading a property of `null` or `undefined` throws.
   */
  function GetDisplayName(component: Value): (r: Outcome<Value>)
    ensures r.Throws? <==> component == Null || component == Undefined
    ensures r.Done? ==> Truthy(r.value)
    ensures r.Done? && Truthy(Property(component, "displayName")) ==> r.value == Property(component, "displayName")
    ensures r.Done? && !Truthy(Property(component, "displayName")) && Truthy(Property(component, "name")) ==>
              r.value == Property(component, "name")
  {
    if component == Null || component == Undefined then Throws
    else
      var displayName := Property(component, "displayName");
      if Truthy(displayName) then Done(displayName)
      else
        var name := Property(component, "name");
        Done(if Truthy(name) then name else Str("Component"))
  }

  /**
    `Connect.displayName`: the wrapped component's display name, turned into
    a string, inside `Connect(` and `)`. `None` where that string is not
    modelled (see `ToJsString`).
   */
  function ConnectDisplayName(component: Value): (r: Outcome<Option<string>>)
    ensures r.Throws? <==> component == Null || component == Undefined
    ensures r.Done? ==> (r.value.Some? <==> ToJsString(GetDisplayName(component).value).Some?)
    ensures r.Done? && r.value.Some? ==>
              r.value.value == "Connect(" + ToJsString(GetDisplayName(component).value).value + ")"
  {
    match GetDisplayName(component)
    case Throws => Throws
    case Done(name) =>
      match ToJsString(name)
      case Some(s) => Done(Some("Connect(" + s + ")"))
      case None => Done(None)
  }

  /** A named function has itself as its display name, wrapped as `Connect(name)`. */
  lemma NamedFunctionDisplayName(name: string, arity: nat)
    requires name != ""
    ensures GetDisplayName(Fn(name, arity)) == Done(Str(name))
    ensures ConnectDisplayName(Fn(name, arity)) == Done(Some("Connect(" + name + ")"))
  {
  }

  /** An anonymous function is displayed as `Connect(Component)`. */
  lemma AnonymousFunctionDisplayName(arity: nat)
    ensures ConnectDisplayName(Fn("", arity)) == Done(Some("Connect(Component)"))
  {
    assert "Connect(" + "Component" + ")" == "Connect(Component)";
  }

  /**
    A numeric display name is converted to its decimal text (`displayName: 5`
    gives `Connect(5)`), except 0, which is falsy and falls through to
    `Component`.
   */
  lemma NumericDisplayName(k: int)
    ensures k > 0 ==> ConnectDisplayName(Rec([("displayName", Num(k))])) == Done(Some("Connect(" + DecimalString(k) + ")"))
    ensures k < 0 ==> ConnectDisplayName(Rec([("displayName", Num(k))])) == Done(Some("Connect(-" + DecimalString(-k) + ")"))
    ensures k == 0 ==> ConnectDisplayName(Rec([("displayName", Num(k))])) == Done(Some("Connect(Component)"))
  {
    var fields := [("displayName", Num(k))];
    assert fields[0].0 == "displayName";
    assert !Has(fields, "name");
    if k < 0 {
      assert "Connect(" + ("-" + DecimalString(-k)) + ")" == "Connect(-" + DecimalString(-k) + ")";
    }
    assert "Connect(" + "Component" + ")" == "Connect(Component)";
  }

  /** A component object with neither `displayName` nor `name` is displayed as `Connect(Component)`. */
  lemma UnnamedObjectDisplayName(fields: Obj<Value>)
    requires !Has(fields, "displayName") && !Has(fields, "name")
    ensures ConnectDisplayName(Rec(fields)) == Done(Some("Connect(Component)"))
  {
    assert "Connect(" + "Component" + ")" == "Connect(Component)";
  }

  /** A component object whose `displayName` is a non-empty string is displayed under that string. */
  lemma StringDisplayName(fields: Obj<Value>, name: string)
    requires Get(fields, "displayName") == Some(Str(name)) && name != ""
    ensures ConnectDisplayName(Rec(fields)) == Done(Some("Connect(" + name + ")"))
  {
  }

  /** Connecting `null` or `undefined` throws while computing the display name. */
  lemma MissingComponentThrows(component: Value)
    requires component == Null || component == Undefined
    ensures ConnectDisplayName(component) == Throws
  {
  }

  /** The argument passed for `name`: the props cell, a fresh stack's `add`, or `null`. */
  ghost predicate ParamFor(name: string, p: Param, props: Value)
    reads if p.AddParam? then {p.stack} else {}
  {
    match KindOf(name)
    case PropsKind => p == PropsParam(Stream(Replaying(props)))
    case ChannelKind(_) => p.AddParam? && p.stack.stack == []
    case NullKind => p == NullParam
  }

  /** One step of the `map`: `initLifecycleProps()`, `initLifecycleConstructor(name)` or `null`. */
  method CreateParam(name: string, props: Value) returns (p: Param)
    ensures ParamFor(name, p, props)
    ensures p.AddParam? ==> fresh(p.stack)
  {
    match KindOf(name)
    case PropsKind =>
      p := PropsParam(Stream(Replaying(props)));
    case ChannelKind(_) =>
      var s := new CallbackStack();
      p := AddParam(s);
    case NullKind =>
      p := NullParam;
  }

  /**
    `initLifecycle()`'s `map` over the names: `props$` creates the props
    cell, each lifecycle name a fresh callback stack whose `add` is passed,
    any other name `null`. A repeated name creates a new stack, and the
    component keeps the last one.
   */
  method InitLifecycle(names: seq<string>, props: Value)
      returns (ps: seq<Param>, cell: Value, dr: CallbackStack?, wu: CallbackStack?, ghost created: set<CallbackStack>)
    ensures fresh(created) && ParamsFor(names, ps, props, created)
    ensures Kept(names, ps, cell, dr, wu, props)
    ensures dr != null ==> dr in created
    ensures wu != null ==> wu in created
    ensures dr != null && wu != null ==> dr != wu
  {
    ps, cell, dr, wu, created := [], Undefined, null, null, {};
    for i := 0 to |names|
      invariant fresh(created) && ParamsFor(names[..i], ps, props, created)
      invariant Kept(names[..i], ps, cell, dr, wu, props)
    {
      ps, cell, dr, wu, created := InitStep(names, i, props, ps, cell, dr, wu, created);
    }
    assert names[..|names|] == names;
    ChannelStacks(names, ps, props, created);
  }

  /**
    One argument per name, each as `ParamFor` says, the `add` functions
    each with its own stack, all of them in `created`.
   */
  ghost predicate ParamsFor(names: seq<string>, ps: seq<Param>, props: Value, created: set<CallbackStack>)
    reads created
  {
    && |ps| == |names|
    && (forall j :: 0 <= j < |names| && ps[j].AddParam? ==> ps[j].stack in created)
    && (forall j :: 0 <= j < |names| ==> ParamFor(names[j], ps[j], props))
    && (forall j, k :: 0 <= j < k < |names| && ps[j].AddParam? && ps[k].AddParam? ==> ps[j].stack != ps[k].stack)
  }

  /** What the component keeps: the props cell, and the stack of the last `add` for each channel. */
  ghost predicate Kept(names: seq<string>, ps: seq<Param>, cell: Value, dr: CallbackStack?, wu: CallbackStack?, props: Value)
    requires |ps| == |names|
  {
    && cell == (if "props$" in names then Stream(Replaying(props)) else Undefined)
    && dr == (if "componentDidRender" in names then StackOf(ps[LastIndex(names, "componentDidRender")]) else null)
    && wu == (if "componentWillUnmount" in names then StackOf(ps[LastIndex(names, "componentWillUnmount")]) else null)
  }

  /** One turn of the `map`, on the name at `i`. */
  method InitStep(names: seq<string>, i: nat, props: Value, ps: seq<Param>, cell: Value,
                  dr: CallbackStack?, wu: CallbackStack?, ghost created: set<CallbackStack>)
      returns (ps': seq<Param>, cell': Value, dr': CallbackStack?, wu': CallbackStack?, ghost created': set<CallbackStack>)
    requires i < |names| && ParamsFor(names[..i], ps, props, created)
    requires Kept(names[..i], ps, cell, dr, wu, props)
    ensures ParamsFor(names[..i + 1], ps', props, created')
    ensures Kept(names[..i + 1], ps', cell', dr', wu', props)
    ensures forall s :: s in created' ==> s in created || fresh(s)
  {
    assert names[..i + 1] == names[..i] + [names[i]];
    var p := CreateParam(names[i], props);
    ParamsStep(names[..i], ps, props, created, names[i], p);
    KeptStep(names[..i], ps, cell, dr, wu, props, names[i], p);
    ps', cell', dr', wu', created' := ps + [p], cell, dr, wu, created;
    if p.AddParam? {
      created' := created + {p.stack};
    }
    if names[i] == "props$" {
      cell' := p.cell;
    } else if names[i] == "componentDidRender" {
      dr' := p.stack;
    } else if names[i] == "componentWillUnmount" {
      wu' := p.stack;
    }
  }

  lemma ParamsStep(names: seq<string>, ps: seq<Param>, props: Value, created: set<CallbackStack>, name: string, p: Param)
    requires ParamsFor(names, ps, props, created) && ParamFor(name, p, props)
    requires p.AddParam? ==> p.stack !in created
    ensures ParamsFor(names + [name], ps + [p], props, if p.AddParam? then created + {p.stack} else created)
  {
    var names', ps' := names + [name], ps + [p];
    assert forall j :: 0 <= j < |ps| ==> ps'[j] == ps[j] && names'[j] == names[j];
  }

  /** Appending a name moves its last index there and leaves the others alone. */
  lemma LastIndexSnoc(names: seq<string>, name: string, n: string)
    ensures LastIndex(names + [name], n) == if name == n then |names| else LastIndex(names, n)
  {
    assert (names + [name])[..|names|] == names;
  }

  lemma KeptStep(names: seq<string>, ps: seq<Param>, cell: Value, dr: CallbackStack?, wu: CallbackStack?, props: Value, name: string, p: Param)
    requires |ps| == |names| && Kept(names, ps, cell, dr, wu, props)
    requires name == "props$" ==> p.PropsParam? && p.cell == Stream(Replaying(props))
    ensures Kept(names + [name], ps + [p],
                 if name == "props$" then p.cell else cell,
                 if name == "componentDidRender" then StackOf(p) else dr,
                 if name == "componentWillUnmount" then StackOf(p) else wu, props)
  {
    assert forall n :: n in names + [name] <==> n in names || n == name;
    LastIndexSnoc(names, name, "componentDidRender");
    LastIndexSnoc(names, name, "componentWillUnmount");
  }

  /** The two lifecycle stacks are distinct members of `created`. */
  lemma ChannelStacks(names: seq<string>, ps: seq<Param>, props: Value, created: set<CallbackStack>)
    requires ParamsFor(names, ps, props, created)
    ensures "componentDidRender" in names ==> StackOf(ps[LastIndex(names, "componentDidRender")]) in created
    ensures "componentWillUnmount" in names ==> StackOf(ps[LastIndex(names, "componentWillUnmount")]) in created
    ensures "componentDidRender" in names && "componentWillUnmount" in names ==>
              StackOf(ps[LastIndex(names, "componentDidRender")]) != StackOf(ps[LastIndex(names, "componentWillUnmount")])
  {
    var a, b := LastIndex(names, "componentDidRender"), LastIndex(names, "componentWillUnmount");
    if a >= 0 { assert ParamFor(names[a], ps[a], props); }
    if b >= 0 { assert ParamFor(names[b], ps[b], props); }
    if a >= 0 && b >= 0 {
      if a < b { assert ps[a].stack != ps[b].stack; } else { assert ps[b].stack != ps[a].stack; }
    }
  }

  class Connect {
    const source: Value
    const props: Value
    var constructed: bool
    var shouldUpdate: bool
    var state: Value
    var held: Option<Value>
    var subscribed: bool
    /** `this.props$`, `undefined` unless a parameter asked for it. */
    var propsCell: Value
    /** The stack behind `componentDidRenderCall`/`componentDidRenderClear`, if any. */
    var didRender: CallbackStack?
    /** The stack behind `componentWillUnmountCall`, if any. */
    var willUnmount: CallbackStack?
    /** The arguments the wrapped function was called with. */
    var params: seq<Param>
    /** The state stream is `of(…)`, which has completed after its one value. */
    ghost var completed: bool
    ghost var trace: seq<Effect>
    ghost var stacks: set<CallbackStack>

    function Core(): Pipeline.Core
      reads this
    {
      Pipeline.Core(constructed, shouldUpdate, state, held, subscribed)
    }

    ghost predicate Valid()
      reads this
    {
      && (didRender != null ==> didRender in stacks)
      && (willUnmount != null ==> willUnmount in stacks)
      && (didRender != null && willUnmount != null ==> didRender != willUnmount)
      && (forall i :: 0 <= i < |params| && params[i].AddParam? ==> params[i].stack in stacks)
    }

    /**
      The constructor: `getState()` (which calls the wrapped function with
      its lifecycle arguments when `source` is a function), then the
      subscription, during which the values in `SyncEmissions` arrive, then
      `componentDidConstruct = true`.
     */
    constructor (source: Value, args: seq<string>, props: Value, output: Value, early: seq<Value>)
      ensures Valid() && fresh(stacks)
      ensures this.source == source && this.props == props
      ensures var names := if !IsObservable(source) && source.Fn? then LifecycleNames(args, source.arity) else [];
        && ParamsFor(names, params, props, stacks)
        && Kept(names, params, propsCell, didRender, willUnmount, props)
      ensures Core() == Finish(EmitAll(Start, SyncEmissions(GetState(source, output), early)))
      ensures completed == GetState(source, output).Of?
      ensures trace == []
    {
      var names := if !IsObservable(source) && source.Fn? then LifecycleNames(args, source.arity) else [];
      var ps, cell, dr, wu, created := InitLifecycle(names, props);
      var stream := GetState(source, output);
      // The subscription delivers the synchronous values before the constructor ends.
      var c := Finish(EmitAll(Start, SyncEmissions(stream, early)));
      this.source := source;
      this.props := props;
      constructed, shouldUpdate, state, held, subscribed := c.constructed, c.shouldUpdate, c.state, c.held, c.subscribed;
      propsCell, didRender, willUnmount, params := cell, dr, wu, ps;
      completed := stream.Of?;
      trace := [];
      stacks := created;
    }

    /** A value of the state stream arrives. */
    method Emit(v: Value)
      requires Valid() && !completed
      modifies this`shouldUpdate, this`state, this`held
      ensures Valid()
      ensures Core() == Pipeline.Emit(old(Core()), v)
    {
      var c := Pipeline.Emit(Core(), v);
      shouldUpdate, state, held := c.shouldUpdate, c.state, c.held;
    }

    /**
      The animation frame `audit` requested fires: the subscriber calls
      `setState` with the value released, which React merges into `state`.
     */
    method FrameFire()
      requires Valid()
      modifies this`shouldUpdate, this`held, this`state, this`trace
      ensures Valid()
      ensures Core() == Frame(old(Core())).0.(state := AfterSetState(old(state), Frame(old(Core())).1))
      ensures trace == old(trace) + match Frame(old(Core())).1 case Some(s) => [SetState(s)] case None => []
    {
      var (c, released) := Frame(Core());
      shouldUpdate, held, state := c.shouldUpdate, c.held, AfterSetState(state, released);
      if released.Some? {
        trace := trace + [SetState(released.value)];
      }
    }

    /** `render()`: the wrapped component, with the state spread over its props. */
    method Render() returns (rendered: Obj<Value>)
      ensures rendered == RenderProps(state)
    {
      rendered := WithoutReserved(Spread([], EnumerableEntries(state)));
    }

    /** `shouldComponentUpdate()` */
    method ShouldComponentUpdate() returns (update: bool)
      requires Valid()
      modifies this`shouldUpdate
      ensures Valid()
      ensures update == old(shouldUpdate) && !shouldUpdate
      ensures Core() == Gate(old(Core())).0
    {
      update := shouldUpdate;
      shouldUpdate := false;
    }

    /** `componentDidRender()`: runs the did-render stack, when there is one. */
    method ComponentDidRender()
      requires Valid()
      modifies this`trace, didRender
      ensures Valid()
      ensures didRender != null ==> didRender.stack == [] && trace == old(trace) + RanAll(DidRender, old(didRender.stack))
      ensures didRender == null ==> trace == old(trace)
    {
      if didRender != null {
        var ran := didRender.Call();
        trace := trace + RanAll(DidRender, ran);
      }
    }

    method ComponentDidMount()
      requires Valid()
      modifies this`trace, didRender
      ensures Valid()
      ensures didRender != null ==> didRender.stack == [] && trace == old(trace) + RanAll(DidRender, old(didRender.stack))
      ensures didRender == null ==> trace == old(trace)
    {
      ComponentDidRender();
    }

    method ComponentDidUpdate()
      requires Valid()
      modifies this`trace, didRender
      ensures Valid()
      ensures didRender != null ==> didRender.stack == [] && trace == old(trace) + RanAll(DidRender, old(didRender.stack))
      ensures didRender == null ==> trace == old(trace)
    {
      ComponentDidRender();
    }

    /** `UNSAFE_componentWillReceiveProps(nextProps)`: pushed only when a props cell exists. */
    method ComponentWillReceiveProps(nextProps: Value)
      requires Valid()
      modifies this`propsCell, this`trace
      ensures Valid()
      ensures IsObservable(old(propsCell)) && CanPush(old(propsCell)) ==>
                propsCell == PushNext(old(propsCell), nextProps) && trace == old(trace) + [PushedProps(nextProps)]
      ensures !(IsObservable(old(propsCell)) && CanPush(old(propsCell))) ==>
                propsCell == old(propsCell) && trace == old(trace)
    {
      if IsObservable(propsCell) && CanPush(propsCell) {
        propsCell := PushNext(propsCell, nextProps);
        trace := trace + [PushedProps(nextProps)];
      }
    }

    /** The wrapped function calls the `add` it received as argument `i`. */
    method Register(i: nat, callback: Value)
      requires Valid() && i < |params| && params[i].AddParam?
      modifies params[i].stack
      ensures Valid()
      ensures params[i].stack.stack == if callback.Fn? then old(params[i].stack.stack) + [callback] else old(params[i].stack.stack)
    {
      params[i].stack.Add(callback);
    }

    /**
      `componentWillUnmount()`: discards the pending did-render callbacks,
      then runs the unmount callbacks, then unsubscribes, in that order.
     */
    method ComponentWillUnmount()
      requires Valid()
      modifies this`trace, this`subscribed, this`held, didRender, willUnmount
      ensures Valid()
      ensures Core() == Unsubscribe(old(Core()))
      ensures didRender != null ==> didRender.stack == []
      ensures willUnmount != null ==> willUnmount.stack == []
      ensures trace == old(trace)
                + (if didRender != null then [Discarded(DidRender, old(didRender.stack))] else [])
                + (if willUnmount != null then RanAll(WillUnmount, old(willUnmount.stack)) else [])
                + [Unsubscribed]
    {
      if didRender != null {
        trace := trace + [Discarded(DidRender, didRender.stack)];
        didRender.Clear();
      }
      if willUnmount != null {
        var ran := willUnmount.Call();
        trace := trace + RanAll(WillUnmount, ran);
      }
      var c := Unsubscribe(Core());
      subscribed, held := c.subscribed, c.held;
      trace := trace + [Unsubscribed];
    }
  }
}
