/**
  The state pipeline both versions of the `Connect` component build in
  their constructor (packages/conduit-rxjs-react/src/connect.js:17-41 and
  connect/react.js:24-43): a `tap` that writes `state` while the component
  is being constructed, a `filter` that lets values through only once it has
  been constructed, an `audit` that keeps the newest value until the next
  animation frame, and a subscriber that raises `shouldUpdate` and calls
  `setState`. `shouldComponentUpdate` reads and clears the flag.

  The animation frame is the explicit event `Frame`; React's `setState` is
  reported as the value it is called with.
 */
module Pipeline {
  import opened JsObject
  import opened Values

  /**
    The fields the pipeline reads and writes: `componentDidConstruct`,
    `shouldUpdate`, `state`, the value `audit` holds while a frame is
    pending, and whether the main subscription is still open.
   */
  datatype Core = Core(constructed: bool, shouldUpdate: bool, state: Value, held: Option<Value>, subscribed: bool)

  /**
    The pipeline just subscribed inside the constructor. `shouldUpdate` is
    `undefined` there, which `shouldComponentUpdate` hands to React as a
    falsy answer; it is `false` here.
   */
  const Start := Core(false, false, Undefined, None, true)

  /** One value from the state stream, through `tap`, `filter` and `audit`. */
  function Emit(c: Core, v: Value): Core
  {
    if !c.subscribed then c
    else if !c.constructed then c.(shouldUpdate := true, state := v)
    else c.(held := Some(v))
  }

  /** Several values in order. */
  function EmitAll(c: Core, vs: seq<Value>): Core
  {
    if vs == [] then c else Emit(EmitAll(c, vs[..|vs| - 1]), vs[|vs| - 1])
  }

  /** `this.componentDidConstruct = true`, the last statement of the constructor. */
  function Finish(c: Core): Core
  {
    c.(constructed := true)
  }

  /**
    The animation frame fires: `audit` releases the value it holds, and the
    subscriber raises `shouldUpdate` and calls `setState` with it. Nothing
    happens when no value is held.
   */
  function Frame(c: Core): (Core, Option<Value>)
  {
    if c.subscribed && c.held.Some? then (c.(shouldUpdate := true, held := None), c.held)
    else (c, None)
  }

  /** `shouldComponentUpdate`: the flag as it was, and the state with the flag cleared. */
  function Gate(c: Core): (Core, bool)
  {
    (c.(shouldUpdate := false), c.shouldUpdate)
  }

  /** `this.subscription.unsubscribe()`: a pending frame no longer reaches the subscriber. */
  function Unsubscribe(c: Core): Core
  {
    c.(subscribed := false, held := None)
  }

  /**
    Every value that arrives while the component is being constructed is
    written to `state` and raises `shouldUpdate`; the last one is the one
    kept, and none is left for a frame.
   */
  lemma {:induction false} ConstructionLastWins(vs: seq<Value>)
    ensures var c := EmitAll(Start, vs);
      && !c.constructed && c.subscribed && c.held.None?
      && c.shouldUpdate == (vs != [])
      && c.state == if vs == [] then Undefined else vs[|vs| - 1]
  {
    if vs != [] {
      ConstructionLastWins(vs[..|vs| - 1]);
    }
  }

  /**
    Once constructed, values never write `state` nor touch `shouldUpdate`:
    only the frame stage deals with them.
   */
  lemma {:induction false} ConstructedNeverWritesState(c: Core, vs: seq<Value>)
    requires c.constructed
    ensures var d := EmitAll(c, vs);
      d.constructed && d.state == c.state && d.shouldUpdate == c.shouldUpdate && d.subscribed == c.subscribed
  {
    if vs != [] {
      ConstructedNeverWritesState(c, vs[..|vs| - 1]);
    }
  }

  /**
    Any number of values between two frames give exactly one `setState`,
    with the newest value, and no value gives none; a second frame with no
    value in between gives none.
   */
  lemma {:induction false} FrameCoalesces(c: Core, vs: seq<Value>)
    requires c.constructed && c.subscribed && c.held.None?
    ensures var (d, set1) := Frame(EmitAll(c, vs));
      && set1 == (if vs == [] then None else Some(vs[|vs| - 1]))
      && Frame(d).1 == None
      && (vs != [] ==> d.shouldUpdate)
  {
    HeldIsLast(c, vs);
  }

  /** While constructed and subscribed, `audit` holds the newest value since the last frame. */
  lemma {:induction false} HeldIsLast(c: Core, vs: seq<Value>)
    requires c.constructed && c.subscribed
    ensures EmitAll(c, vs).constructed && EmitAll(c, vs).subscribed
    ensures EmitAll(c, vs).held == if vs == [] then c.held else Some(vs[|vs| - 1])
  {
    if vs != [] {
      HeldIsLast(c, vs[..|vs| - 1]);
    }
  }

  /** `shouldComponentUpdate` is a one-shot: true then false with no emission between. */
  lemma GateOneShot(c: Core)
    ensures Gate(c).1 == c.shouldUpdate
    ensures !Gate(Gate(c).0).1
    ensures Gate(c).0 == c.(shouldUpdate := false)
  {
  }

  /** After unsubscribing, no value and no frame changes anything or reaches `setState`. */
  lemma {:induction false} UnsubscribedIsInert(c: Core, vs: seq<Value>)
    requires !c.subscribed
    ensures EmitAll(c, vs) == c
    ensures Frame(c) == (c, None)
  {
    if vs != [] {
      UnsubscribedIsInert(c, vs[..|vs| - 1]);
    }
  }

  /**
    React's `setState(partial)` once React applies it: `null` and
    `undefined` leave the state as it was; an object (an array or an
    observable included) is merged over a copy of the previous state, as
    `Object.assign({}, prevState, partial)`; any other value makes
    `setState` throw.
   */
  function MergeState(prev: Value, partial: Value): (r: Outcome<Value>)
    ensures r.Throws? <==> partial.Bool? || partial.Num? || partial.Str?
    ensures partial == Null || partial == Undefined ==> r == Done(prev)
    ensures r.Done? && partial != Null && partial != Undefined ==> r.value.Rec?
  {
    match partial
    case Null => Done(prev)
    case Undefined => Done(prev)
    case Bool(_) => Throws
    case Num(_) => Throws
    case Str(_) => Throws
    case _ => Done(Rec(Spread(Spread([], EnumerableEntries(prev)), EnumerableEntries(partial))))
  }

  /**
    The state once the subscriber's `setState` with the value a frame
    released, if any, has been applied; a call that throws leaves it alone.
   */
  function AfterSetState(state: Value, released: Option<Value>): Value
  {
    match released
    case None => state
    case Some(v) => match MergeState(state, v) case Done(s) => s case Throws => state
  }

  /** The state after `setState` with each of `vs` in turn. */
  function StateAfter(state: Value, vs: seq<Value>): Value
  {
    if vs == [] then state else AfterSetState(StateAfter(state, vs[..|vs| - 1]), Some(vs[|vs| - 1]))
  }

  /** The entries of `o` but `key` and `ref`, which React keeps off a component's props. */
  function WithoutReserved(o: Obj<Value>): (r: Obj<Value>)
    ensures forall e :: e in r <==> e in o && e.0 != "key" && e.0 != "ref"
  {
    if o == [] then []
    else (if o[0].0 == "key" || o[0].0 == "ref" then [] else [o[0]]) + WithoutReserved(o[1..])
  }

  /** `<WrappedComponent {...this.state} />`: the props the wrapped component is rendered with. */
  function RenderProps(state: Value): Obj<Value>
  {
    WithoutReserved(Spread([], EnumerableEntries(state)))
  }

  lemma {:induction false} WithoutReservedGet(o: Obj<Value>, k: string)
    ensures Get(WithoutReserved(o), k) == if k == "key" || k == "ref" then None else Get(o, k)
  {
    if o != [] {
      WithoutReservedGet(o[1..], k);
      var rest := WithoutReserved(o[1..]);
      if o[0].0 == "key" || o[0].0 == "ref" {
        assert WithoutReserved(o) == rest;
      } else {
        assert WithoutReserved(o) == [o[0]] + rest;
        assert ([o[0]] + rest)[1..] == rest;
      }
    }
  }

  /** Spreading a well-formed object onto `{}` copies it, key for key. */
  lemma CopyGet(o: Obj<Value>, k: string)
    requires WellFormed(o)
    ensures WellFormed(Spread([], o))
    ensures Get(Spread([], o), k) == Get(o, k)
  {
    SpreadWellFormed([], o);
    SpreadGet([], o, k);
  }

  /**
    Merging an object over an object state: the keys of both, the new value
    winning; the result is a well-formed object again, so merges chain.
   */
  lemma MergeStateGet(prev: Value, partial: Value, k: string)
    requires prev.Rec? && WellFormed(prev.fields)
    requires partial.Rec? && WellFormed(partial.fields)
    ensures MergeState(prev, partial).Done?
    ensures var s := MergeState(prev, partial).value;
      && s.Rec? && WellFormed(s.fields)
      && Get(s.fields, k) == if Has(partial.fields, k) then Get(partial.fields, k) else Get(prev.fields, k)
  {
    var a, b := OwnOrder(prev.fields), OwnOrder(partial.fields);
    assert EnumerableEntries(prev) == a && EnumerableEntries(partial) == b;
    assert MergeState(prev, partial) == Done(Rec(Spread(Spread([], a), b)));
    OwnOrderWellFormed(prev.fields);
    OwnOrderWellFormed(partial.fields);
    OwnOrderGet(prev.fields, k);
    OwnOrderGet(partial.fields, k);
    AssignGet(a, b, k);
  }

  /** `Object.assign({}, a, b)` on well-formed objects: well-formed, and `b` wins. */
  lemma AssignGet(a: Obj<Value>, b: Obj<Value>, k: string)
    requires WellFormed(a) && WellFormed(b)
    ensures WellFormed(Spread(Spread([], a), b))
    ensures Get(Spread(Spread([], a), b), k) == if Has(b, k) then Get(b, k) else Get(a, k)
  {
    CopyGet(a, k);
    SpreadWellFormed(Spread([], a), b);
    SpreadGet(Spread([], a), b, k);
  }

  /** The value `k` has after the states `vs`: from the last of them that holds it, else from `state`. */
  function LastHolder(state: Value, vs: seq<Value>, k: string): Option<Value>
    requires state.Rec? && forall i :: 0 <= i < |vs| ==> vs[i].Rec?
  {
    if vs == [] then Get(state.fields, k)
    else if Has(vs[|vs| - 1].fields, k) then Get(vs[|vs| - 1].fields, k)
    else LastHolder(state, vs[..|vs| - 1], k)
  }

  /**
    After object states `vs` have each been set in turn, the wrapped
    component is rendered with every key any of them (or the first state)
    holds, each from the newest that holds it: `setState` merges, it does
    not replace.
   */
  lemma {:induction false} RenderedStateIsLastHolder(state: Value, vs: seq<Value>, k: string)
    requires state.Rec? && WellFormed(state.fields)
    requires forall i :: 0 <= i < |vs| ==> vs[i].Rec? && WellFormed(vs[i].fields)
    ensures StateAfter(state, vs).Rec? && WellFormed(StateAfter(state, vs).fields)
    ensures Get(StateAfter(state, vs).fields, k) == LastHolder(state, vs, k)
    ensures Get(RenderProps(StateAfter(state, vs)), k) == if k == "key" || k == "ref" then None else LastHolder(state, vs, k)
  {
    var s := StateAfter(state, vs);
    if vs != [] {
      var init := vs[..|vs| - 1];
      RenderedStateIsLastHolder(state, init, k);
      MergeStateGet(StateAfter(state, init), vs[|vs| - 1], k);
    }
    RenderPropsGet(s, k);
  }

  /** The wrapped component is rendered with every key of an object state but `key` and `ref`. */
  lemma RenderPropsGet(state: Value, k: string)
    requires state.Rec? && WellFormed(state.fields)
    ensures Get(RenderProps(state), k) == if k == "key" || k == "ref" then None else Get(state.fields, k)
  {
    var a := OwnOrder(state.fields);
    assert EnumerableEntries(state) == a;
    OwnOrderWellFormed(state.fields);
    OwnOrderGet(state.fields, k);
    CopyGet(a, k);
    WithoutReservedGet(Spread([], a), k);
  }

  /** Two states `{a: 1}` and then `{b: 2}` render with both `a` and `b`. */
  lemma SuccessiveStatesMerge()
    ensures var s := StateAfter(Rec([]), [Rec([("a", Num(1))]), Rec([("b", Num(2))])]);
      Get(RenderProps(s), "a") == Some(Num(1)) && Get(RenderProps(s), "b") == Some(Num(2))
  {
    var a, b := [("a", Num(1))], [("b", Num(2))];
    var vs := [Rec(a), Rec(b)];
    assert a[0].0 == "a" && b[0].0 == "b";
    assert Has(a, "a") && !Has(b, "a") && Has(b, "b");
    assert vs[..1] == [Rec(a)];
    assert LastHolder(Rec([]), vs, "a") == Some(Num(1));
    assert LastHolder(Rec([]), vs, "b") == Some(Num(2));
    RenderedStateIsLastHolder(Rec([]), vs, "a");
    RenderedStateIsLastHolder(Rec([]), vs, "b");
  }

  /** The lifecycle channels a wrapped function may ask for. */
  datatype Channel = DidRender | WillUnmount

  /** What the component does that the outside world sees, in order. */
  datatype Effect =
    | SetState(state: Value)
    | Ran(channel: Channel, callback: Value)
    | Discarded(channel: Channel, callbacks: seq<Value>)
    | PushedProps(props: Value)
    | Unsubscribed

  /** One `Ran` effect per callback, in order. */
  function RanAll(channel: Channel, callbacks: seq<Value>): (effects: seq<Effect>)
    ensures |effects| == |callbacks|
    ensures forall i :: 0 <= i < |callbacks| ==> effects[i] == Ran(channel, callbacks[i])
  {
    seq(|callbacks|, i requires 0 <= i < |callbacks| => Ran(channel, callbacks[i]))
  }
}
