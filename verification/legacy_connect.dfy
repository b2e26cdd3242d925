/**
  The older `connect(WrappedComponent, source)` (connect/react.js): the same
  state pipeline as the packaged binding, with parameter names read from
  the wrapped function's source text, a `lifecycle` object of cells built
  with `createStreams`, and callback buffers in place of callback stacks.

  A callback buffer collects the values pushed into a lifecycle cell and
  releases them, in order, each time the matching `…Callback$` cell is
  triggered; released callbacks run at the next animation frame unless
  the buffer is unsubscribed first.
 */
module LegacyConnect {
  import opened JsObject
  import opened Values
  import opened CreateStreams
  import opened Pipeline
  import Packaged = Connect

  /**
    `createCallbackBuffer(source$, callback$)` and the subscription it
    returns: `buffer(callback$)` collects the registered callbacks until
    `callback$` emits, and `observeOn(animationFrame)` then schedules each
    of them for the next animation frame. The scheduled actions belong to
    the subscription, so unsubscribing cancels them.
   */
  class CallbackBuffer {
    /** What `buffer` has collected since the last release. */
    var pending: seq<Value>
    /** What was released and waits for the animation frame. */
    var scheduled: seq<Value>
    var active: bool

    constructor ()
      ensures pending == [] && scheduled == [] && active
    {
      pending := [];
      scheduled := [];
      active := true;
    }

    /** A value pushed into `source$`: kept for the next release while subscribed. */
    method Push(v: Value)
      modifies this
      ensures active == old(active) && scheduled == old(scheduled)
      ensures pending == if active then old(pending) + [v] else old(pending)
    {
      if active {
        pending := pending + [v];
      }
    }

    /**
      `callback$.next()`: `buffer` emits what it collected since the last
      release, and each callback is scheduled for the next animation frame.
     */
    method Trigger()
      modifies this
      ensures active == old(active) && pending == []
      ensures scheduled == old(scheduled) + if old(active) then old(pending) else []
    {
      if active {
        scheduled := scheduled + pending;
      }
      pending := [];
    }

    /** The animation frame: the scheduled callbacks are called, in order. */
    method AnimationFrame() returns (ran: seq<Value>)
      modifies this
      ensures ran == old(scheduled) && scheduled == []
      ensures active == old(active) && pending == old(pending)
    {
      ran := scheduled;
      scheduled := [];
    }

    /**
      `subscription.unsubscribe()`: the scheduled callbacks are cancelled,
      what was collected is dropped, and nothing more is taken.
     */
    method Stop() returns (dropped: seq<Value>)
      modifies this
      ensures dropped == old(scheduled) + old(pending)
      ensures !active && pending == [] && scheduled == []
    {
      dropped := scheduled + pending;
      active := false;
      pending := [];
      scheduled := [];
    }
  }

  const PropsKey := "props$"
  const DidRenderTrigger := "componentDidRenderCallback$"
  const WillUnmountTrigger := "componentWillUnmountCallback$"

  /** `createStreams({ props: this.props })` */
  function PropsCells(props: Value): Obj<Value>
  {
    CreateStreams.CreateStreams(Initial([("props", props)]))
  }

  /** `createStreams([name, `${name}Callback`])` */
  function ChannelCells(name: string): Obj<Value>
  {
    CreateStreams.CreateStreams(Names([name, name + "Callback"]))
  }

  lemma PropsCellsSpec(props: Value, k: string)
    ensures WellFormed(PropsCells(props))
    ensures Has(PropsCells(props), k) <==> k == PropsKey
    ensures Get(PropsCells(props), PropsKey) == Some(CreateStream(props))
  {
    var source := Initial([("props", props)]);
    assert !IsArrayIndex("props") by { assert "props"[4] == 's'; }
    OwnOrderNoIndex([("props", props)]);
    assert SourceKeys(source) == ["props"];
    CreateStreamsCell(source, "props");
    assert StreamKey("props") == PropsKey;
    StreamKeyOf(k, "props");
  }

  /** The cells made for a lifecycle name: `name$` and `nameCallback$`, both Pure. */
  lemma ChannelCellsSpec(name: string, k: string)
    ensures WellFormed(ChannelCells(name))
    ensures Has(ChannelCells(name), k) <==> k == name + "$" || k == name + "Callback$"
  {
    var names := [name, name + "Callback"];
    StreamKeyOf(k, name);
    StreamKeyOf(k, name + "Callback");
  }

  /** The argument passed for one parameter name. */
  datatype Param = PropsParam(cell: Value) | Registrar(buffer: CallbackBuffer, name: string) | NullParam

  function BufferOf(p: Param): CallbackBuffer?
  {
    if p.Registrar? then p.buffer else null
  }

  /**
    The argument for `name`: the props cell seeded with the props, a
    registration function (`bindNext` on the lifecycle cell, named `name`)
    feeding a fresh buffer, or `null`.
   */
  ghost predicate ParamFor(name: string, p: Param, props: Value)
    reads if p.Registrar? then {p.buffer} else {}
  {
    match Packaged.KindOf(name)
    case PropsKind => p == PropsParam(CreateStream(props))
    case ChannelKind(_) => p.Registrar? && p.name == name && p.buffer.pending == [] && p.buffer.active
    case NullKind => p == NullParam
  }

  /** The keys of `lifecycle` the hooks look at, as the names requested so far determine them. */
  ghost predicate LifecycleFor(lifecycle: Obj<Value>, names: seq<string>, props: Value)
  {
    && (Has(lifecycle, PropsKey) <==> "props$" in names)
    && (Has(lifecycle, PropsKey) ==> Get(lifecycle, PropsKey) == Some(CreateStream(props)))
    && (Has(lifecycle, DidRenderTrigger) <==> "componentDidRender" in names)
    && (Has(lifecycle, WillUnmountTrigger) <==> "componentWillUnmount" in names)
  }

  /** The cells one parameter name spreads over `lifecycle`. */
  function CellsFor(name: string, props: Value): Obj<Value>
  {
    if name == "props$" then PropsCells(props)
    else if name == "componentDidRender" || name == "componentWillUnmount" then ChannelCells(name)
    else []
  }

  /** `this.lifecycle` once every parameter name has been handled, in order. */
  function Lifecycle(names: seq<string>, props: Value): Obj<Value>
  {
    if names == [] then [] else Spread(Lifecycle(names[..|names| - 1], props), CellsFor(names[|names| - 1], props))
  }

  lemma LifecycleStep(names: seq<string>, i: nat, props: Value)
    requires i < |names|
    ensures Lifecycle(names[..i + 1], props) == Spread(Lifecycle(names[..i], props), CellsFor(names[i], props))
  {
    assert names[..i + 1][..i] == names[..i];
  }

  /** How one parameter name changes the tracked keys of `lifecycle`. */
  lemma CellsForKeys(lifecycle: Obj<Value>, name: string, props: Value)
    ensures var next := Spread(lifecycle, CellsFor(name, props));
      && (Has(next, PropsKey) <==> Has(lifecycle, PropsKey) || name == "props$")
      && Get(next, PropsKey) == (if name == "props$" then Some(CreateStream(props)) else Get(lifecycle, PropsKey))
      && (Has(next, DidRenderTrigger) <==> Has(lifecycle, DidRenderTrigger) || name == "componentDidRender")
      && (Has(next, WillUnmountTrigger) <==> Has(lifecycle, WillUnmountTrigger) || name == "componentWillUnmount")
  {
    var cells := CellsFor(name, props);
    if name == "props$" {
      PropsCellsKeys(lifecycle, props);
    } else if name == "componentDidRender" || name == "componentWillUnmount" {
      ChannelCellsKeys(lifecycle, name, props);
    } else {
      assert cells == [];
    }
  }

  lemma PropsCellsKeys(lifecycle: Obj<Value>, props: Value)
    ensures var next := Spread(lifecycle, PropsCells(props));
      && Has(next, PropsKey)
      && Get(next, PropsKey) == Some(CreateStream(props))
      && (Has(next, DidRenderTrigger) <==> Has(lifecycle, DidRenderTrigger))
      && (Has(next, WillUnmountTrigger) <==> Has(lifecycle, WillUnmountTrigger))
  {
    var cells := PropsCells(props);
    PropsCellsSpec(props, PropsKey);
    PropsCellsSpec(props, DidRenderTrigger);
    PropsCellsSpec(props, WillUnmountTrigger);
    SpreadGet(lifecycle, cells, PropsKey);
    SpreadHas(lifecycle, cells, DidRenderTrigger);
    SpreadHas(lifecycle, cells, WillUnmountTrigger);
  }

  lemma ChannelCellsKeys(lifecycle: Obj<Value>, name: string, props: Value)
    requires name == "componentDidRender" || name == "componentWillUnmount"
    ensures var next := Spread(lifecycle, ChannelCells(name));
      && (Has(next, PropsKey) <==> Has(lifecycle, PropsKey))
      && Get(next, PropsKey) == Get(lifecycle, PropsKey)
      && (Has(next, DidRenderTrigger) <==> Has(lifecycle, DidRenderTrigger) || name == "componentDidRender")
      && (Has(next, WillUnmountTrigger) <==> Has(lifecycle, WillUnmountTrigger) || name == "componentWillUnmount")
  {
    ChannelCellsTracked(name);
    SpreadTracked(lifecycle, ChannelCells(name), name == "componentDidRender", name == "componentWillUnmount");
  }

  /** Which of the tracked keys the cells for a lifecycle name hold. */
  lemma ChannelCellsTracked(name: string)
    requires name == "componentDidRender" || name == "componentWillUnmount"
    ensures var cells := ChannelCells(name);
      && WellFormed(cells)
      && !Has(cells, PropsKey)
      && (Has(cells, DidRenderTrigger) <==> name == "componentDidRender")
      && (Has(cells, WillUnmountTrigger) <==> name == "componentWillUnmount")
  {
    var names := [name, name + "Callback"];
    assert SourceKeys(Names(names)) == names;
    // A stream key is one longer than its name: the lengths tell the keys apart.
    assert |PropsKey| == 6 && |DidRenderTrigger| == 27 && |WillUnmountTrigger| == 29;
    if name == "componentDidRender" {
      assert |name| == 18 && StreamKey(name + "Callback") == DidRenderTrigger;
      StreamKeyOf(DidRenderTrigger, name + "Callback");
    } else {
      assert |name| == 20 && StreamKey(name + "Callback") == WillUnmountTrigger;
      StreamKeyOf(WillUnmountTrigger, name + "Callback");
    }
  }

  /** Spreading cells without `props$` over `lifecycle`: the tracked keys the cells hold are added. */
  lemma SpreadTracked(lifecycle: Obj<Value>, cells: Obj<Value>, didRender: bool, willUnmount: bool)
    requires WellFormed(cells) && !Has(cells, PropsKey)
    requires Has(cells, DidRenderTrigger) <==> didRender
    requires Has(cells, WillUnmountTrigger) <==> willUnmount
    ensures var next := Spread(lifecycle, cells);
      && (Has(next, PropsKey) <==> Has(lifecycle, PropsKey))
      && Get(next, PropsKey) == Get(lifecycle, PropsKey)
      && (Has(next, DidRenderTrigger) <==> Has(lifecycle, DidRenderTrigger) || didRender)
      && (Has(next, WillUnmountTrigger) <==> Has(lifecycle, WillUnmountTrigger) || willUnmount)
  {
    SpreadGet(lifecycle, cells, PropsKey);
    SpreadHas(lifecycle, cells, DidRenderTrigger);
    SpreadHas(lifecycle, cells, WillUnmountTrigger);
  }

  /**
    The lifecycle object has `props$`, seeded with the props, exactly when
    `props$` was requested, and each `…Callback$` trigger exactly when its
    channel was.
   */
  lemma {:induction false} LifecycleKeys(names: seq<string>, props: Value)
    ensures LifecycleFor(Lifecycle(names, props), names, props)
  {
    if names != [] {
      var init := names[..|names| - 1];
      LifecycleKeys(init, props);
      LifecycleKeysStep(init, names[|names| - 1], props);
      assert names == init + [names[|names| - 1]];
    }
  }

  lemma LifecycleKeysStep(init: seq<string>, name: string, props: Value)
    requires LifecycleFor(Lifecycle(init, props), init, props)
    ensures LifecycleFor(Lifecycle(init + [name], props), init + [name], props)
  {
    assert (init + [name])[..|init|] == init;
    CellsForKeys(Lifecycle(init, props), name, props);
    assert forall n :: n in init + [name] <==> n in init || n == name;
  }

  /**
    One step of `initLifecycle()`'s `map`: `initLifecycleProps()`,
    `initLifecycleConstructor(name)` or `null`, each spreading its new cells
    over `lifecycle`.
   */
  method CreateParam(name: string, props: Value, lifecycle: Obj<Value>) returns (p: Param, next: Obj<Value>)
    ensures ParamFor(name, p, props)
    ensures p.Registrar? ==> fresh(p.buffer)
    ensures next == Spread(lifecycle, CellsFor(name, props))
  {
    if name == "props$" {
      next := Spread(lifecycle, PropsCells(props));
      PropsCellsSpec(props, PropsKey);
      p := PropsParam(Get(PropsCells(props), PropsKey).value);
    } else if name == "componentDidRender" || name == "componentWillUnmount" {
      var b := new CallbackBuffer();
      next := Spread(lifecycle, ChannelCells(name));
      p := Registrar(b, name);
    } else {
      next := lifecycle;
      p := NullParam;
    }
  }

  /** `initLifecycle()`: one argument per parameter name, and the buffers the component keeps. */
  method InitLifecycle(names: seq<string>, props: Value)
      returns (ps: seq<Param>, lifecycle: Obj<Value>, dr: CallbackBuffer?, wu: CallbackBuffer?, ghost created: set<CallbackBuffer>)
    ensures fresh(created) && ParamsFor(names, ps, props, created)
    ensures lifecycle == Lifecycle(names, props)
    ensures Kept(names, ps, dr, wu)
    ensures dr != null <==> "componentDidRender" in names
    ensures wu != null <==> "componentWillUnmount" in names
    ensures dr != null ==> dr in created
    ensures wu != null ==> wu in created
    ensures dr != null && wu != null ==> dr != wu
  {
    ps, lifecycle, dr, wu, created := [], [], null, null, {};
    for i := 0 to |names|
      invariant fresh(created) && ParamsFor(names[..i], ps, props, created)
      invariant lifecycle == Lifecycle(names[..i], props)
      invariant Kept(names[..i], ps, dr, wu)
    {
      ps, lifecycle, dr, wu, created := InitStep(names, i, props, ps, lifecycle, dr, wu, created);
      LifecycleStep(names, i, props);
    }
    assert names[..|names|] == names;
    ChannelBuffers(names, ps, props, created);
  }

  /** One turn of `initLifecycle()`'s `map`, on the name at `i`. */
  method InitStep(names: seq<string>, i: nat, props: Value, ps: seq<Param>, lifecycle: Obj<Value>,
                  dr: CallbackBuffer?, wu: CallbackBuffer?, ghost created: set<CallbackBuffer>)
      returns (ps': seq<Param>, lifecycle': Obj<Value>, dr': CallbackBuffer?, wu': CallbackBuffer?, ghost created': set<CallbackBuffer>)
    requires i < |names| && ParamsFor(names[..i], ps, props, created)
    requires Kept(names[..i], ps, dr, wu)
    ensures ParamsFor(names[..i + 1], ps', props, created')
    ensures lifecycle' == Spread(lifecycle, CellsFor(names[i], props))
    ensures Kept(names[..i + 1], ps', dr', wu')
    ensures forall b :: b in created' ==> b in created || fresh(b)
  {
    assert names[..i + 1] == names[..i] + [names[i]];
    var p, next := CreateParam(names[i], props, lifecycle);
    KeptStep(names[..i], ps, dr, wu, names[i], p);
    ParamsStep(names[..i], ps, props, created, names[i], p);
    ps', lifecycle', dr', wu', created' := ps + [p], next, dr, wu, created;
    if p.Registrar? {
      created' := created + {p.buffer};
    }
    if names[i] == "componentDidRender" {
      dr' := BufferOf(p);
    } else if names[i] == "componentWillUnmount" {
      wu' := BufferOf(p);
    }
  }

  /**
    One argument per name, each as `ParamFor` says, the registration
    functions each with its own buffer, all of them in `created`.
   */
  ghost predicate ParamsFor(names: seq<string>, ps: seq<Param>, props: Value, created: set<CallbackBuffer>)
    reads created
  {
    && |ps| == |names|
    && (forall j :: 0 <= j < |names| && ps[j].Registrar? ==> ps[j].buffer in created)
    && (forall j :: 0 <= j < |names| ==> ParamFor(names[j], ps[j], props))
    && (forall j, k :: 0 <= j < k < |names| && ps[j].Registrar? && ps[k].Registrar? ==> ps[j].buffer != ps[k].buffer)
  }

  lemma ParamsStep(names: seq<string>, ps: seq<Param>, props: Value, created: set<CallbackBuffer>, name: string, p: Param)
    requires ParamsFor(names, ps, props, created) && ParamFor(name, p, props)
    requires p.Registrar? ==> p.buffer !in created
    ensures ParamsFor(names + [name], ps + [p], props, if p.Registrar? then created + {p.buffer} else created)
  {
    var names', ps' := names + [name], ps + [p];
    assert forall j :: 0 <= j < |ps| ==> ps'[j] == ps[j] && names'[j] == names[j];
  }

  /** The buffers the component keeps: those of the last registration function for each channel. */
  ghost predicate Kept(names: seq<string>, ps: seq<Param>, dr: CallbackBuffer?, wu: CallbackBuffer?)
    requires |ps| == |names|
  {
    && dr == (if "componentDidRender" in names then BufferOf(ps[Packaged.LastIndex(names, "componentDidRender")]) else null)
    && wu == (if "componentWillUnmount" in names then BufferOf(ps[Packaged.LastIndex(names, "componentWillUnmount")]) else null)
  }

  lemma KeptStep(names: seq<string>, ps: seq<Param>, dr: CallbackBuffer?, wu: CallbackBuffer?, name: string, p: Param)
    requires |ps| == |names| && Kept(names, ps, dr, wu)
    ensures Kept(names + [name], ps + [p],
                 if name == "componentDidRender" then BufferOf(p) else dr,
                 if name == "componentWillUnmount" then BufferOf(p) else wu)
  {
    assert forall n :: n in names + [name] <==> n in names || n == name;
    Packaged.LastIndexSnoc(names, name, "componentDidRender");
    Packaged.LastIndexSnoc(names, name, "componentWillUnmount");
  }

  /** The two kept buffers are distinct members of `created`. */
  lemma ChannelBuffers(names: seq<string>, ps: seq<Param>, props: Value, created: set<CallbackBuffer>)
    requires ParamsFor(names, ps, props, created)
    ensures "componentDidRender" in names ==> BufferOf(ps[Packaged.LastIndex(names, "componentDidRender")]) != null
    ensures "componentWillUnmount" in names ==> BufferOf(ps[Packaged.LastIndex(names, "componentWillUnmount")]) != null
    ensures "componentDidRender" in names ==> BufferOf(ps[Packaged.LastIndex(names, "componentDidRender")]) in created
    ensures "componentWillUnmount" in names ==> BufferOf(ps[Packaged.LastIndex(names, "componentWillUnmount")]) in created
    ensures "componentDidRender" in names && "componentWillUnmount" in names ==>
              BufferOf(ps[Packaged.LastIndex(names, "componentDidRender")]) != BufferOf(ps[Packaged.LastIndex(names, "componentWillUnmount")])
  {
    var a, b := Packaged.LastIndex(names, "componentDidRender"), Packaged.LastIndex(names, "componentWillUnmount");
    if a >= 0 { assert ParamFor(names[a], ps[a], props); }
    if b >= 0 { assert ParamFor(names[b], ps[b], props); }
    if a >= 0 && b >= 0 {
      if a < b { assert ps[a].buffer != ps[b].buffer; } else { assert ps[b].buffer != ps[a].buffer; }
    }
  }

  /**
    `getState()`, with `instanceof Observable` where the packaged binding
    uses `isObservable`; the stream it gives delivers its values while the
    constructor subscribes as `Packaged.SyncEmissions` says.
   */
  function GetState(source: Value, output: Value): (s: Packaged.StateStream)
    ensures IsInstance(source) ==> s == Packaged.Given(source)
    ensures !IsInstance(source) && source.Fn? ==> s == if IsInstance(output) then Packaged.Given(output) else Packaged.Of(output)
    ensures !IsInstance(source) && !source.Fn? ==> s == Packaged.Of(Rec([]))
  {
    if IsInstance(source) then Packaged.Given(source)
    else if source.Fn? then (if IsInstance(output) then Packaged.Given(output) else Packaged.Of(output))
    else Packaged.Of(Rec([]))
  }

  /**
    A plain object that merely looks like an observable is not an
    `Observable` instance here, so it is rendered as a single state value.
   */
  lemma LookalikeIsRenderedAsValue(source: Value)
    requires source.Rec? && IsObservable(source)
    ensures GetState(source, Undefined) == Packaged.Of(Rec([]))
  {
  }

  class Connect {
    const source: Value
    const props: Value
    var constructed: bool
    var shouldUpdate: bool
    var state: Value
    var held: Option<Value>
    var subscribed: bool
    /** `this.lifecycle`; empty when `source` is not a function. */
    var lifecycle: Obj<Value>
    /** `this.componentDidRenderSubscription` */
    var didRenderBuffer: CallbackBuffer?
    /** `this.componentWillUnmountSubscription` */
    var willUnmountBuffer: CallbackBuffer?
    var params: seq<Param>
    ghost var completed: bool
    ghost var trace: seq<Effect>
    ghost var buffers: set<CallbackBuffer>

    function Core(): Pipeline.Core
      reads this
    {
      Pipeline.Core(constructed, shouldUpdate, state, held, subscribed)
    }

    ghost predicate Valid()
      reads this
    {
      && (didRenderBuffer != null <==> Has(lifecycle, DidRenderTrigger))
      && (willUnmountBuffer != null <==> Has(lifecycle, WillUnmountTrigger))
      && (didRenderBuffer != null ==> didRenderBuffer in buffers)
      && (willUnmountBuffer != null ==> willUnmountBuffer in buffers)
      && (didRenderBuffer != null && willUnmountBuffer != null ==> didRenderBuffer != willUnmountBuffer)
      && (Has(lifecycle, PropsKey) ==> CanPush(Get(lifecycle, PropsKey).value))
      && (forall i :: 0 <= i < |params| && params[i].Registrar? ==> params[i].buffer in buffers)
    }

    /**
      The constructor. `paramNames` are the wrapped function's parameter
      names as its source text gives them, `output` what it returns, and
      `early` what an observable state stream other than a subject emits
      while being subscribed.
     */
    constructor (source: Value, paramNames: seq<string>, props: Value, output: Value, early: seq<Value>)
      ensures Valid() && fresh(buffers)
      ensures this.source == source && this.props == props
      ensures var names := if !IsInstance(source) && source.Fn? then paramNames else [];
        && ParamsFor(names, params, props, buffers)
        && lifecycle == Lifecycle(names, props)
        && Kept(names, params, didRenderBuffer, willUnmountBuffer)
      ensures Core() == Finish(EmitAll(Start, Packaged.SyncEmissions(GetState(source, output), early)))
      ensures completed == GetState(source, output).Of?
      ensures trace == []
    {
      var names := if !IsInstance(source) && source.Fn? then paramNames else [];
      var ps, lc, dr, wu, created := InitLifecycle(names, props);
      LifecycleKeys(names, props);
      var stream := GetState(source, output);
      // The subscription delivers the synchronous values before the constructor ends.
      var c := Finish(EmitAll(Start, Packaged.SyncEmissions(stream, early)));
      this.source := source;
      this.props := props;
      constructed, shouldUpdate, state, held, subscribed := c.constructed, c.shouldUpdate, c.state, c.held, c.subscribed;
      lifecycle, didRenderBuffer, willUnmountBuffer, params := lc, dr, wu, ps;
      completed := stream.Of?;
      trace := [];
      buffers := created;
    }

    /** A value of the state stream arrives. */
    method Emit(v: Value)
      requires Valid() && !completed
      modifies this`shouldUpdate, this`state, this`held
      ensures Valid()
      ensures Core() == Pipeline.Emit(old(Core()), v)
    {
      var c := Pipeline.Emit(Core(), v);
      shouldUpdate, state, held := c.shouldUpdate, c.state, c.held;
    }

    /**
      The animation frame `audit` requested fires: the subscriber calls
      `setState` with the value released, which React merges into `state`.
     */
    method FrameFire()
      requires Valid()
      modifies this`shouldUpdate, this`held, this`state, this`trace
      ensures Valid()
      ensures Core() == Frame(old(Core())).0.(state := AfterSetState(old(state), Frame(old(Core())).1))
      ensures trace == old(trace) + match Frame(old(Core())).1 case Some(s) => [SetState(s)] case None => []
    {
      var (c, released) := Frame(Core());
      shouldUpdate, held, state := c.shouldUpdate, c.held, AfterSetState(state, released);
      if released.Some? {
        trace := trace + [SetState(released.value)];
      }
    }

    /** `render()`: the wrapped component, with the state spread over its props. */
    method Render() returns (rendered: Obj<Value>)
      ensures rendered == RenderProps(state)
    {
      rendered := WithoutReserved(Spread([], EnumerableEntries(state)));
    }

    /** `shouldComponentUpdate()` */
    method ShouldComponentUpdate() returns (update: bool)
      requires Valid()
      modifies this`shouldUpdate
      ensures Valid()
      ensures update == old(shouldUpdate) && !shouldUpdate
      ensures Core() == Gate(old(Core())).0
    {
      update := shouldUpdate;
      shouldUpdate := false;
    }

    /**
      `componentDidRender()`: triggers the did-render buffer only when that
      channel was requested, releasing what it collected.
     */
    method ComponentDidRender()
      requires Valid()
      modifies this`trace, didRenderBuffer
      ensures Valid()
      ensures trace == old(trace)
      ensures Has(lifecycle, DidRenderTrigger) ==>
                didRenderBuffer.pending == [] && didRenderBuffer.active == old(didRenderBuffer.active)
                && didRenderBuffer.scheduled ==
                     old(didRenderBuffer.scheduled) + if old(didRenderBuffer.active) then old(didRenderBuffer.pending) else []
    {
      if Has(lifecycle, DidRenderTrigger) {
        didRenderBuffer.Trigger();
      }
    }

    /**
      The animation frame the buffers scheduled for fires: the did-render
      callbacks released so far run, then any unmount callbacks scheduled.
     */
    method CallbackFrame()
      requires Valid()
      modifies this`trace, didRenderBuffer, willUnmountBuffer
      ensures Valid()
      ensures didRenderBuffer != null ==>
                didRenderBuffer.scheduled == [] && didRenderBuffer.pending == old(didRenderBuffer.pending)
                && didRenderBuffer.active == old(didRenderBuffer.active)
      ensures willUnmountBuffer != null ==>
                willUnmountBuffer.scheduled == [] && willUnmountBuffer.pending == old(willUnmountBuffer.pending)
                && willUnmountBuffer.active == old(willUnmountBuffer.active)
      ensures trace == old(trace)
                + (if didRenderBuffer != null then RanAll(DidRender, old(didRenderBuffer.scheduled)) else [])
                + (if willUnmountBuffer != null then RanAll(WillUnmount, old(willUnmountBuffer.scheduled)) else [])
    {
      if didRenderBuffer != null {
        var ran := didRenderBuffer.AnimationFrame();
        trace := trace + RanAll(DidRender, ran);
      }
      if willUnmountBuffer != null {
        var ran := willUnmountBuffer.AnimationFrame();
        trace := trace + RanAll(WillUnmount, ran);
      }
    }

    method ComponentDidMount()
      requires Valid()
      modifies this`trace, didRenderBuffer
      ensures Valid()
      ensures trace == old(trace)
      ensures Has(lifecycle, DidRenderTrigger) ==>
                didRenderBuffer.pending == [] && didRenderBuffer.active == old(didRenderBuffer.active)
                && didRenderBuffer.scheduled ==
                     old(didRenderBuffer.scheduled) + if old(didRenderBuffer.active) then old(didRenderBuffer.pending) else []
    {
      ComponentDidRender();
    }

    method ComponentDidUpdate()
      requires Valid()
      modifies this`trace, didRenderBuffer
      ensures Valid()
      ensures trace == old(trace)
      ensures Has(lifecycle, DidRenderTrigger) ==>
                didRenderBuffer.pending == [] && didRenderBuffer.active == old(didRenderBuffer.active)
                && didRenderBuffer.scheduled ==
                     old(didRenderBuffer.scheduled) + if old(didRenderBuffer.active) then old(didRenderBuffer.pending) else []
    {
      ComponentDidRender();
    }

    /** `componentWillReceiveProps(nextProps)`: pushed into `lifecycle.props$` when it exists. */
    method ComponentWillReceiveProps(nextProps: Value)
      requires Valid()
      modifies this`lifecycle, this`trace
      ensures Valid()
      ensures Has(old(lifecycle), PropsKey) ==>
                lifecycle == Put(old(lifecycle), PropsKey, PushNext(Get(old(lifecycle), PropsKey).value, nextProps))
                && trace == old(trace) + [PushedProps(nextProps)]
      ensures !Has(old(lifecycle), PropsKey) ==> lifecycle == old(lifecycle) && trace == old(trace)
    {
      if Has(lifecycle, PropsKey) && Truthy(Get(lifecycle, PropsKey).value) {
        var cell := Get(lifecycle, PropsKey).value;
        ghost var before := lifecycle;
        lifecycle := Put(lifecycle, PropsKey, PushNext(cell, nextProps));
        PutGet(before, PropsKey, PushNext(cell, nextProps), PropsKey);
        PutHas(before, PropsKey, PushNext(cell, nextProps), DidRenderTrigger);
        PutHas(before, PropsKey, PushNext(cell, nextProps), WillUnmountTrigger);
        trace := trace + [PushedProps(nextProps)];
      }
    }

    /** The wrapped function calls the registration function it received as argument `i`. */
    method Register(i: nat, callback: Value)
      requires Valid() && i < |params| && params[i].Registrar?
      modifies params[i].buffer
      ensures Valid()
      ensures params[i].buffer.active == old(params[i].buffer.active)
      ensures params[i].buffer.pending ==
                if params[i].buffer.active then old(params[i].buffer.pending) + [callback] else old(params[i].buffer.pending)
      ensures params[i].buffer.scheduled == old(params[i].buffer.scheduled)
    {
      params[i].buffer.Push(callback);
    }

    /**
      `componentWillUnmount()`: stop the did-render buffer, trigger the
      unmount buffer, stop it, then unsubscribe the state pipeline. The
      trigger only schedules the unmount callbacks for an animation frame,
      and stopping the buffer straight after cancels them: none of them
      runs.
     */
    method ComponentWillUnmount()
      requires Valid()
      modifies this`trace, this`subscribed, this`held, didRenderBuffer, willUnmountBuffer
      ensures Valid()
      ensures Core() == Unsubscribe(old(Core()))
      ensures didRenderBuffer != null ==> !didRenderBuffer.active && didRenderBuffer.pending == [] && didRenderBuffer.scheduled == []
      ensures willUnmountBuffer != null ==> !willUnmountBuffer.active && willUnmountBuffer.pending == [] && willUnmountBuffer.scheduled == []
      ensures trace == old(trace)
                + (if didRenderBuffer != null
                   then [Discarded(DidRender, old(didRenderBuffer.scheduled) + old(didRenderBuffer.pending))]
                   else [])
                + (if willUnmountBuffer != null
                   then [Discarded(WillUnmount, old(willUnmountBuffer.scheduled)
                                                + if old(willUnmountBuffer.active) then old(willUnmountBuffer.pending) else [])]
                   else [])
                + [Unsubscribed]
    {
      ghost var t0 := trace;
      ghost var first := if didRenderBuffer != null
        then [Discarded(DidRender, didRenderBuffer.scheduled + didRenderBuffer.pending)] else [];
      ghost var second := if willUnmountBuffer != null
        then [Discarded(WillUnmount, willUnmountBuffer.scheduled + if willUnmountBuffer.active then willUnmountBuffer.pending else [])]
        else [];
      if didRenderBuffer != null {
        var dropped := didRenderBuffer.Stop();
        trace := trace + [Discarded(DidRender, dropped)];
      }
      assert trace == t0 + first;
      if willUnmountBuffer != null {
        ghost var collected := willUnmountBuffer.scheduled + if willUnmountBuffer.active then willUnmountBuffer.pending else [];
        assert Has(lifecycle, WillUnmountTrigger);
        willUnmountBuffer.Trigger();
        assert willUnmountBuffer.scheduled + willUnmountBuffer.pending == collected;
        var dropped := willUnmountBuffer.Stop();
        trace := trace + [Discarded(WillUnmount, dropped)];
      }
      assert trace == t0 + first + second;
      var c := Unsubscribe(Core());
      subscribed, held := c.subscribed, c.held;
      trace := trace + [Unsubscribed];
    }

    /**
      `componentWillUnmount()` as its comments intend: the unmount callbacks
      collected so far run, in order, before the subscriptions are closed.
     */
    method ComponentWillUnmountIntended()
      requires Valid()
      modifies this`trace, this`subscribed, this`held, didRenderBuffer, willUnmountBuffer
      ensures Valid()
      ensures Core() == Unsubscribe(old(Core()))
      ensures didRenderBuffer != null ==> !didRenderBuffer.active && didRenderBuffer.pending == [] && didRenderBuffer.scheduled == []
      ensures willUnmountBuffer != null ==> !willUnmountBuffer.active && willUnmountBuffer.pending == [] && willUnmountBuffer.scheduled == []
      ensures trace == old(trace)
                + (if didRenderBuffer != null
                   then [Discarded(DidRender, old(didRenderBuffer.scheduled) + old(didRenderBuffer.pending))]
                   else [])
                + (if willUnmountBuffer != null
                   then RanAll(WillUnmount, old(willUnmountBuffer.scheduled)
                                            + if old(willUnmountBuffer.active) then old(willUnmountBuffer.pending) else [])
                   else [])
                + [Unsubscribed]
    {
      ghost var t0 := trace;
      ghost var first := if didRenderBuffer != null
        then [Discarded(DidRender, didRenderBuffer.scheduled + didRenderBuffer.pending)] else [];
      ghost var second := if willUnmountBuffer != null
        then RanAll(WillUnmount, willUnmountBuffer.scheduled + if willUnmountBuffer.active then willUnmountBuffer.pending else [])
        else [];
      if didRenderBuffer != null {
        var dropped := didRenderBuffer.Stop();
        trace := trace + [Discarded(DidRender, dropped)];
      }
      assert trace == t0 + first;
      if willUnmountBuffer != null {
        willUnmountBuffer.Trigger();
        var ran := willUnmountBuffer.AnimationFrame();
        trace := trace + RanAll(WillUnmount, ran);
        var dropped := willUnmountBuffer.Stop();
      }
      assert trace == t0 + first + second;
      var c := Unsubscribe(Core());
      subscribed, held := c.subscribed, c.held;
      trace := trace + [Unsubscribed];
    }
  }

  /**
    What `componentWillUnmount` appends for the unmount channel: as written,
    one `Discarded` record, so no collected callback ever runs; as
    intended, a run of each collected callback, in order.
   */
  lemma UnmountRunsNoCallback(dropped: seq<Value>, collected: seq<Value>, cb: Value)
    ensures Ran(WillUnmount, cb) !in [Discarded(DidRender, dropped), Discarded(WillUnmount, collected), Unsubscribed]
    ensures (Ran(WillUnmount, cb) in [Discarded(DidRender, dropped)] + RanAll(WillUnmount, collected) + [Unsubscribed])
              == (cb in collected)
  {
    var effects := [Discarded(DidRender, dropped)] + RanAll(WillUnmount, collected) + [Unsubscribed];
    if cb in collected {
      var i :| 0 <= i < |collected| && collected[i] == cb;
      assert effects[i + 1] == Ran(WillUnmount, cb);
    }
    if Ran(WillUnmount, cb) in effects {
      var j :| 0 <= j < |effects| && effects[j] == Ran(WillUnmount, cb);
      assert collected[j - 1] == cb;
    }
  }
}
