/**
  `run(values, reducer$)` (packages/conduit-rxjs/src/run.js, and the older
  lib/run.js): subscribes each domain's reducer and routes every object it
  emits into the matching cells of that domain's `values`, then gathers the
  subscriptions under the first one.

  The two versions differ in three tests, captured by `Variant`: which
  reducers make a domain (`isObservable` against `instanceof Observable`),
  which cells receive a value (`isObservable` against truthiness), and how a
  cell is pushed (`subject$.next?.(v)` against `subject$.next(v)`).
 */
module Run {
  import opened JsObject
  import opened Values
  import opened CreateStreams

  datatype Variant = Packaged | Legacy

  /**
    `Object.keys(v)` with `v[key]` beside each key, in enumeration order;
    `Object.keys` throws on `null` and `undefined`.
   */
  function OwnEntries(v: Value): (r: Outcome<Obj<Value>>)
    ensures r.Throws? <==> v == Null || v == Undefined
    ensures v.Rec? ==> r.Done? && multiset(r.value) == multiset(v.fields)
  {
    if v == Null || v == Undefined then Throws else Done(EnumerableEntries(v))
  }

  /**
    `v[`${name}$`]` on a value that is not `null` or `undefined`. Only a
    plain object has own properties whose names end in `$`.
   */
  function DollarProperty(v: Value, name: string): Value
  {
    if v.Rec? && Has(v.fields, StreamKey(name)) then Get(v.fields, StreamKey(name)).value else Undefined
  }

  /** The test a domain's reducer must pass. */
  predicate ReducerAccepted(variant: Variant, reducer: Value)
  {
    match variant
    case Packaged => IsObservable(reducer)
    case Legacy => IsInstance(reducer)
  }

  /** The test a cell must pass to receive a value. */
  predicate CellAccepted(variant: Variant, cell: Value)
  {
    match variant
    case Packaged => IsObservable(cell)
    case Legacy => Truthy(cell)
  }

  /** A domain: the values object it writes into and the reducer it listens to. */
  datatype Domain = Domain(values: Value, reducer: Value)

  /** The `filter` over the per-key domains. */
  function KeyedDomains(variant: Variant, reducer: Value, entries: Obj<Value>): seq<Domain>
  {
    if entries == [] then []
    else KeyedDomains(variant, reducer, entries[..|entries| - 1]) + KeyedDomain(variant, reducer, entries[|entries| - 1])
  }

  /** The domain for one key of `values`, if its reducer is accepted. */
  function KeyedDomain(variant: Variant, reducer: Value, entry: (string, Value)): seq<Domain>
  {
    var d := Domain(entry.1, DollarProperty(reducer, entry.0));
    if ReducerAccepted(variant, d.reducer) then [d] else []
  }

  /**
    The domains `run` subscribes to, in order. Reading `reducer$[key]` throws
    when `reducer$` is `null` or `undefined` and `values` has a key.
   */
  function SelectDomains(variant: Variant, values: Value, reducer: Value): Outcome<seq<Domain>>
  {
    if ReducerAccepted(variant, reducer) then Done([Domain(values, reducer)])
    else match OwnEntries(values)
      case Throws => Throws
      case Done(entries) =>
        if entries != [] && (reducer == Null || reducer == Undefined) then Throws
        else Done(KeyedDomains(variant, reducer, entries))
  }

  /** Every selected domain has an accepted reducer, read from `reducer$[key$]` for one of the keys. */
  lemma {:induction false} KeyedDomainsSpec(variant: Variant, reducer: Value, entries: Obj<Value>)
    ensures |KeyedDomains(variant, reducer, entries)| <= |entries|
    ensures forall d :: d in KeyedDomains(variant, reducer, entries) ==>
              ReducerAccepted(variant, d.reducer)
              && exists i :: 0 <= i < |entries| && d == Domain(entries[i].1, DollarProperty(reducer, entries[i].0))
    ensures forall i :: 0 <= i < |entries| && ReducerAccepted(variant, DollarProperty(reducer, entries[i].0)) ==>
              Domain(entries[i].1, DollarProperty(reducer, entries[i].0)) in KeyedDomains(variant, reducer, entries)
  {
    if entries != [] {
      var init := entries[..|entries| - 1];
      KeyedDomainsSpec(variant, reducer, init);
      assert forall i :: 0 <= i < |init| ==> init[i] == entries[i];
    }
  }

  /**
    Domains follow the entries they come from: over the enumeration order of
    `values` (index keys ascending, then the rest as created), a key is
    skipped exactly when its reducer is not accepted.
   */
  lemma {:induction false} KeyedDomainsAppend(variant: Variant, reducer: Value, a: Obj<Value>, b: Obj<Value>)
    ensures KeyedDomains(variant, reducer, a + b) == KeyedDomains(variant, reducer, a) + KeyedDomains(variant, reducer, b)
    decreases |b|
  {
    if b != [] {
      var init := b[..|b| - 1];
      assert (a + b)[..|a + b| - 1] == a + init;
      assert (a + b)[|a + b| - 1] == b[|b| - 1];
      KeyedDomainsAppend(variant, reducer, a, init);
      assert KeyedDomains(variant, reducer, a + b)
          == KeyedDomains(variant, reducer, a + init) + KeyedDomain(variant, reducer, b[|b| - 1]);
    } else {
      assert a + b == a;
    }
  }

  /** An accepted reducer gives one domain over the whole of `values`, whatever `values` is. */
  lemma SingleDomain(variant: Variant, values: Value, reducer: Value)
    requires ReducerAccepted(variant, reducer)
    ensures SelectDomains(variant, values, reducer) == Done([Domain(values, reducer)])
  {
  }

  /** One item of `Object.keys(nextValues).map(…).filter(…)`: the cell found and the value for it. */
  datatype Target = Target(key: string, cell: Value, next: Value)

  /** The `map` and `filter` stage of the routing, over an emission's entries. */
  function Targets(variant: Variant, values: Value, entries: Obj<Value>): seq<Target>
  {
    if entries == [] then []
    else Targets(variant, values, entries[..|entries| - 1]) + TargetOf(variant, values, entries[|entries| - 1])
  }

  /** The target for one emitted key, if its cell is accepted. */
  function TargetOf(variant: Variant, values: Value, entry: (string, Value)): seq<Target>
  {
    var cell := DollarProperty(values, entry.0);
    if CellAccepted(variant, cell) then [Target(StreamKey(entry.0), cell, entry.1)] else []
  }

  /**
    The routing of one emission before any push: `Object.keys(nextValues)`
    throws on `null` and `undefined`, and `values[key$]` throws when the
    domain's `values` is `null` or `undefined` and the emission has a key.
   */
  function Route(variant: Variant, values: Value, emission: Value): Outcome<seq<Target>>
  {
    match OwnEntries(emission)
    case Throws => Throws
    case Done(entries) =>
      if entries != [] && (values == Null || values == Undefined) then Throws
      else Done(Targets(variant, values, entries))
  }

  /** What the `forEach` does with one target. */
  datatype Step = Push | Skip | Fail

  /**
    `subject$.next?.(v)` skips a cell whose `next` is `null` or `undefined`
    and throws on any other `next` that is not a function;
    `subject$.next(v)` throws unless `next` is a function.
   */
  function StepFor(variant: Variant, cell: Value): Step
  {
    if CanPush(cell) then Push
    else if variant == Packaged && !(cell.Rec? && Has(cell.fields, "next")
                                     && Get(cell.fields, "next").value != Null
                                     && Get(cell.fields, "next").value != Undefined)
    then Skip
    else Fail
  }

  /** The state of a domain's cells after the `forEach`, the calls made, and whether a call threw. */
  datatype Delivery = Delivery(values: Value, calls: seq<Call>, failed: bool)

  /** Writes the pushed cell back under its key. */
  function Store(values: Value, key: string, cell: Value): Value
  {
    if values.Rec? then Rec(Put(values.fields, key, cell)) else values
  }

  /** The `forEach` over the targets, which stops at the first call that throws. */
  function Deliver(variant: Variant, values: Value, targets: seq<Target>): Delivery
  {
    if targets == [] then Delivery(values, [], false)
    else
      var d := Deliver(variant, values, targets[..|targets| - 1]);
      var t := targets[|targets| - 1];
      if d.failed then d
      else match StepFor(variant, t.cell)
        case Push => Delivery(Store(d.values, t.key, PushNext(t.cell, t.next)), d.calls + [Call(t.cell, Next, t.next)], false)
        case Skip => d
        case Fail => Delivery(d.values, d.calls, true)
  }

  /** Every target is an emitted key whose cell passes the variant's test, with that key's cell and emitted value. */
  lemma {:induction false} TargetsSound(variant: Variant, values: Value, entries: Obj<Value>)
    ensures |Targets(variant, values, entries)| <= |entries|
    ensures forall i :: 0 <= i < |Targets(variant, values, entries)| ==>
              var t := Targets(variant, values, entries)[i];
              CellAccepted(variant, t.cell)
              && exists j :: 0 <= j < |entries| && t == Target(StreamKey(entries[j].0), DollarProperty(values, entries[j].0), entries[j].1)
  {
    if entries != [] {
      var init := entries[..|entries| - 1];
      TargetsSound(variant, values, init);
      assert forall j :: 0 <= j < |init| ==> init[j] == entries[j];
      var ts := Targets(variant, values, entries);
      assert forall i :: 0 <= i < |Targets(variant, values, init)| ==> ts[i] == Targets(variant, values, init)[i];
    }
  }

  /** Every emitted key whose cell passes the variant's test has a target. */
  lemma {:induction false} TargetsComplete(variant: Variant, values: Value, entries: Obj<Value>, j: nat)
    requires j < |entries| && CellAccepted(variant, DollarProperty(values, entries[j].0))
    ensures Target(StreamKey(entries[j].0), DollarProperty(values, entries[j].0), entries[j].1) in Targets(variant, values, entries)
  {
    var init := entries[..|entries| - 1];
    if j < |entries| - 1 {
      assert init[j] == entries[j];
      TargetsComplete(variant, values, init, j);
    }
  }

  /**
    Targets follow the emission's enumeration order: routing a concatenation
    of entries routes each part in turn.
   */
  lemma {:induction false} TargetsAppend(variant: Variant, values: Value, a: Obj<Value>, b: Obj<Value>)
    ensures Targets(variant, values, a + b) == Targets(variant, values, a) + Targets(variant, values, b)
    decreases |b|
  {
    if b != [] {
      var init := b[..|b| - 1];
      assert (a + b)[..|a + b| - 1] == a + init;
      assert (a + b)[|a + b| - 1] == b[|b| - 1];
      TargetsAppend(variant, values, a, init);
      assert Targets(variant, values, a + b)
          == Targets(variant, values, a + init) + TargetOf(variant, values, b[|b| - 1]);
    } else {
      assert a + b == a;
    }
  }

  /** Distinct emitted keys give distinct targets: each key is pushed at most once. */
  lemma {:induction false} TargetsDistinct(variant: Variant, values: Value, entries: Obj<Value>)
    requires WellFormed(entries)
    ensures forall i, j :: 0 <= i < j < |Targets(variant, values, entries)| ==>
              Targets(variant, values, entries)[i].key != Targets(variant, values, entries)[j].key
  {
    if entries != [] {
      var init := entries[..|entries| - 1];
      assert WellFormed(init);
      TargetsDistinct(variant, values, init);
      TargetsSound(variant, values, init);
      var ts := Targets(variant, values, entries);
      var n := |Targets(variant, values, init)|;
      forall i, j | 0 <= i < j < |ts| ensures ts[i].key != ts[j].key {
        if j == n {
          var m :| 0 <= m < |init| && ts[i] == Target(StreamKey(init[m].0), DollarProperty(values, init[m].0), init[m].1);
          assert entries[m].0 != entries[|entries| - 1].0;
          StreamKeyInjective(init[m].0, entries[|entries| - 1].0);
        }
      }
    }
  }

  /**
    Routing never adds a cell: the keys of `values` are unchanged, and a key
    that no target names keeps its cell.
   */
  lemma {:induction false} DeliverKeepsCells(variant: Variant, fields: Obj<Value>, targets: seq<Target>, k: string)
    requires forall i :: 0 <= i < |targets| ==> Has(fields, targets[i].key)
    ensures Deliver(variant, Rec(fields), targets).values.Rec?
    ensures Keys(Deliver(variant, Rec(fields), targets).values.fields) == Keys(fields)
    ensures (forall i :: 0 <= i < |targets| ==> targets[i].key != k) ==>
              Get(Deliver(variant, Rec(fields), targets).values.fields, k) == Get(fields, k)
  {
    if targets != [] {
      var init := targets[..|targets| - 1];
      var t := targets[|targets| - 1];
      DeliverKeepsCells(variant, fields, init, k);
      var d := Deliver(variant, Rec(fields), init);
      if !d.failed && StepFor(variant, t.cell) == Push {
        assert Has(d.values.fields, t.key) by {
          assert Has(fields, t.key);
          KeysHas(fields, d.values.fields, t.key);
        }
        PutKeys(d.values.fields, t.key, PushNext(t.cell, t.next));
        PutGet(d.values.fields, t.key, PushNext(t.cell, t.next), k);
      }
    }
  }

  /** Objects with the same keys have the same properties. */
  lemma KeysHas(a: Obj<Value>, b: Obj<Value>, k: string)
    requires Keys(a) == Keys(b)
    requires Has(a, k)
    ensures Has(b, k)
  {
    var i :| 0 <= i < |a| && a[i].0 == k;
    assert Keys(a)[i] == k;
  }

  /** Once a call has thrown, the remaining targets are not visited. */
  lemma {:induction false} DeliverStopsAtFailure(variant: Variant, values: Value, targets: seq<Target>, i: nat)
    requires i <= |targets|
    requires i == |targets| || Deliver(variant, values, targets[..i]).failed
    ensures Deliver(variant, values, targets) == Deliver(variant, values, targets[..i])
    decreases |targets| - i
  {
    if i < |targets| {
      var init := targets[..|targets| - 1];
      assert init[..i] == targets[..i];
      DeliverStopsAtFailure(variant, values, init, i);
    } else {
      assert targets[..i] == targets;
    }
  }

  /** Every call made is `cell.next(value)` on a target's cell, in target order, and none for a skipped or failing cell. */
  lemma {:induction false} DeliverCalls(variant: Variant, values: Value, targets: seq<Target>)
    ensures |Deliver(variant, values, targets).calls| <= |targets|
    ensures forall c :: c in Deliver(variant, values, targets).calls ==>
              exists i :: 0 <= i < |targets| && StepFor(variant, targets[i].cell) == Push
                       && c == Call(targets[i].cell, Next, targets[i].next)
    ensures !Deliver(variant, values, targets).failed ==>
              forall i :: 0 <= i < |targets| ==> StepFor(variant, targets[i].cell) != Fail
  {
    if targets != [] {
      var init := targets[..|targets| - 1];
      DeliverCalls(variant, values, init);
      assert forall i :: 0 <= i < |init| ==> init[i] == targets[i];
    }
  }

  /**
    The older `run` pushes into any truthy cell and throws on one without a
    `next` method; the packaged `run` skips a non-pushable observable.
   */
  lemma VariantsDifferOnCellWithoutNext(cell: Value, v: Value)
    requires cell == Stream(Derived(Opaque("map"), []))
    ensures Deliver(Packaged, Rec([("a$", cell)]), [Target("a$", cell, v)]) == Delivery(Rec([("a$", cell)]), [], false)
    ensures Deliver(Legacy, Rec([("a$", cell)]), [Target("a$", cell, v)]).failed
  {
    assert [Target("a$", cell, v)][..0] == [];
  }

  /** The subscription of one domain; later subscriptions become children of the first. */
  class Subscription {
    const domain: Domain
    var children: seq<Subscription>

    constructor (domain: Domain)
      ensures this.domain == domain && children == []
    {
      this.domain := domain;
      children := [];
    }

    /** `sub.add(child)` */
    method Add(child: Subscription)
      modifies this
      ensures children == old(children) + [child]
    {
      children := children + [child];
    }
  }

  /**
    `run(values, reducer$)`: `None` stands for the `null` returned when no
    domain is selected; otherwise the first domain's subscription with one
    child per later domain, in order.
   */
  method RunDomains(variant: Variant, values: Value, reducer: Value) returns (r: Outcome<Option<Subscription>>)
    ensures SelectDomains(variant, values, reducer).Throws? <==> r.Throws?
    ensures r.Done? ==> var ds := SelectDomains(variant, values, reducer).value;
      && (r.value.None? <==> ds == [])
      && (r.value.Some? ==>
            var sub := r.value.value;
            && sub.domain == ds[0]
            && |sub.children| == |ds| - 1
            && forall i :: 0 <= i < |sub.children| ==> sub.children[i].domain == ds[i + 1] && sub.children[i].children == [])
  {
    var selected := SelectDomains(variant, values, reducer);
    if selected.Throws? {
      return Throws;
    }
    var sub := SubscribeAll(selected.value);
    r := Done(sub);
  }

  /**
    The `forEach` over the selected domains: the first subscription, and
    each later one added to it as a child, in order.
   */
  method SubscribeAll(ds: seq<Domain>) returns (sub: Option<Subscription>)
    ensures sub.None? <==> ds == []
    ensures sub.Some? ==>
              && sub.value.domain == ds[0]
              && |sub.value.children| == |ds| - 1
              && forall i :: 0 <= i < |sub.value.children| ==>
                   sub.value.children[i].domain == ds[i + 1] && sub.value.children[i].children == []
  {
    var subs: seq<Subscription> := [];
    for i := 0 to |ds|
      invariant |subs| == i
      invariant forall j :: 0 <= j < i ==> subs[j].domain == ds[j] && subs[j].children == []
      invariant forall j, k :: 0 <= j < k < i ==> subs[j] != subs[k]
      invariant forall j :: 0 <= j < i ==> fresh(subs[j])
    {
      var s := new Subscription(ds[i]);
      subs := subs + [s];
    }
    sub := None;
    for i := 0 to |subs|
      invariant sub.None? <==> i == 0
      invariant forall j :: 0 <= j < |subs| ==> subs[j].domain == ds[j]
      invariant i > 0 ==> sub == Some(subs[0]) && subs[0].children == subs[1..i]
      invariant forall j :: 1 <= j < |subs| ==> subs[j].children == []
      invariant i == 0 && |subs| > 0 ==> subs[0].children == []
      invariant forall j, k :: 0 <= j < k < |subs| ==> subs[j] != subs[k]
      invariant forall j :: 0 <= j < |subs| ==> fresh(subs[j])
    {
      if sub.None? {
        sub := Some(subs[i]);
      } else {
        subs[0].Add(subs[i]);
        assert subs[1..i + 1] == subs[1..i] + [subs[i]];
      }
    }
  }

  /**
    The cells of one domain, with the calls made into them. `closed` is the
    subscriber's own flag: once its handler has thrown, the subscriber has
    unsubscribed itself and ignores what the reducer emits afterwards.
   */
  class DomainCells {
    const variant: Variant
    var values: Value
    var closed: bool
    ghost var calls: seq<Call>

    constructor (variant: Variant, values: Value)
      ensures this.variant == variant && this.values == values && calls == [] && !closed
    {
      this.variant := variant;
      this.values := values;
      closed := false;
      calls := [];
    }

    /**
      The reducer's subscriber receiving `nextValues`: `ok` is false when the
      routing throws, before any push or at the first failing call, and the
      subscriber is closed from then on. A closed subscriber changes nothing.
     */
    method Receive(emission: Value) returns (ok: bool)
      modifies this
      ensures old(closed) ==> ok && closed && values == old(values) && calls == old(calls)
      ensures !old(closed) && Route(variant, old(values), emission).Throws? ==>
                !ok && values == old(values) && calls == old(calls)
      ensures !old(closed) && Route(variant, old(values), emission).Done? ==>
                var d := Deliver(variant, old(values), Route(variant, old(values), emission).value);
                values == d.values && calls == old(calls) + d.calls && ok == !d.failed
      ensures closed == (old(closed) || !ok)
    {
      if closed {
        return true;
      }
      var route := Route(variant, values, emission);
      if route.Throws? {
        closed := true;
        return false;
      }
      var targets := route.value;
      ghost var start, before := values, calls;
      ok := true;
      var i := 0;
      while i < |targets| && ok
        invariant 0 <= i <= |targets|
        invariant var d := Deliver(variant, start, targets[..i]);
          values == d.values && calls == before + d.calls && ok == !d.failed
      {
        assert targets[..i + 1][..i] == targets[..i];
        var t := targets[i];
        match StepFor(variant, t.cell) {
          case Push =>
            values := Store(values, t.key, PushNext(t.cell, t.next));
            calls := calls + [Call(t.cell, Next, t.next)];
          case Skip =>
          case Fail =>
            ok := false;
        }
        i := i + 1;
      }
      DeliverStopsAtFailure(variant, start, targets, i);
      closed := !ok;
    }
  }
}
