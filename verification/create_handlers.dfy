/**
  `createHandlers` (packages/conduit-rxjs/src/createHandlers.js): turns
  cells into plain one-argument functions that push into them, stripping
  the trailing `$` from object keys and keeping only push-capable entries.
  The object fold `Collect` is shared with `bindNotification`.
 */
module CreateHandlers {
  import opened JsObject
  import opened Values

  /** `key.replace(/\$$/, '')`: removes one `$` at the very end, if there is one. */
  function KeyFromStreamKey(key: string): (name: string)
    ensures |key| > 0 && key[|key| - 1] == '$' ==> key == name + "$"
    ensures !(|key| > 0 && key[|key| - 1] == '$') ==> name == key
  {
    if |key| > 0 && key[|key| - 1] == '$' then key[..|key| - 1] else key
  }

  /** A key that ends in `$$` loses only one `$`. */
  lemma StripsExactlyOne(name: string)
    ensures KeyFromStreamKey(name + "$") == name
    ensures KeyFromStreamKey(name + "$$") == name + "$"
  {
    assert (name + "$$")[..|name| + 1] == name + "$";
  }

  /** The shapes of `createHandlers` and `bindNotification` results. */
  datatype Handlers =
    | Single(handler: Option<Bound>)
    | List(handlers: seq<Option<Bound>>)
    | Named(named: Obj<Bound>)

  /**
    The object branch: `Object.keys(source).reduce`, over the entries in
    enumeration order, that renames each key
    with `KeyFromStreamKey`, asks `bind` for a function, skips `null` and
    otherwise stores `{ ...acc, [newKey]: fn }`.
   */
  function Collect(fields: Obj<Value>, bind: (string, Value) -> Option<Bound>): Obj<Bound>
  {
    if fields == [] then []
    else
      var acc := Collect(fields[..|fields| - 1], bind);
      var (key, item) := fields[|fields| - 1];
      var newKey := KeyFromStreamKey(key);
      match bind(newKey, item)
      case None => acc
      case Some(f) => Put(acc, newKey, f)
  }

  /**
    Reference for `Collect`: the function bound for the LAST entry, in key
    order, whose renamed key is `name` and that `bind` accepts.
   */
  function LastBinding(fields: Obj<Value>, bind: (string, Value) -> Option<Bound>, name: string): Option<Bound>
  {
    if fields == [] then None
    else
      var (key, item) := fields[|fields| - 1];
      if KeyFromStreamKey(key) == name && bind(name, item).Some? then bind(name, item)
      else LastBinding(fields[..|fields| - 1], bind, name)
  }

  lemma {:induction false} CollectIsLastBinding(fields: Obj<Value>, bind: (string, Value) -> Option<Bound>, name: string)
    ensures Get(Collect(fields, bind), name) == LastBinding(fields, bind, name)
    ensures WellFormed(Collect(fields, bind))
  {
    if fields != [] {
      var init := fields[..|fields| - 1];
      var (key, item) := fields[|fields| - 1];
      var newKey := KeyFromStreamKey(key);
      CollectIsLastBinding(init, bind, name);
      if bind(newKey, item).Some? {
        PutGet(Collect(init, bind), newKey, bind(newKey, item).value, name);
        PutWellFormed(Collect(init, bind), newKey, bind(newKey, item).value);
      }
    }
  }

  /** Some entry is bound under `name` exactly when some key renames to `name` and `bind` accepts its value. */
  lemma {:induction false} LastBindingExists(fields: Obj<Value>, bind: (string, Value) -> Option<Bound>, name: string)
    ensures LastBinding(fields, bind, name).Some? <==>
              exists i :: 0 <= i < |fields| && KeyFromStreamKey(fields[i].0) == name && bind(name, fields[i].1).Some?
  {
    if fields != [] {
      var init := fields[..|fields| - 1];
      LastBindingExists(init, bind, name);
      assert forall i :: 0 <= i < |init| ==> init[i] == fields[i];
    }
  }

  /** When two keys rename to the same name, the later one in key order wins. */
  lemma {:induction false} LaterKeyWins(fields: Obj<Value>, bind: (string, Value) -> Option<Bound>, i: nat)
    requires i < |fields|
    requires bind(KeyFromStreamKey(fields[i].0), fields[i].1).Some?
    requires forall j :: i < j < |fields| ==>
               KeyFromStreamKey(fields[j].0) != KeyFromStreamKey(fields[i].0)
               || bind(KeyFromStreamKey(fields[j].0), fields[j].1).None?
    ensures Get(Collect(fields, bind), KeyFromStreamKey(fields[i].0)) == bind(KeyFromStreamKey(fields[i].0), fields[i].1)
  {
    var name := KeyFromStreamKey(fields[i].0);
    CollectIsLastBinding(fields, bind, name);
    LaterKeyWinsLast(fields, bind, i);
  }

  lemma {:induction false} LaterKeyWinsLast(fields: Obj<Value>, bind: (string, Value) -> Option<Bound>, i: nat)
    requires i < |fields|
    requires bind(KeyFromStreamKey(fields[i].0), fields[i].1).Some?
    requires forall j :: i < j < |fields| ==>
               KeyFromStreamKey(fields[j].0) != KeyFromStreamKey(fields[i].0)
               || bind(KeyFromStreamKey(fields[j].0), fields[j].1).None?
    ensures LastBinding(fields, bind, KeyFromStreamKey(fields[i].0)) == bind(KeyFromStreamKey(fields[i].0), fields[i].1)
    decreases |fields|
  {
    if i < |fields| - 1 {
      var init := fields[..|fields| - 1];
      assert init[i] == fields[i];
      forall j | i < j < |init| ensures KeyFromStreamKey(init[j].0) != KeyFromStreamKey(init[i].0)
                                     || bind(KeyFromStreamKey(init[j].0), init[j].1).None? {
        assert init[j] == fields[j];
      }
      LaterKeyWinsLast(init, bind, i);
    }
  }

  /** `createHandler(item)`: a function that pushes into an observable `item`, or `null`. */
  function CreateHandler(item: Value): (h: Option<Bound>)
    ensures h.Some? <==> IsObservable(item)
    ensures h.Some? ==> h.value.target == item && h.value.notification == Next
  {
    if IsObservable(item) then Some(Bound(item, Next, "handler")) else None
  }

  function HandlerFor(newKey: string, item: Value): Option<Bound>
  {
    CreateHandler(item)
  }

  /** `createHandlers(source)`; `Object.keys(null)` and `Object.keys(undefined)` throw. */
  function CreateHandlers(source: Value): (r: Outcome<Handlers>)
    ensures IsObservable(source) ==> r.Done? && r.value.Single? && r.value.handler == CreateHandler(source)
    ensures !IsObservable(source) && source.Arr? ==>
              r.Done? && r.value.List? && |r.value.handlers| == |source.items|
              && forall i :: 0 <= i < |source.items| ==> r.value.handlers[i] == CreateHandler(source.items[i])
    ensures r.Throws? <==> source == Null || source == Undefined
  {
    if IsObservable(source) then Done(Single(CreateHandler(source)))
    else match source
      case Arr(items) => Done(List(seq(|items|, i requires 0 <= i < |items| => CreateHandler(items[i]))))
      case Rec(fields) => Done(Named(Collect(OwnOrder(fields), HandlerFor)))
      case Null => Throws
      case Undefined => Throws
      case _ => Done(Named([]))  // a primitive has no observable property
  }

  /**
    Object input: a name is present exactly when some key renames to it and
    holds an observable; its handler pushes into such an entry, the last in
    `Object.keys` order (`LaterKeyWins`).
   */
  lemma ObjectInputHandlers(fields: Obj<Value>, name: string)
    requires !IsObservable(Rec(fields))
    ensures CreateHandlers(Rec(fields)).Done?
    ensures var hs := CreateHandlers(Rec(fields)).value.named;
      && WellFormed(hs)
      && (Has(hs, name) <==>
            exists i :: 0 <= i < |fields| && KeyFromStreamKey(fields[i].0) == name && IsObservable(fields[i].1))
      && (Has(hs, name) ==>
            exists i :: 0 <= i < |fields| && KeyFromStreamKey(fields[i].0) == name
                     && Get(hs, name).value == Bound(fields[i].1, Next, "handler"))
  {
    assert CreateHandlers(Rec(fields)).value.named == Collect(OwnOrder(fields), HandlerFor);
    CollectIsLastBinding(OwnOrder(fields), HandlerFor, name);
    EnumeratedBinding(fields, HandlerFor, name);
  }

  /**
    Folding the entries in enumeration order finds a binding for `name`
    exactly when some entry of the object gives one, and the binding found
    is one of those.
   */
  lemma EnumeratedBinding(fields: Obj<Value>, bind: (string, Value) -> Option<Bound>, name: string)
    ensures LastBinding(OwnOrder(fields), bind, name).Some? <==>
              exists i :: 0 <= i < |fields| && KeyFromStreamKey(fields[i].0) == name && bind(name, fields[i].1).Some?
    ensures LastBinding(OwnOrder(fields), bind, name).Some? ==>
              exists i :: 0 <= i < |fields| && KeyFromStreamKey(fields[i].0) == name
                       && bind(name, fields[i].1) == LastBinding(OwnOrder(fields), bind, name)
  {
    var entries := OwnOrder(fields);
    LastBindingExists(entries, bind, name);
    if exists i :: 0 <= i < |fields| && KeyFromStreamKey(fields[i].0) == name && bind(name, fields[i].1).Some? {
      var i :| 0 <= i < |fields| && KeyFromStreamKey(fields[i].0) == name && bind(name, fields[i].1).Some?;
      var j := EnumeratedAt(fields, i);
    }
    if LastBinding(entries, bind, name).Some? {
      LastBindingKey(entries, bind, name);
      var j :| 0 <= j < |entries| && KeyFromStreamKey(entries[j].0) == name
               && bind(name, entries[j].1) == LastBinding(entries, bind, name);
      var i := EnumeratedFrom(fields, j);
    }
  }

  /** The bound function found for `name` comes from an entry whose key renames to `name`. */
  lemma {:induction false} LastBindingKey(fields: Obj<Value>, bind: (string, Value) -> Option<Bound>, name: string)
    requires LastBinding(fields, bind, name).Some?
    ensures exists i :: 0 <= i < |fields| && KeyFromStreamKey(fields[i].0) == name
                      && bind(name, fields[i].1) == LastBinding(fields, bind, name)
  {
    var init := fields[..|fields| - 1];
    var (key, item) := fields[|fields| - 1];
    if !(KeyFromStreamKey(key) == name && bind(name, item).Some?) {
      LastBindingKey(init, bind, name);
      var i :| 0 <= i < |init| && KeyFromStreamKey(init[i].0) == name
               && bind(name, init[i].1) == LastBinding(init, bind, name);
      assert fields[i] == init[i];
    }
  }

  /** `handler(v)` forwards `v` to `source.next`. */
  lemma HandlerPushesNext(source: Value, v: Value)
    requires IsObservable(source)
    ensures CreateHandlers(source) == Done(Single(Some(Bound(source, Next, "handler"))))
    ensures Invoke(Bound(source, Next, "handler"), v) == Done(Call(source, Next, v))
  {
  }
}
