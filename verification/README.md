# Conduit, modelled in Dafny

Conduit is a small library for wiring RxJS streams to React components.
An application keeps its data in *value streams*: subjects named with a
trailing `$`. Events turn into *reducer streams*. `run` routes each
reducer emission back into the value streams. `connect` renders a
selector stream through a React component, at most once per animation
frame. The model covers:

- **`createStreams`** (module `CreateStreams`). Both copies, the packaged one and the one under `lib/`, have the same body. It builds `key$` cells: a `Subject` for `undefined`, a `BehaviorSubject` otherwise.
- **`createHandlers`** and **`bindNotification`** (`CreateHandlers`, `BindNotification`). They give plain functions that push into observables.
- **`mergeStreams`** (`MergeStreams`). It groups stream sets by key and merges the groups. A key named after an `Object.prototype` member, such as `constructor`, makes it throw.
- **`run`** (`Run`), in both its packaged and its older form. The class `Run.DomainCells` routes one emission into the cells. `Run.RunDomains` builds the parent and child subscriptions.
- **`isObservable`** (`Values.IsObservable`), over a small universe of JavaScript values (`Values.Value`).
- **Packaged `connect`** (`Connect`) and **older `connect/react.js`** (`LegacyConnect`). Each is a class whose methods are React's lifecycle hooks. The state pipeline they share (`tap`, `filter`, `audit`, `setState`) is the pure module `Pipeline`. The constructor ties each class to it.
- **The to-do example's logic** (`TodoMvc`, `TodoUtil`): events, intents, reducers, derived counts, the selector, `pluralize` and `uuid`.
- **The word-count example's helpers and status bar** (`WordCountUtil`, `StatusBar`).

JavaScript objects are association lists in creation order (`JsObject`);
`{ ...a, ...b }` is `Spread` and `{ ...a, [k]: v }` is `Put`. Whatever
enumerates an object (`Object.keys`, spread, `Object.assign`) visits it in
`OwnOrder`: the array-index keys first, in ascending numeric order, then
the other keys in creation order, as section 10.1.11.1 of ECMAScript 2022
(`OrdinaryOwnPropertyKeys`) prescribes. `Object.keys` throwing on
`null`/`undefined` is an `Outcome` with a `Throws` case. Effects a
lifecycle hook has on the outside world (`setState`, callbacks run or
discarded) are recorded in a ghost `trace`.

Two details of the code that the model keeps:

- A `connect` source that is neither observable nor a function gives `of({})`, not the value itself (packages/conduit-rxjs-react/src/connect.js:55).
- The packaged `run` calls `subject$.next?.(v)`. This skips a cell whose `next` is missing and still throws on a `next` that is not a function (packages/conduit-rxjs/src/run.js:37).

## Model

| member | source | states |
|---|---|---|
| JsObject.OwnOrderPermutes | packages/conduit-rxjs/src/run.js:11 | enumeration visits every own entry exactly once: the enumerated entries are a permutation of the object's |
| JsObject.OwnOrderSpec | packages/conduit-rxjs/src/run.js:11 | enumeration puts the array-index keys first, in ascending numeric order, and keeps the other keys in creation order |
| JsObject.IndexKeyEnumeratedFirst | packages/conduit-rxjs/src/run.js:33 | `{ b: x, 1: y }` is enumerated as key `1`, then key `b` |
| JsObject.OwnOrderWellFormed | packages/conduit-rxjs/src/run.js:11 | enumerating an object with distinct keys gives distinct keys |
| JsObject.OwnOrderGet | packages/conduit-rxjs/src/run.js:13 | enumeration does not change what a key reads |
| JsObject.OwnOrderNoIndex | packages/conduit-rxjs/src/createStreams.js:11 | an object with no array-index key is enumerated in creation order |
| JsObject.DecimalRoundTrip | packages/conduit-rxjs/src/createStreams.js:14 | `String(n)` is non-empty decimal digits spelling `n`, with a leading `0` only for zero, so an array's indices are array-index keys |
| Values.EnumerableEntries | packages/conduit-rxjs/src/bindNotification.js:22 | an object's own entries in enumeration order (a permutation of its entries); an array or string gives one entry per index |
| Values.ToJsString | packages/conduit-rxjs-react/src/connect.js:128 | `String(v)` as a template literal applies it: a string is itself, a number its decimal form (with `-` when negative); `None` exactly for functions, arrays and objects with their own `toString`/`valueOf` |
| Values.IsObservableCases | packages/conduit-rxjs-react/src/isObservable.js:6-8 | falsy values are never observable; instances always are; other truthy values are observable exactly when they have `lift` and `subscribe` functions |
| CreateStreams.CreateStream | packages/conduit-rxjs/src/createStreams.js:19-23 | `undefined` gives a Subject (Pure cell), anything else a BehaviorSubject seeded with that value; either is observable and pushable (lib/createStreams.js:18-22 is the same function) |
| CreateStreams.StreamKeyInjective | packages/conduit-rxjs/src/createStreams.js:14 | two names get the same `name$` key exactly when they are equal |
| CreateStreams.StreamKeyOf | packages/conduit-rxjs/src/createStreams.js:14 | a key is `name$` exactly when it ends in `$` and the rest is `name` |
| CreateStreams.Inherited | packages/conduit-rxjs/src/createStreams.js:14 | what `source[key]` finds on the prototypes of an array: each `Array.prototype` and `Object.prototype` method as a function with its `length`, `constructor`, `__proto__`, and `undefined` for any other key |
| CreateStreams.CreateStreams | packages/conduit-rxjs/src/createStreams.js:8-17 | the result is well-formed and its keys are exactly the names (list items, or object keys in enumeration order) with `$` appended; lib/createStreams.js:4-16 is the same function |
| CreateStreams.CreateStreamsCell | packages/conduit-rxjs/src/createStreams.js:12-16 | the cell under `name$` is `createStream(source[name])`, with `source[name]` looked up on the list itself or on the object |
| CreateStreams.BuildSpec | packages/conduit-rxjs/src/createStreams.js:12-16 | the reduce yields a well-formed object whose keys are exactly the names with `$`, each holding `createStream(source[name])` |
| CreateStreams.ObjectInputCell | packages/conduit-rxjs/src/createStreams.js:11-14 | object input: key `k` gets a Pure cell iff its value is `undefined`, otherwise a Replaying cell holding the value (falsy values included) |
| CreateStreams.ListInputOrdinaryName | packages/conduit-rxjs/src/createStreams.js:9-14 | list input: a name that is not `length`, not an index of the list and not inherited looks itself up on the list, finds `undefined` and gets a Pure cell |
| CreateStreams.ListInputInheritedName | packages/conduit-rxjs/src/createStreams.js:9-14 | list input: an inherited name such as `filter` or `values` finds the prototype's function and gets a Replaying cell seeded with it |
| CreateStreams.LengthIsOwn | packages/conduit-rxjs/src/createStreams.js:14 | `length` is the list's own property, not an inherited one |
| CreateStreams.ListInputLengthName | packages/conduit-rxjs/src/createStreams.js:9-14 | list input: the name `length` finds the list's length and gets a Replaying cell seeded with it |
| CreateHandlers.KeyFromStreamKey | packages/conduit-rxjs/src/createHandlers.js:29-32 | one trailing `$` is removed when present, otherwise the key is unchanged |
| CreateHandlers.StripsExactlyOne | packages/conduit-rxjs/src/createHandlers.js:29-32 | `name$` becomes `name` and `name$$` becomes `name$` |
| CreateHandlers.CollectIsLastBinding | packages/conduit-rxjs/src/createHandlers.js:12-20 | the object reduce stores under each name the binding of the last key renaming to it, and its result is well-formed |
| CreateHandlers.LastBindingExists | packages/conduit-rxjs/src/createHandlers.js:12-20 | a name is bound iff some key renames to it and its value is accepted |
| CreateHandlers.LaterKeyWins | packages/conduit-rxjs/src/createHandlers.js:17-19 | of two keys renaming to one name, the later accepted one wins |
| CreateHandlers.LastBindingKey | packages/conduit-rxjs/src/createHandlers.js:12-20 | a bound name comes from a key that renames to it |
| CreateHandlers.CreateHandler | packages/conduit-rxjs/src/createHandlers.js:23-27 | a handler exists iff the item is observable, and it pushes into that item with `next` |
| CreateHandlers.CreateHandlers | packages/conduit-rxjs/src/createHandlers.js:3-21 | an observable gives one handler, a list one handler (or null) per item in order, `null`/`undefined` throw |
| CreateHandlers.ObjectInputHandlers | packages/conduit-rxjs/src/createHandlers.js:11-20 | object input: a renamed key is present iff some key renames to it and holds an observable; its handler pushes into such an entry |
| CreateHandlers.HandlerPushesNext | packages/conduit-rxjs/src/createHandlers.js:4-6 | an observable source gives a single handler, and calling it calls `source.next(value)` |
| BindNotification.Splice | packages/conduit-rxjs/src/bindNotification.js:37 | `.replace('next', fnName)` puts a name without `$` in place of `next` unchanged (the `$` patterns of `replace` are handled too, and `MatchPatternSplicesNext` and `RejectedNames` state two of them) |
| BindNotification.FunctionName | packages/conduit-rxjs/src/bindNotification.js:37-38 | the name the synthesised function gets is empty or an identifier that is not a reserved word; otherwise `new Function` throws a SyntaxError (`None`) |
| BindNotification.PlainName | packages/conduit-rxjs/src/bindNotification.js:37-38 | a non-reserved identifier without `$` names the function as it is |
| BindNotification.BadName | packages/conduit-rxjs/src/bindNotification.js:37-38 | spliced text with no surrounding white space that is not a valid name is a SyntaxError |
| BindNotification.DefaultNamesAreValid | packages/conduit-rxjs/src/bindNotification.js:34 | the default names `next`, `error` and `complete` name the function as they are |
| BindNotification.RejectedNames | packages/conduit-rxjs/src/bindNotification.js:25-38 | the keys `my-key`, `0`, `class` and `a$'` make the synthesised text a SyntaxError |
| BindNotification.EmptyNameIsAnonymous | packages/conduit-rxjs/src/bindNotification.js:37-38 | an empty name gives an anonymous function |
| BindNotification.MatchPatternSplicesNext | packages/conduit-rxjs/src/bindNotification.js:37 | `$&` puts back the matched `next`: `name$&` names the function `namenext` |
| BindNotification.CreateBindNotification | packages/conduit-rxjs/src/bindNotification.js:34-39 | `null` iff the source is not an Observable instance with that method; otherwise it throws iff the requested name (default: the notification's) makes the synthesised text a SyntaxError, and else gives a function targeting the source and notification, named by `FunctionName` |
| BindNotification.BindNotification | packages/conduit-rxjs/src/bindNotification.js:15-30 | an instance gives one binding or throws as `createBindNotification` does; a list gives one `null` per element; it throws iff the source is `null`/`undefined`, an instance whose name is rejected, or an object with an entry whose renamed key is rejected |
| BindNotification.ObjectInputThrows | packages/conduit-rxjs/src/bindNotification.js:22-29 | object input throws iff some entry is an instance with the method and its renamed key is rejected as a function name |
| BindNotification.BindersFixNotification | packages/conduit-rxjs/src/bindNotification.js:3-13 | every function `bindNext`, `bindError` and `bindComplete` return is bound to `next`, `error` and `complete` respectively |
| BindNotification.ObjectInputBindings | packages/conduit-rxjs/src/bindNotification.js:21-29 | object input that does not throw: a renamed key is present iff some key renames to it and holds an instance with the method; the function forwards to such an entry and is named by `FunctionName` of the renamed key |
| BindNotification.BoundForwards | packages/conduit-rxjs/src/bindNotification.js:41-45 | the function bound under the default name hands its argument to `source[notification]` |
| Values.Invoke | packages/conduit-rxjs/src/bindNotification.js:41-45 | calling a bound function throws a TypeError iff its name is `source` or `notification`, which hides the factory parameter its body reads; otherwise it calls `target[notification]` with the argument |
| BindNotification.ObjectBindingCall | packages/conduit-rxjs/src/bindNotification.js:22-45 | a function of object input throws when called iff its name is `source` or `notification`; otherwise it forwards to an entry whose key renames to its own |
| BindNotification.ObjectInputCollects | packages/conduit-rxjs/src/bindNotification.js:22-29 | object input that no entry makes throw is the fold of the binder over the entries in `Object.keys` order |
| BindNotification.SourceKeyBindsThrowingFunction | packages/conduit-rxjs/src/bindNotification.js:22-45 | `{ source: subject }` binds a function named `source`, and calling it throws |
| BindNotification.NotificationNameThrowsOnCall | packages/conduit-rxjs/src/bindNotification.js:3-5 | `bindNext(subject, 'notification')` gives a function named `notification`, and calling it throws |
| BindNotification.ListOfSubjectsBindsNothing | packages/conduit-rxjs/src/bindNotification.js:17-20 | as written, a list of two subjects gives `[null, null]` |
| BindNotification.BindList | packages/conduit-rxjs/src/bindNotification.js:17-20 | corrected list branch: element `i` gets `createBindNotification(items[i], …)`, and the `map` throws iff some element's call throws |
| BindNotification.BindNotificationIntended | packages/conduit-rxjs/src/bindNotification.js:15-30 | the corrected function agrees with the written one on every input that is not a list |
| BindNotification.IntendedListBindsEachElement | packages/conduit-rxjs/src/bindNotification.js:17-20 | corrected, with a valid name: element `i` is bound iff it is an instance with the method, and calling the function forwards to that element, or throws when the name is `source` or `notification`; with a rejected name, the call throws iff some element would be bound |
| MergeStreams.MergeStreams | packages/conduit-rxjs/src/mergeStreams.js:4-31 | no stream sets give the empty object |
| MergeStreams.GroupSetSpec | packages/conduit-rxjs/src/mergeStreams.js:8-14 | one stream set that does not throw appends its value to each of its keys' groups and leaves other groups alone |
| MergeStreams.GroupSetThrows | packages/conduit-rxjs/src/mergeStreams.js:10-12 | one stream set throws iff it holds a key that the grouping so far does not own and that names an `Object.prototype` member (`acc[key]` is then a method, and spreading it throws) |
| MergeStreams.GroupIsContributors | packages/conduit-rxjs/src/mergeStreams.js:6-15 | a grouping that does not throw holds, for each key, the values stored under it, in argument order |
| MergeStreams.GroupThrows | packages/conduit-rxjs/src/mergeStreams.js:6-15 | grouping throws iff some stream set holds a key named after an `Object.prototype` member |
| MergeStreams.FinalizeSpec | packages/conduit-rxjs/src/mergeStreams.js:17-30 | each grouped key is kept as is, merged, or dropped according to its group |
| MergeStreams.MergeStreamsSpec | packages/conduit-rxjs/src/mergeStreams.js:4-31 | throws iff some stream set holds a key named after an `Object.prototype` member; otherwise, per key: no contributor, no key; one contributor, passed through unchanged; several, merged when all are observable and dropped otherwise |
| MergeStreams.ContributorsFrom | packages/conduit-rxjs/src/mergeStreams.js:6-15 | a key has contributors iff some stream set holds it |
| MergeStreams.MergedKeysFromInputs | packages/conduit-rxjs/src/mergeStreams.js:17-30 | every key of the result is a key of some input |
| MergeStreams.InheritedKeyThrows | packages/conduit-rxjs/src/mergeStreams.js:10-12 | a stream set with the key `constructor` throws, while `constructor$` is passed through |
| Run.OwnEntries | packages/conduit-rxjs/src/run.js:33-34 | `Object.keys` throws exactly on `null` and `undefined`; a plain object gives its own entries, each once, in enumeration order |
| Run.KeyedDomainsSpec | packages/conduit-rxjs/src/run.js:11-15 | each selected domain pairs `values[key]` with an accepted `reducer$[key$]`, and every key with an accepted reducer is selected |
| Run.KeyedDomainsAppend | packages/conduit-rxjs/src/run.js:11-15 | domains follow the enumeration order of `values` (index keys ascending, then the rest as created): the domains of concatenated entries are the domains of each part, in turn |
| Run.SingleDomain | packages/conduit-rxjs/src/run.js:9-10 | an observable reducer gives exactly one domain over the whole of `values` |
| Run.TargetsSound | packages/conduit-rxjs/src/run.js:33-35 | every target is an emitted key whose `key$` cell passes the filter, with that key's emitted value |
| Run.TargetsComplete | packages/conduit-rxjs/src/run.js:33-35 | every emitted key whose cell passes the filter becomes a target |
| Run.TargetsAppend | packages/conduit-rxjs/src/run.js:33-35 | targets follow the emission's enumeration order: the targets of concatenated entries are those of each part, in turn |
| Run.TargetsDistinct | packages/conduit-rxjs/src/run.js:33-35 | distinct emitted keys give distinct targets, so each cell is pushed at most once per emission |
| Run.DeliverKeepsCells | packages/conduit-rxjs/src/run.js:36-38 | pushing never adds or removes a cell, and a cell no target names is unchanged |
| Run.DeliverStopsAtFailure | packages/conduit-rxjs/src/run.js:36-38 | once a call throws, no later target is visited |
| Run.DeliverCalls | packages/conduit-rxjs/src/run.js:36-38 | every call is `cell.next(value)` on a pushable target, in order; if nothing threw, no target's `next` was a non-function |
| Run.VariantsDifferOnCellWithoutNext | lib/run.js:38-39 | a cell without `next` is skipped by the packaged `run` but makes the older one throw |
| Run.Subscription.constructor | packages/conduit-rxjs/src/run.js:29-32 | a domain's subscription starts with no children |
| Run.Subscription.Add | packages/conduit-rxjs/src/run.js:23 | `sub.add(child)` appends the child |
| Run.SubscribeAll | packages/conduit-rxjs/src/run.js:16-25 | no domains give `null`; otherwise the first domain's subscription, with one child per later domain, in order |
| Run.RunDomains | packages/conduit-rxjs/src/run.js:8-27 | throws iff domain selection throws; `null` iff no domain; otherwise the first domain's subscription with one child per later domain, in order; the older lib/run.js:10-30 is the same with `instanceof Observable` as the reducer test |
| Run.DomainCells.constructor | packages/conduit-rxjs/src/run.js:29-31 | a domain starts with its cells, no calls, and an open subscriber |
| Run.DomainCells.Receive | packages/conduit-rxjs/src/run.js:32-39 | a closed subscriber changes nothing; otherwise a routing that throws changes nothing, and else the cells and calls are those of delivering the routed targets in order; `ok` says whether the handler threw, and a throw closes the subscriber; a flag selects the older lib/run.js:32-41, which keeps every truthy cell and calls `next` unguarded |
| Pipeline.ConstructionLastWins | packages/conduit-rxjs-react/src/connect.js:17-25 | during construction every value is written to `state` and raises `shouldUpdate`; the last value wins and nothing waits for a frame |
| Pipeline.ConstructedNeverWritesState | packages/conduit-rxjs-react/src/connect.js:19-27 | after construction, values never write `state` or `shouldUpdate` directly |
| Pipeline.FrameCoalesces | packages/conduit-rxjs-react/src/connect.js:28-39 | any number of values between two frames give exactly one `setState`, with the newest value; none give none; a second frame gives none |
| Pipeline.HeldIsLast | packages/conduit-rxjs-react/src/connect.js:31-33 | `audit` holds the newest value since the last frame |
| Pipeline.GateOneShot | packages/conduit-rxjs-react/src/connect.js:95-100 | `shouldComponentUpdate` answers the flag once and then clears it |
| Pipeline.UnsubscribedIsInert | packages/conduit-rxjs-react/src/connect.js:125 | after unsubscribing, neither values nor frames change anything |
| Pipeline.MergeState | packages/conduit-rxjs-react/src/connect.js:38 | `setState(partial)`: `null`/`undefined` keep the state, a boolean, number or string throws, and any other value merges into an object |
| Pipeline.MergeStateGet | packages/conduit-rxjs-react/src/connect.js:38 | merging an object into an object state keeps the keys of both, the partial's value winning, and gives a well-formed object again |
| Pipeline.WithoutReserved | packages/conduit-rxjs-react/src/connect.js:104 | an entry survives iff its key is neither `key` nor `ref`, which React keeps off props |
| Pipeline.WithoutReservedGet | packages/conduit-rxjs-react/src/connect.js:104 | reading `key` or `ref` from the props finds nothing; any other key reads as before |
| Pipeline.RenderPropsGet | packages/conduit-rxjs-react/src/connect.js:102-106 | `<WrappedComponent {...this.state} />` gets every key of the state but `key` and `ref`, with its value |
| Pipeline.RenderedStateIsLastHolder | packages/conduit-rxjs-react/src/connect.js:36-39 | after a sequence of object states is set, each key renders with the value of the newest state holding it, or of the initial state |
| Pipeline.SuccessiveStatesMerge | packages/conduit-rxjs-react/src/connect.js:38 | setting `{a: 1}` and then `{b: 2}` renders both `a` and `b` |
| Pipeline.RanAll | packages/conduit-rxjs-react/src/connect.js:142-145 | running a stack runs each callback once, in order |
| Connect.CallbackStack.constructor | packages/conduit-rxjs-react/src/connect.js:132-133 | a new stack is empty |
| Connect.CallbackStack.Add | packages/conduit-rxjs-react/src/connect.js:134-138 | functions are appended; anything else is ignored |
| Connect.CallbackStack.Clear | packages/conduit-rxjs-react/src/connect.js:139-141 | `clear` empties the stack without running anything |
| Connect.CallbackStack.Call | packages/conduit-rxjs-react/src/connect.js:142-145 | `call` runs exactly the stored callbacks in order and leaves the stack empty |
| Connect.LifecycleNames | packages/conduit-rxjs-react/src/connect.js:59-60 | the names are a prefix of the given or default names, as long as the function's arity allows |
| Connect.KindOf | packages/conduit-rxjs-react/src/connect.js:61-69 | `props$` asks for the props cell, the two channel names for a callback stack, each iff the name is exactly that |
| Connect.UnknownNamesAreNull | packages/conduit-rxjs-react/src/connect.js:68 | any other name is given `null` |
| Connect.GetState | packages/conduit-rxjs-react/src/connect.js:44-56 | an observable source is used as is; a function's output is used if observable, else `of(output)`; anything else gives `of({})` |
| Connect.SyncEmissions | packages/conduit-rxjs-react/src/connect.js:45-55 | while subscribing, `of(v)` delivers exactly `v`, a BehaviorSubject its current value and a Subject nothing; any other observable delivers what it emits then |
| Connect.PlainSourceRendersOnce | packages/conduit-rxjs-react/src/connect.js:53-55 | a plain source, or a function with plain output, sets the initial state once, to `{}` or the output, and asks for one render |
| Connect.GetDisplayName | packages/conduit-rxjs-react/src/connect.js:149-151 | throws iff the component is `null`/`undefined`; otherwise `displayName` if truthy, else `name` if truthy, else `'Component'`; always truthy |
| Connect.ConnectDisplayName | packages/conduit-rxjs-react/src/connect.js:128 | throws iff the component is `null`/`undefined`; otherwise the display name is `Connect(` + `String(getDisplayName(component))` + `)`, whenever that string is modelled |
| Connect.NamedFunctionDisplayName | packages/conduit-rxjs-react/src/connect.js:149-151 | a named function is displayed as `Connect(name)` |
| Connect.AnonymousFunctionDisplayName | packages/conduit-rxjs-react/src/connect.js:149-151 | an anonymous function is displayed as `Connect(Component)` |
| Connect.NumericDisplayName | packages/conduit-rxjs-react/src/connect.js:128 | a numeric `displayName` `k` gives `Connect(` + the decimal text of `k` + `)`, with a `-` for a negative `k`; `0` is falsy and gives `Connect(Component)` |
| Connect.UnnamedObjectDisplayName | packages/conduit-rxjs-react/src/connect.js:149-151 | a component object with neither `displayName` nor `name` is displayed as `Connect(Component)` |
| Connect.StringDisplayName | packages/conduit-rxjs-react/src/connect.js:128-151 | a component object whose `displayName` is a non-empty string is displayed as `Connect(` + that string + `)` |
| Connect.MissingComponentThrows | packages/conduit-rxjs-react/src/connect.js:150 | connecting `null` or `undefined` throws |
| Connect.CreateParam | packages/conduit-rxjs-react/src/connect.js:61-83 | one parameter: a fresh props cell, a fresh stack's `add`, or `null`, by its name |
| Connect.InitLifecycle | packages/conduit-rxjs-react/src/connect.js:58-71 | one argument per name, each as its name asks; the component keeps the props cell and the stack of the last name of each channel; the two stacks are distinct |
| Connect.ChannelStacks | packages/conduit-rxjs-react/src/connect.js:78-83 | each requested channel's last `add` belongs to a fresh stack, different for the two channels |
| Connect.Connect.constructor | packages/conduit-rxjs-react/src/connect.js:13-42 | the lifecycle arguments are as requested and the pipeline is in the state the synchronous emissions leave it, construction finished |
| Connect.Connect.Emit | packages/conduit-rxjs-react/src/connect.js:19-34 | a later value goes through the pipeline's `Emit` |
| Connect.Connect.FrameFire | packages/conduit-rxjs-react/src/connect.js:35-39 | a frame goes through the pipeline's `Frame`; a released value is recorded as one `setState` and merged into the state |
| Connect.Connect.Render | packages/conduit-rxjs-react/src/connect.js:102-106 | renders with the props `RenderProps` gives for the current state |
| Connect.Connect.ShouldComponentUpdate | packages/conduit-rxjs-react/src/connect.js:95-100 | returns the flag and clears it |
| Connect.Connect.ComponentDidRender | packages/conduit-rxjs-react/src/connect.js:112-116 | runs every did-render callback once, in order, and empties the stack; nothing when the channel was not requested |
| Connect.Connect.ComponentDidMount | packages/conduit-rxjs-react/src/connect.js:85-87 | the same as `componentDidRender` |
| Connect.Connect.ComponentDidUpdate | packages/conduit-rxjs-react/src/connect.js:108-110 | the same as `componentDidRender` |
| Connect.Connect.ComponentWillReceiveProps | packages/conduit-rxjs-react/src/connect.js:89-93 | new props are pushed into the props cell exactly when it is an observable with `next`; otherwise nothing changes |
| Connect.Connect.Register | packages/conduit-rxjs-react/src/connect.js:134-138 | the wrapped function's `add` appends functions to its stack only |
| Connect.Connect.ComponentWillUnmount | packages/conduit-rxjs-react/src/connect.js:118-126 | both stacks end empty, did-render callbacks are dropped without running, and the pipeline is unsubscribed |
| LegacyConnect.CallbackBuffer.constructor | connect/react.js:131-141 | a new buffer is subscribed and empty |
| LegacyConnect.CallbackBuffer.Push | connect/react.js:135 | while subscribed, a pushed value joins what is collected; afterwards it is dropped; nothing scheduled changes |
| LegacyConnect.CallbackBuffer.Trigger | connect/react.js:135-139 | a trigger schedules exactly what was collected, in order, after what is already scheduled, and empties the collection |
| LegacyConnect.CallbackBuffer.AnimationFrame | connect/react.js:139-140 | the animation frame runs exactly the scheduled callbacks, in order, and nothing else |
| LegacyConnect.CallbackBuffer.Stop | connect/react.js:131-141 | unsubscribing cancels everything scheduled, drops what was collected and stops the buffer for good |
| LegacyConnect.PropsCellsSpec | connect/react.js:68-74 | `createStreams({ props })` has exactly the key `props$`, seeded with the props |
| LegacyConnect.ChannelCellsSpec | connect/react.js:75-79 | `createStreams([name, name + 'Callback'])` has exactly `name$` and `nameCallback$` |
| LegacyConnect.CellsForKeys | connect/react.js:68-89 | one name adds `props$` or its `…Callback$` trigger to the lifecycle object and keeps the other tracked keys |
| LegacyConnect.LifecycleKeys | connect/react.js:56-67 | the lifecycle object has `props$`, seeded with the props, iff `props$` was requested, and each trigger iff its channel was |
| LegacyConnect.CreateParam | connect/react.js:59-65 | one parameter and the lifecycle object spread with that name's cells |
| LegacyConnect.InitLifecycle | connect/react.js:56-67 | arguments as requested; the lifecycle object is the spread over all names; the kept buffers exist iff their channel was requested and are distinct |
| LegacyConnect.ChannelBuffers | connect/react.js:75-89 | each requested channel's last registrar has a fresh buffer, different for the two channels |
| LegacyConnect.GetState | connect/react.js:45-55 | like the packaged `getState`, with `instanceof Observable` as the test |
| LegacyConnect.LookalikeIsRenderedAsValue | connect/react.js:46-47 | a plain object with `lift` and `subscribe` is not an instance, so it is rendered as `{}` |
| LegacyConnect.Connect.constructor | connect/react.js:20-44 | arguments and lifecycle object as requested; the pipeline is as the synchronous emissions leave it, construction finished |
| LegacyConnect.Connect.Emit | connect/react.js:24-36 | a later value goes through the pipeline's `Emit` |
| LegacyConnect.Connect.FrameFire | connect/react.js:36-41 | a frame goes through the pipeline's `Frame`; a released value is recorded as one `setState` and merged into the state |
| LegacyConnect.Connect.Render | connect/react.js:103-107 | renders with the props `RenderProps` gives for the current state |
| LegacyConnect.Connect.ShouldComponentUpdate | connect/react.js:97-102 | returns the flag and clears it |
| LegacyConnect.Connect.ComponentDidRender | connect/react.js:111-114 | when the channel was requested, the buffer schedules what it collected for the next frame; nothing runs yet |
| LegacyConnect.Connect.CallbackFrame | connect/react.js:139-140 | the animation frame runs the scheduled did-render callbacks, then the scheduled unmount callbacks, each once and in order |
| LegacyConnect.Connect.ComponentDidMount | connect/react.js:90-92 | the same as `componentDidRender` |
| LegacyConnect.Connect.ComponentDidUpdate | connect/react.js:108-110 | the same as `componentDidRender` |
| LegacyConnect.Connect.ComponentWillReceiveProps | connect/react.js:93-96 | new props are pushed into `lifecycle.props$` exactly when it exists |
| LegacyConnect.Connect.Register | connect/react.js:88 | calling a registrar pushes the callback into its buffer while that is subscribed |
| LegacyConnect.Connect.ComponentWillUnmount | connect/react.js:115-123 | as written: the did-render callbacks are discarded; the unmount callbacks are scheduled and then cancelled by the unsubscribe, so none runs; both buffers end stopped and empty, and the pipeline is unsubscribed |
| LegacyConnect.Connect.ComponentWillUnmountIntended | connect/react.js:115-123 | corrected: the collected unmount callbacks run once each, in order, before the buffers stop and the pipeline is unsubscribed |
| LegacyConnect.UnmountRunsNoCallback | connect/react.js:118-121 | what the written unmount appends runs no callback; what the intended one appends runs a callback iff it was collected |
| JsText.TrimSpec | examples/todomvc/src/App.js:158 | `trim` returns a slice of its input with only white space cut off before and after it |
| JsText.TrimEnds | examples/todomvc/src/App.js:158 | what `trim` keeps neither starts nor ends with white space |
| JsText.TrimEmpty | examples/todomvc/src/App.js:158-159 | the trimmed text is empty iff the input is all white space |
| TodoUtil.PluralizeDefault | examples/todomvc/src/util.js:20-22 | the singular exactly for 1, otherwise the singular plus "s" |
| TodoUtil.Uuid | examples/todomvc/src/util.js:24-36 | the loop builds the string turn by turn as `UuidAfter` describes it |
| TodoUtil.UuidAfterLayout | examples/todomvc/src/util.js:27-34 | after `i` turns the string has `i` digits plus its dashes, each in the place the identifier's layout gives it |
| TodoUtil.UuidFormat | examples/todomvc/src/util.js:24-36 | 36 characters, dashes at 8, 13, 18, 23, `4` at 14, one of `89ab` at 19, and elsewhere the hex digit of the random value drawn for that place |
| TodoMvc.Partition | examples/todomvc/src/App.js:84-109 | active plus completed count is the total count |
| TodoMvc.HasTodosOfKind | examples/todomvc/src/App.js:95-112 | `hasActiveTodos`/`hasCompletedTodos` hold iff some todo is active/completed |
| TodoMvc.FilteredTodos | examples/todomvc/src/App.js:115-124 | a route has a list iff it is one of the three routes |
| TodoMvc.FilteredTodosSpec | examples/todomvc/src/App.js:115-119 | the all route shows every todo, the active route exactly the active ones, the completed route exactly the completed ones |
| TodoMvc.Intents | examples/todomvc/src/App.js:154-221 | an event gives at most one intent, and none exactly for a new-todo key other than Enter or with blank text and an edit key other than Escape and Enter; Enter in the new-todo field adds the trimmed title; Escape cancels the edit; Enter or blur updates the todo; each click, change and double click gives its one intent with the event's id or checked state |
| TodoMvc.NewTodoOnlyOnEnterWithText | examples/todomvc/src/App.js:155-165 | a todo is added iff the key is Enter and the field is not all white space, with the trimmed title |
| TodoMvc.FinishEdit | examples/todomvc/src/App.js:193-210 | finishing an edit removes a blank todo and otherwise saves the trimmed title |
| TodoMvc.CompleteTodoReducer | examples/todomvc/src/App.js:236-242 | same length, ids and titles; only the todos with the id change their `completed` |
| TodoMvc.SaveTodoReducer | examples/todomvc/src/App.js:250-256 | same length, ids and flags; only the todos with the id change their title |
| TodoMvc.ToggleTodosReducer | examples/todomvc/src/App.js:257-264 | same length, ids and titles; every todo gets the new `completed` |
| TodoMvc.AddTodoSpec | examples/todomvc/src/App.js:224-228 | one new active todo at the end, the rest unchanged; counts move accordingly |
| TodoMvc.ClearCompletedSpec | examples/todomvc/src/App.js:229-235 | exactly the active todos remain, in order; clearing again changes nothing |
| TodoMvc.RemoveTodoSpec | examples/todomvc/src/App.js:243-249 | every todo with the id is dropped and every other kept |
| TodoMvc.ToggleTodosSpec | examples/todomvc/src/App.js:257-264 | after toggling all to one state, no todo of the other state remains |
| TodoMvc.AddKeepsDistinctIds | examples/todomvc/src/App.js:224-228 | adding a todo with a fresh id keeps ids distinct |
| TodoMvc.ReduceKeepsDistinctIds | examples/todomvc/src/App.js:223-285 | every reducer keeps todo ids distinct, given a fresh id for additions |
| TodoMvc.DispatchKeepsDistinctIds | examples/todomvc/src/App.js:154-221 | any event, through its intent and reducer, keeps todo ids distinct |
| TodoMvc.Select | examples/todomvc/src/App.js:307-341 | the route and the edited id pass through; `todos` is the route's filtered list; `count` is the number of all todos; `hasTodos` iff the count is positive, `hasActiveTodos`/`hasCompletedTodos` iff such a todo exists |
| TodoMvc.FooterCountsCompletedTodos | examples/todomvc/src/App.js:458-462 | as written, a single completed todo is shown as "1 item left" though none is active |
| TodoMvc.FooterCountsActiveTodos | examples/todomvc/src/App.js:91-94 | corrected footer: counts todos not completed; 0 after completing all, all after reactivating all, one more after adding |
| WordCountUtil.CallbackSet.constructor | examples/word-count/src/util.js:169-170 | a new set is empty |
| WordCountUtil.CallbackSet.Add | examples/word-count/src/util.js:171-175 | only functions are added, and one already held is not added again |
| WordCountUtil.CallbackSet.Call | examples/word-count/src/util.js:176-179 | every held callback runs once, in insertion order, and the set is emptied |
| WordCountUtil.ReduceStreams | examples/word-count/src/util.js:27-32 | an empty list gives `init` (`{}` by default), any other list an object |
| WordCountUtil.ReduceStreamsGet | examples/word-count/src/util.js:27-32 | each key of the result comes from the last element that has it, and from `init` when none has it |
| WordCountUtil.CreateStream | examples/word-count/src/util.js:185-191 | the returned `next` pushes into the returned cell |
| WordCountUtil.CreateStreamAgrees | examples/word-count/src/util.js:185-191 | the cell is the one `createStreams` makes for the same initial value; `next` pushes into it and a BehaviorSubject then replays the value |
| WordCountUtil.TapSubscribe | examples/word-count/src/util.js:39-52 | no sources: the source unchanged and nothing subscribed; otherwise the shared source, then every source, subscribed in order, or a throw iff something lacks `pipe`/`subscribe` |
| WordCountUtil.SubscribeSpec | examples/word-count/src/util.js:150-167 | an observable is subscribed alone, a list its observable items, an object its observable values, in order; `null`/`undefined` throw |
| StatusBar.CharCount | examples/word-count/src/StatusBar.js:20-22 | UTF-16 length: between the number of code points and twice it, equal to it when all are in the Basic Multilingual Plane |
| StatusBar.CharCountAppend | examples/word-count/src/StatusBar.js:20-22 | the length of a concatenation is the sum of the lengths |
| StatusBar.WordMatches | examples/word-count/src/StatusBar.js:24 | every match of `\S+` is non-empty and holds no white space |
| StatusBar.WordMatchesCount | examples/word-count/src/StatusBar.js:24 | the scanner finds exactly one match per word start (a non-space character at the start or after white space) |
| StatusBar.WordMatchesEmpty | examples/word-count/src/StatusBar.js:24 | no match iff the text is all white space |
| StatusBar.MatchAll | examples/word-count/src/StatusBar.js:24-25 | `match` gives `null` exactly when there is no match, else the matches |
| StatusBar.WordCountSpec | examples/word-count/src/StatusBar.js:23-26 | the word count is the number of word starts, and 0 iff the text is all white space, iff it trims to nothing |
| StatusBar.SentenceMatches | examples/word-count/src/StatusBar.js:28 | every match is a word character, a terminator and then white space or the end, two or three characters long |
| StatusBar.SentenceMatchesCount | examples/word-count/src/StatusBar.js:27-30 | matches never overlap: the scanner counts every position where the pattern matches |
| StatusBar.SentenceCountSpec | examples/word-count/src/StatusBar.js:27-30 | the sentence count is the number of positions where the pattern matches |
| StatusBar.SentenceEndAdds | examples/word-count/src/StatusBar.js:28 | a terminator typed after a word character at the end adds exactly one sentence |
| StatusBar.CountsOf | examples/word-count/src/StatusBar.js:18-30 | the word and sentence counts of one text are its word starts and sentence positions |
| StatusBar.Change | examples/word-count/src/StatusBar.js:41-46 | a text change makes the combination emit three times, the last with the new text's counts |
| StatusBar.Emissions | examples/word-count/src/StatusBar.js:41-46 | one emission for the first text and three per later text |
| StatusBar.EmissionsSettle | examples/word-count/src/StatusBar.js:41-46 | after each text the newest emission holds that text's three counts |
| StatusBar.ChangeGlitch | examples/word-count/src/StatusBar.js:41-46 | the first emission of a change agrees with the new text iff the word and sentence counts did not change, the second iff the sentence count did not |
| StatusBar.ToProps | examples/word-count/src/StatusBar.js:43-45 | the props object has exactly the keys `charCount`, `wordCount`, `sentenceCount`, in that order, each holding its count |
| StatusBar.RendersSettledCounts | examples/word-count/src/StatusBar.js:13 | through `connect`, a change gives one `setState` with the new text's counts; the mixed counts are never rendered |
| StatusBar.Render | examples/word-count/src/StatusBar.js:49-64 | the items for characters, words and sentences, in that order, each rendered by `RenderItem` from its count |
| StatusBar.RenderItemLabel | examples/word-count/src/StatusBar.js:66-76 | an item's noun is singular exactly for 1 and takes an "s" otherwise |

## Left out

- RxJS, React and the DOM. Streams are replaced by what flows through them (cells, emissions and calls). React's scheduling is explicit method calls, and the animation frame is the event `FrameFire`.
- `getParameterNames` (util/getParameterNames.js) is not part of this model. The older `connect` takes the wrapped function's parameter names as an input.
- The older `connect` imports `lib/bindNotification.js`, which is not part of this model. Its registrar is modelled as a function that pushes a callback into the channel's buffer, like `bindNext` on a subject.
- BindNotification.FunctionName: identifiers are ASCII letters, digits, `$` and `_`, plus any non-white-space character beyond ASCII. So Unicode identifier classes are not checked exactly, and neither are `\u` escapes or text that still parses after the splice (a comment, or a name followed by `(`). Each of these is treated as a plain name or as a SyntaxError.
- LegacyConnect.Connect.CallbackFrame: the animation frame is one event that serves both buffers. Separate frames, and the order of the scheduler's actions among other frame callbacks, are not modelled.
- LegacyConnect.Connect.ComponentWillUnmount: rests on RxJS 5 cancelling actions that `observeOn(animationFrame)` scheduled once the subscription is unsubscribed. The model follows that reading, so the unmount callbacks never run (see Findings).
- Connect.CallbackStack.Call: callbacks are inert values. A callback that throws would end `forEach` before `clear()` and keep the whole stack. A callback added while `call` runs is not visited by `Array.forEach` and is then dropped by `clear()`. Neither is modelled.
- Connect.Connect.ComponentWillUnmount: an unmount callback that throws would skip `this.subscription.unsubscribe()`. This is not modelled, because callbacks cannot throw here.
- WordCountUtil.CallbackSet.Call: a throwing callback, and an entry added during `Set.forEach` (which that loop does visit), are not modelled.
- Connect.Connect.ComponentWillReceiveProps: the props cell is a value. The wrapped function's `props$` argument keeps the cell as it was when passed, while in the source both are one `BehaviorSubject` that sees every pushed props value.
- Run.Store: cells are values, so one subject held under two keys of `values` is two cells. A push through one key updates only that key's copy.
- Run.DomainCells.Receive: inherits `Store`'s reading. When two keys hold one subject, a push through one key leaves the other key's cell as it was, though in the source both keys see the new value. A throwing handler closes the subscriber, as `SafeSubscriber` does in RxJS 5 and 6. RxJS 7 only reports the error and keeps the subscriber open, so under RxJS 7 later emissions would still be routed; the model follows the older behaviour.
- Pipeline.MergeState: a function passed to `setState` (an updater) is not called; a function partial merges no keys. The own enumerable properties of an observable partial are not modelled (it merges none).
- Pipeline.AfterSetState: a `setState` that throws keeps the state; what RxJS then does with the error inside the subscriber is not modelled. React's batching and deferral of `setState` are not modelled either: each released value is applied at once.
- Pipeline.RenderProps: React's development-only `__self` and `__source` props are not modelled. Neither is `WrappedComponent.defaultProps`: `createElement` replaces a prop whose value is `undefined` with the default, so `RenderPropsGet` and `RenderedStateIsLastHolder` hold as stated only for a component without `defaultProps`.
- Connect.GetDisplayName: a function value carries only its name and arity, so a function component's static `displayName` cannot be expressed; the lemmas about functions cover functions without one.
- MergeStreams.ObjectPrototypeMember: the inherited names are those of a standard `Object.prototype`. A prototype that other code has extended is not modelled.
- Values.ToJsString: `String(v)` is `None` for functions (their source text), arrays (their joined elements) and objects with their own `toString` or `valueOf`. `ConnectDisplayName` is then `None` too.
- Values.EnumerableEntries: only own data properties are modelled. There are no getters, symbols or non-enumerable properties.
- `debug`, `shareStream`, `distinctAndShare`, `distinctUntilObjectChanged`: the `JSON.stringify` comparisons and the replay sharing are not modelled. The to-do selector is computed from the state as if every derived stream had emitted.
- The word-count example's DOM helpers (`dispatch`, `fromAttribute`, `fromEvents`, `fromProperty`, `renderComponent`, `animationFrame`), its App.js, and the timer examples, entry points and webpack configurations. They are I/O wiring.
- The to-do example's router, `localStorage` writes, the `tap` side effects on input fields, the focus subscription registered through `componentDidRender`/`componentWillUnmount`, and the JSX.
- TodoMvc.Select: defined for the three routes only. For any other route `todoRoutes[route]` is `undefined` and `switchMap` errors, which `FilteredTodos` reports as `None`.
- `Math.random` in `uuid`: the 32 drawn nibbles are an input.
- StatusBar.RenderItem: `toLocaleString` is written as plain decimal digits. Locale grouping separators are not modelled.
- StatusBar.Emissions: it assumes `text$` is a subject that notifies the three derived streams in subscription order, which is how the word-count app creates it.
- WordCountUtil.CallbackSet: `Set` membership is modelled by value equality of function values, not by object identity.
- WordCountUtil.TapSubscribe: when a later source lacks `subscribe`, the subscriptions already made before the throw are not reported.
- Error and completion notifications, and concurrency between streams.

## Findings

| source | as written | input that shows it | evidently intended | confidence | as-written member | corrected member |
|---|---|---|---|---|---|---|
| examples/todomvc/src/App.js:458-462 | the footer's "items left" shows `count`, which App.js:69-78 derives as the number of all todos | one todo, completed: the footer reads "1 item left" | the number of active todos, `activeCount$` (App.js:91-94), which is derived but never selected | not executed | TodoMvc.FooterCountsCompletedTodos | TodoMvc.FooterCountsActiveTodos |
| connect/react.js:115-123 | `componentWillUnmountCallback$.next()` only schedules the unmount callbacks on `animationFrame` (react.js:131-141), and the unsubscribe on line 121 cancels them straight away | any callback registered through `componentWillUnmount`: it never runs | the callbacks run before the component goes away, as `componentDidRender`'s do after each render | not executed | LegacyConnect.Connect.ComponentWillUnmount | LegacyConnect.Connect.ComponentWillUnmountIntended |
| packages/conduit-rxjs/src/bindNotification.js:17-20 | the list branch calls `createBindNotification(source, …)` for each element, passing the whole list instead of `item` | a list of two subjects: the result is `[null, null]` | each element bound on its own, as `createHandlers` does for lists | not executed | BindNotification.ListOfSubjectsBindsNothing | BindNotification.IntendedListBindsEachElement |
