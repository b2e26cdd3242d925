/**
  `bindNotification` (packages/conduit-rxjs/src/bindNotification.js):
  functions bound to one notification method (`next`, `error` or
  `complete`) of observable instances.

  The original names each function by splicing the name into the source
  text of a factory, `.replace('next', fnName)`, and evaluating that text
  with `new Function`. The model keeps the spliced name as the `name` field
  and gives `Throws` where the evaluation raises a SyntaxError.
 */
module BindNotification {
  import opened JsObject
  import opened JsText
  import opened Values
  import opened CreateHandlers

  /** Prepends `p` to a spliced text, if there is one. */
  function Prefix(p: string, rest: Option<string>): Option<string>
  {
    match rest
    case None => None
    case Some(t) => Some(p + t)
  }

  /**
    The text `.replace('next', fnName)` puts where `next` stood: `$$` gives
    `$` and `$&` the matched `next`; every other `$` is kept. `$\`` and `$'`
    splice in the factory's text before or after the match, which leaves
    its braces unbalanced: `None`, a SyntaxError once evaluated.
   */
  function Splice(fnName: string): (r: Option<string>)
    ensures (forall i :: 0 <= i < |fnName| ==> fnName[i] != '$') ==> r == Some(fnName)
    decreases |fnName|
  {
    if fnName == [] then Some([])
    else if |fnName| >= 2 && fnName[0] == '$' && (fnName[1] == '`' || fnName[1] == '\'') then None
    else if |fnName| >= 2 && fnName[0] == '$' && fnName[1] == '$' then Prefix("$", Splice(fnName[2..]))
    else if |fnName| >= 2 && fnName[0] == '$' && fnName[1] == '&' then Prefix("next", Splice(fnName[2..]))
    else
      var r := Prefix([fnName[0]], Splice(fnName[1..]));
      assert (forall i :: 0 <= i < |fnName| ==> fnName[i] != '$') ==> r == Some(fnName) by {
        if forall i :: 0 <= i < |fnName| ==> fnName[i] != '$' {
          assert forall i :: 0 <= i < |fnName[1..]| ==> fnName[1..][i] == fnName[i + 1];
          assert fnName == [fnName[0]] + fnName[1..];
        }
      }
      r
  }

  /** A character that may start an identifier: ASCII letters, `$`, `_`, and code points beyond ASCII other than white space. */
  predicate IdentifierStart(c: char)
  {
    ('a' <= c <= 'z') || ('A' <= c <= 'Z') || c == '$' || c == '_' || (c as int > 0x7F && !IsWhiteSpace(c))
  }

  predicate IdentifierPart(c: char)
  {
    IdentifierStart(c) || ('0' <= c <= '9')
  }

  predicate IsIdentifier(s: string)
  {
    s != [] && IdentifierStart(s[0]) && forall i :: 1 <= i < |s| ==> IdentifierPart(s[i])
  }

  /** The reserved words that cannot name a function expression in non-strict code. */
  const ReservedWords: set<string> := {
    "break", "case", "catch", "class", "const", "continue", "debugger", "default", "delete",
    "do", "else", "enum", "export", "extends", "false", "finally", "for", "function", "if",
    "import", "in", "instanceof", "new", "null", "return", "super", "switch", "this", "throw",
    "true", "try", "typeof", "var", "void", "while", "with"}

  /**
    The name `function <fnName> (value) { … }` ends up with, or `None` when
    that text is a SyntaxError. White space around the name is allowed, and
    nothing at all gives an anonymous function.
   */
  function FunctionName(fnName: string): (r: Option<string>)
    ensures r.Some? ==> r.value == [] || (IsIdentifier(r.value) && r.value !in ReservedWords)
  {
    match Splice(fnName)
    case None => None
    case Some(text) =>
      var name := Trim(text);
      if name == [] || (IsIdentifier(name) && name !in ReservedWords) then Some(name) else None
  }

  lemma TrimStartKeeps(s: string)
    requires s != [] && !IsWhiteSpace(s[0])
    ensures TrimStart(s) == s
  {
  }

  lemma TrimEndKeeps(s: string)
    requires s != [] && !IsWhiteSpace(s[|s| - 1])
    ensures TrimEnd(s) == s
  {
  }

  /** The name asked for, `fnName = notification` when none is given. */
  function RequestedName(n: Notification, fnName: Option<string>): string
  {
    match fnName
    case Some(name) => name
    case None => NotificationName(n)
  }

  /** A plain identifier that is not reserved names the function as it is. */
  lemma PlainName(name: string)
    requires IsIdentifier(name) && name !in ReservedWords
    requires forall i :: 0 <= i < |name| ==> name[i] != '$'
    ensures FunctionName(name) == Some(name)
  {
    assert Splice(name) == Some(name);
    TrimStartKeeps(name);
    TrimEndKeeps(name);
  }

  /** Text the splice keeps, and that is neither empty nor an identifier, is a SyntaxError. */
  lemma BadName(name: string)
    requires name != [] && !IsWhiteSpace(name[0]) && !IsWhiteSpace(name[|name| - 1])
    requires forall i :: 0 <= i < |name| ==> name[i] != '$'
    requires !IsIdentifier(name) || name in ReservedWords
    ensures FunctionName(name) == None
  {
    TrimStartKeeps(name);
    TrimEndKeeps(name);
  }

  /** The default names `next`, `error` and `complete` are valid function names. */
  lemma DefaultNamesAreValid(n: Notification)
    ensures FunctionName(RequestedName(n, None)) == Some(NotificationName(n))
  {
    var name := NotificationName(n);
    match n
    case Next => assert name == "next"; PlainName(name);
    case Error => assert name == "error"; PlainName(name);
    case Complete => assert name == "complete"; PlainName(name);
  }

  /**
    Keys that break the synthesised source text: a hyphen, a leading digit,
    a reserved word, and `$'`, which splices in the rest of the factory's
    text.
   */
  lemma RejectedNames(key: string)
    requires key in {"my-key", "0", "class", "a$'"}
    ensures FunctionName(key) == None
  {
    if key == "my-key" {
      assert key[2] == '-';
      BadName(key);
    } else if key == "a$'" {
      assert Splice(key) == None by { assert key[1..] == "$'"; }
    } else {
      BadName(key);
    }
  }

  /** No name at all gives an anonymous function. */
  lemma EmptyNameIsAnonymous()
    ensures FunctionName("") == Some("")
  {
  }

  /** `$&` stands for the matched `next`: a plain name followed by `$&` names the function with `next` appended. */
  lemma MatchPatternSplicesNext(name: string)
    requires IsIdentifier(name) && forall i :: 0 <= i < |name| ==> name[i] != '$'
    ensures FunctionName(name + "$&") == Some(name + "next")
  {
    SpliceMatch(name);
    var text := name + "next";
    assert IsIdentifier(text) by {
      forall i | 1 <= i < |text| ensures IdentifierPart(text[i]) {
        if i < |name| { assert text[i] == name[i]; } else { assert text[i] == "next"[i - |name|]; }
      }
    }
    assert text !in ReservedWords by {
      assert text[|text| - 4..] == "next";
    }
    TrimStartKeeps(text);
    TrimEndKeeps(text);
  }

  lemma {:induction false} SpliceMatch(name: string)
    requires forall i :: 0 <= i < |name| ==> name[i] != '$'
    ensures Splice(name + "$&") == Some(name + "next")
  {
    if name == [] {
      assert name + "$&" == "$&" && name + "next" == "next";
      assert "$&"[2..] == [];
      assert Splice([]) == Some([]) && "next" + [] == "next";
    } else {
      assert (name + "$&")[1..] == name[1..] + "$&";
      assert (name + "$&")[0] == name[0];
      assert forall i :: 0 <= i < |name[1..]| ==> name[1..][i] == name[i + 1];
      SpliceMatch(name[1..]);
      assert [name[0]] + (name[1..] + "next") == name + "next";
    }
  }

  /** The source has the method, so `createBindNotification` goes on to evaluate the synthesised text. */
  predicate Binds(source: Value, n: Notification)
  {
    IsInstance(source) && HasNotification(source, n)
  }

  /**
    `createBindNotification(source, notification, fnName = notification)`:
    `null` unless `source` is an `Observable` instance that has the method;
    a SyntaxError when the name does not fit the synthesised text.
   */
  function CreateBindNotification(source: Value, n: Notification, fnName: Option<string>): (f: Outcome<Option<Bound>>)
    ensures f == Done(None) <==> !Binds(source, n)
    ensures f.Throws? <==> Binds(source, n) && FunctionName(RequestedName(n, fnName)).None?
    ensures f.Done? && f.value.Some? ==>
              f.value.value == Bound(source, n, FunctionName(RequestedName(n, fnName)).value)
  {
    if !IsInstance(source) then Done(None)
    else if !HasNotification(source, n) then Done(None)
    else match FunctionName(RequestedName(n, fnName))
      case None => Throws
      case Some(name) => Done(Some(Bound(source, n, name)))
  }

  /**
    One step of the object `reduce` once no entry throws: the function for
    `item`, named after the renamed key, or `null`.
   */
  function BindEntry(n: Notification, newKey: string, item: Value): (f: Option<Bound>)
    ensures f.Some? <==> Binds(item, n) && FunctionName(newKey).Some?
    ensures f.Some? ==> f.value == Bound(item, n, FunctionName(newKey).value)
  {
    match CreateBindNotification(item, n, Some(newKey))
    case Done(f) => f
    case Throws => None
  }

  /** The binder used for an object entry. */
  function BinderFor(n: Notification): (string, Value) -> Option<Bound>
  {
    (newKey: string, item: Value) => BindEntry(n, newKey, item)
  }

  /** Some entry of the object makes `createBindNotification` throw. */
  predicate EntryThrows(fields: Obj<Value>, n: Notification)
  {
    exists i :: 0 <= i < |fields| && CreateBindNotification(fields[i].1, n, Some(KeyFromStreamKey(fields[i].0))).Throws?
  }

  /** `bindNotification(source, notification, fnName)` */
  function BindNotification(source: Value, n: Notification, fnName: Option<string>): (r: Outcome<Handlers>)
    ensures IsInstance(source) ==>
              && (r.Throws? <==> CreateBindNotification(source, n, fnName).Throws?)
              && (r.Done? ==> r.value == Single(CreateBindNotification(source, n, fnName).value))
    ensures source.Arr? ==>
              r.Done? && r.value.List? && |r.value.handlers| == |source.items|
              && forall i :: 0 <= i < |source.items| ==> r.value.handlers[i].None?
    ensures r.Throws? <==>
              || source == Null || source == Undefined
              || (IsInstance(source) && Binds(source, n) && FunctionName(RequestedName(n, fnName)).None?)
              || (source.Rec? && EntryThrows(source.fields, n))
  {
    match source
    case Stream(_) =>
      (match CreateBindNotification(source, n, fnName)
       case Throws => Throws
       case Done(f) => Done(Single(f)))
    // Each element's binding is handed the whole list, which is not an Observable.
    case Arr(items) =>
      var f := CreateBindNotification(source, n, fnName);
      assert f == Done(None);
      Done(List(seq(|items|, i requires 0 <= i < |items| => f.value)))
    // A throw at any key ends the `reduce`; otherwise keys are visited in `Object.keys` order.
    case Rec(fields) =>
      if EntryThrows(fields, n) then Throws else Done(Named(Collect(OwnOrder(fields), BinderFor(n))))
    case Null => Throws
    case Undefined => Throws
    case _ => Done(Named([]))  // a primitive has no Observable property
  }

  function BindNext(source: Value, fnName: Option<string>): Outcome<Handlers>
  {
    BindNotification(source, Next, fnName)
  }

  function BindError(source: Value, fnName: Option<string>): Outcome<Handlers>
  {
    BindNotification(source, Error, fnName)
  }

  function BindComplete(source: Value, fnName: Option<string>): Outcome<Handlers>
  {
    BindNotification(source, Complete, fnName)
  }

  /** Every function a binder returns is bound to the given notification. */
  ghost predicate AllBoundTo(r: Handlers, n: Notification)
  {
    match r
    case Single(f) => f.Some? ==> f.value.notification == n
    case List(fs) => forall i :: 0 <= i < |fs| && fs[i].Some? ==> fs[i].value.notification == n
    case Named(named) => forall k :: Has(named, k) ==> Get(named, k).value.notification == n
  }

  /** `bindNext`, `bindError` and `bindComplete` fix the notification to `next`, `error` and `complete`. */
  lemma BindersFixNotification(source: Value, fnName: Option<string>)
    ensures BindNext(source, fnName).Done? ==> AllBoundTo(BindNext(source, fnName).value, Next)
    ensures BindError(source, fnName).Done? ==> AllBoundTo(BindError(source, fnName).value, Error)
    ensures BindComplete(source, fnName).Done? ==> AllBoundTo(BindComplete(source, fnName).value, Complete)
  {
    if source.Rec? {
      var entries := OwnOrder(source.fields);
      forall n: Notification, k | Has(Collect(entries, BinderFor(n)), k)
        ensures Get(Collect(entries, BinderFor(n)), k).value.notification == n
      {
        CollectIsLastBinding(entries, BinderFor(n), k);
        LastBindingKey(entries, BinderFor(n), k);
      }
    }
  }

  /**
    Object input: the `reduce` throws exactly when some entry is an
    Observable instance with the method whose renamed key does not fit the
    synthesised text.
   */
  lemma ObjectInputThrows(fields: Obj<Value>, n: Notification, fnName: Option<string>)
    ensures BindNotification(Rec(fields), n, fnName).Throws? <==>
              exists i :: 0 <= i < |fields| && Binds(fields[i].1, n)
                       && FunctionName(KeyFromStreamKey(fields[i].0)).None?
  {
    assert forall i :: 0 <= i < |fields| ==>
      (CreateBindNotification(fields[i].1, n, Some(KeyFromStreamKey(fields[i].0))).Throws? <==>
        Binds(fields[i].1, n) && FunctionName(KeyFromStreamKey(fields[i].0)).None?);
  }

  /**
    Object input that does not throw: keys lose one trailing `$`; an entry
    is kept exactly when it is an Observable instance with the method, and
    its function forwards to such an entry and is named after the renamed
    key.
   */
  lemma ObjectInputBindings(fields: Obj<Value>, n: Notification, fnName: Option<string>, name: string)
    requires BindNotification(Rec(fields), n, fnName).Done?
    ensures var fs := BindNotification(Rec(fields), n, fnName).value.named;
      && WellFormed(fs)
      && (Has(fs, name) <==>
            exists i :: 0 <= i < |fields| && KeyFromStreamKey(fields[i].0) == name && Binds(fields[i].1, n))
      && (Has(fs, name) ==>
            && FunctionName(name).Some?
            && exists i :: 0 <= i < |fields| && KeyFromStreamKey(fields[i].0) == name
                        && Get(fs, name).value == Bound(fields[i].1, n, FunctionName(name).value))
  {
    assert BindNotification(Rec(fields), n, fnName).value.named == Collect(OwnOrder(fields), BinderFor(n));
    CollectBindings(fields, n, name);
  }

  /** `ObjectInputBindings` on the fold itself. */
  lemma CollectBindings(fields: Obj<Value>, n: Notification, name: string)
    requires !EntryThrows(fields, n)
    ensures var fs := Collect(OwnOrder(fields), BinderFor(n));
      && WellFormed(fs)
      && (Has(fs, name) <==>
            exists i :: 0 <= i < |fields| && KeyFromStreamKey(fields[i].0) == name && Binds(fields[i].1, n))
      && (Has(fs, name) ==>
            && FunctionName(name).Some?
            && exists i :: 0 <= i < |fields| && KeyFromStreamKey(fields[i].0) == name
                        && Get(fs, name).value == Bound(fields[i].1, n, FunctionName(name).value))
  {
    var entries := OwnOrder(fields);
    OwnOrderPermutes(fields);
    var bind := BinderFor(n);
    var fs := Collect(entries, bind);
    CollectIsLastBinding(entries, bind, name);
    LastBindingExists(entries, bind, name);
    if exists i :: 0 <= i < |fields| && KeyFromStreamKey(fields[i].0) == name && Binds(fields[i].1, n) {
      var i :| 0 <= i < |fields| && KeyFromStreamKey(fields[i].0) == name && Binds(fields[i].1, n);
      BoundEntry(fields, entries, n, i);
    }
    if Has(fs, name) {
      LastBindingKey(entries, bind, name);
      var j :| 0 <= j < |entries| && KeyFromStreamKey(entries[j].0) == name
               && bind(name, entries[j].1) == LastBinding(entries, bind, name);
      EntryOfBinding(fields, entries, n, j);
    }
  }

  /** An entry of the object that binds is an entry of the enumeration that the binder accepts. */
  lemma BoundEntry(fields: Obj<Value>, entries: Obj<Value>, n: Notification, i: nat)
    requires forall x :: x in entries <==> x in fields
    requires !EntryThrows(fields, n)
    requires i < |fields| && Binds(fields[i].1, n)
    ensures exists j :: 0 <= j < |entries| && KeyFromStreamKey(entries[j].0) == KeyFromStreamKey(fields[i].0)
                     && BinderFor(n)(KeyFromStreamKey(fields[i].0), entries[j].1).Some?
  {
    assert fields[i] in entries;
    var j :| 0 <= j < |entries| && entries[j] == fields[i];
    assert CreateBindNotification(fields[i].1, n, Some(KeyFromStreamKey(fields[i].0))).Done?;
  }

  /** The binding found for an enumerated entry comes from an entry of the object, and names the function. */
  lemma EntryOfBinding(fields: Obj<Value>, entries: Obj<Value>, n: Notification, j: nat)
    requires forall x :: x in entries <==> x in fields
    requires !EntryThrows(fields, n)
    requires j < |entries| && BinderFor(n)(KeyFromStreamKey(entries[j].0), entries[j].1).Some?
    ensures var name := KeyFromStreamKey(entries[j].0);
      && FunctionName(name).Some?
      && exists i :: 0 <= i < |fields| && KeyFromStreamKey(fields[i].0) == name && Binds(fields[i].1, n)
                  && BinderFor(n)(name, entries[j].1).value == Bound(fields[i].1, n, FunctionName(name).value)
  {
    assert entries[j] in fields;
    var i :| 0 <= i < |fields| && fields[i] == entries[j];
    assert CreateBindNotification(fields[i].1, n, Some(KeyFromStreamKey(fields[i].0))).Done?;
  }

  /** The bound function hands `value` to `source[notification]`. */
  lemma BoundForwards(source: Value, n: Notification, v: Value)
    requires IsInstance(source) && HasNotification(source, n)
    ensures BindNotification(source, n, None) == Done(Single(Some(Bound(source, n, NotificationName(n)))))
    ensures Invoke(Bound(source, n, NotificationName(n)), v) == Done(Call(source, n, v))
  {
    DefaultNamesAreValid(n);
  }

  /**
    Calling a function of object input: it throws exactly when its name is
    `source` or `notification`, and otherwise forwards to an entry whose
    key renames to its own key.
   */
  lemma ObjectBindingCall(fields: Obj<Value>, n: Notification, fnName: Option<string>, fs: Obj<Bound>, name: string, v: Value)
    requires BindNotification(Rec(fields), n, fnName) == Done(Named(fs))
    requires Has(fs, name)
    ensures var f := Get(fs, name).value;
      && FunctionName(name).Some?
      && (Invoke(f, v).Throws? <==> ShadowsFactoryParameter(FunctionName(name).value))
      && (Invoke(f, v).Done? ==>
            exists i :: 0 <= i < |fields| && KeyFromStreamKey(fields[i].0) == name
                     && Invoke(f, v).value == Call(fields[i].1, n, v))
  {
    ObjectInputBindings(fields, n, fnName, name);
    var i :| 0 <= i < |fields| && KeyFromStreamKey(fields[i].0) == name
             && Get(fs, name).value == Bound(fields[i].1, n, FunctionName(name).value);
    var f := Get(fs, name).value;
    if Invoke(f, v).Done? {
      assert Invoke(f, v).value == Call(fields[i].1, n, v);
    }
  }

  /**
    A subject under the key `source` is bound to a function named `source`,
    which throws when called instead of forwarding (a key `source$` is
    renamed to the same name; see `ObjectBindingCall`).
   */
  lemma SourceKeyBindsThrowingFunction(v: Value)
    ensures BindNotification(Rec([("source", Stream(Pure))]), Next, None) ==
              Done(Named([("source", Bound(Stream(Pure), Next, "source"))]))
    ensures Invoke(Bound(Stream(Pure), Next, "source"), v) == Throws
  {
    SourceEntryBinds();
    SourceEntryCollects();
    ObjectInputCollects([("source", Stream(Pure))], Next, None);
  }

  /** Object input that no entry makes throw is the fold of the binder over the enumerated entries. */
  lemma ObjectInputCollects(fields: Obj<Value>, n: Notification, fnName: Option<string>)
    requires !EntryThrows(fields, n)
    ensures BindNotification(Rec(fields), n, fnName) == Done(Named(Collect(OwnOrder(fields), BinderFor(n))))
  {
  }

  lemma SourceEntryCollects()
    ensures Collect(OwnOrder([("source", Stream(Pure))]), BinderFor(Next)) == [("source", Bound(Stream(Pure), Next, "source"))]
  {
    var fields := [("source", Stream(Pure))];
    var f := Bound(Stream(Pure), Next, "source");
    var bind := BinderFor(Next);
    SourceKeyIsKept();
    SourceBinder();
    assert !IsArrayIndex(fields[0].0);
    OwnOrderNoIndex(fields);
    assert fields[..|fields| - 1] == [];
    assert Collect(fields[..|fields| - 1], bind) == [];
    assert bind("source", Stream(Pure)) == Some(f);
    assert Collect(fields, bind) == Put([], "source", f);
  }

  /** The one entry `source: subject` does not throw. */
  lemma SourceEntryBinds()
    ensures !EntryThrows([("source", Stream(Pure))], Next)
  {
    var fields := [("source", Stream(Pure))];
    SourceKeyIsKept();
    SourceSubjectBinds();
    assert fields[0] == ("source", Stream(Pure));
  }

  /** The binder gives the entry `source: subject` a function named `source`. */
  lemma SourceBinder()
    ensures BinderFor(Next)("source", Stream(Pure)) == Some(Bound(Stream(Pure), Next, "source"))
  {
    SourceSubjectBinds();
  }

  lemma SourceKeyIsKept()
    ensures KeyFromStreamKey("source") == "source"
  {
    var key := "source";
    assert key[|key| - 1] == 'e';
  }

  lemma SourceSubjectBinds()
    ensures CreateBindNotification(Stream(Pure), Next, Some("source")) == Done(Some(Bound(Stream(Pure), Next, "source")))
  {
    SourceNameIsKept();
  }

  /** `bindNext(subject$, 'notification')` gives a function that throws when called. */
  lemma NotificationNameThrowsOnCall(v: Value)
    ensures BindNotification(Stream(Pure), Next, Some("notification")) ==
              Done(Single(Some(Bound(Stream(Pure), Next, "notification"))))
    ensures Invoke(Bound(Stream(Pure), Next, "notification"), v) == Throws
  {
    NotificationNameIsKept();
    assert CreateBindNotification(Stream(Pure), Next, Some("notification")) ==
             Done(Some(Bound(Stream(Pure), Next, "notification")));
  }

  lemma NotificationNameIsKept()
    ensures FunctionName("notification") == Some("notification")
  {
    PlainName("notification");
  }

  lemma SourceNameIsKept()
    ensures FunctionName("source") == Some("source")
  {
    PlainName("source");
  }

  /**
    A list of subjects as written: no element is bound, because each
    element's binding is asked about the list rather than the element.
   */
  lemma ListOfSubjectsBindsNothing(v: Value)
    ensures var r := BindNotification(Arr([Stream(Pure), Stream(Replaying(v))]), Next, None);
      && r.Done? && r.value.List? && r.value.handlers == [None, None]
  {
    var r := BindNotification(Arr([Stream(Pure), Stream(Replaying(v))]), Next, None);
    assert r.value.handlers[0].None? && r.value.handlers[1].None?;
  }

  /**
    The list branch as intended: each element is bound on its own, and a
    throw for any element ends the `map`.
   */
  function BindList(items: seq<Value>, n: Notification, fnName: Option<string>): (fs: Outcome<seq<Option<Bound>>>)
    ensures fs.Throws? <==> exists i :: 0 <= i < |items| && CreateBindNotification(items[i], n, fnName).Throws?
    ensures fs.Done? ==>
              && |fs.value| == |items|
              && forall i :: 0 <= i < |items| ==> Done(fs.value[i]) == CreateBindNotification(items[i], n, fnName)
  {
    if exists i :: 0 <= i < |items| && CreateBindNotification(items[i], n, fnName).Throws? then Throws
    else Done(seq(|items|, i requires 0 <= i < |items| => CreateBindNotification(items[i], n, fnName).value))
  }

  /** `bindNotification` with the list branch binding each element. */
  function BindNotificationIntended(source: Value, n: Notification, fnName: Option<string>): (r: Outcome<Handlers>)
    ensures !source.Arr? ==> r == BindNotification(source, n, fnName)
  {
    if source.Arr? then
      match BindList(source.items, n, fnName)
      case Throws => Throws
      case Done(fs) => Done(List(fs))
    else BindNotification(source, n, fnName)
  }

  /**
    With the intended list branch and a name that fits, an element gets a
    function exactly when it is an Observable instance with the method, and
    that function forwards to the element itself; with a name that does
    not fit, the call throws exactly when some element would be bound.
   */
  lemma IntendedListBindsEachElement(items: seq<Value>, n: Notification, fnName: Option<string>, i: nat, v: Value)
    requires i < |items|
    ensures var r := BindNotificationIntended(Arr(items), n, fnName);
      FunctionName(RequestedName(n, fnName)).Some? ==>
      && r.Done? && r.value.List? && |r.value.handlers| == |items|
      && (r.value.handlers[i].Some? <==> Binds(items[i], n))
      && (r.value.handlers[i].Some? ==>
            Invoke(r.value.handlers[i].value, v) ==
              if ShadowsFactoryParameter(FunctionName(RequestedName(n, fnName)).value) then Throws
              else Done(Call(items[i], n, v)))
    ensures var r := BindNotificationIntended(Arr(items), n, fnName);
      FunctionName(RequestedName(n, fnName)).None? ==>
      (r.Throws? <==> exists j :: 0 <= j < |items| && Binds(items[j], n))
  {
  }
}
