/**
  `mergeStreams` (packages/conduit-rxjs/src/mergeStreams.js): groups the
  entries of several stream mappings by key, then passes a lone
  contributor through, merges several observable ones, and drops a key
  whose several contributors are not all observable. A key inherited from
  `Object.prototype` makes the grouping throw.
 */
module MergeStreams {
  import opened JsObject
  import opened Values
  import CreateStreams

  /**
    The names every plain object inherits from `Object.prototype`. Read from
    a grouping that does not own them, they give a method (or, under
    `__proto__`, the prototype itself): not `undefined`, and not iterable.
   */
  predicate ObjectPrototypeMember(key: string)
  {
    key in CreateStreams.ObjectMethods || key in {"constructor", "toString", "toLocaleString", "__proto__"}
  }

  /** A stream set holds a key that names an `Object.prototype` member. */
  predicate HoldsPrototypeName(streamSet: Obj<Value>)
  {
    exists i :: 0 <= i < |streamSet| && ObjectPrototypeMember(streamSet[i].0)
  }

  /**
    The inner reduce over one stream set. Each key's existing group is read
    from `acc`, the grouping as it stood before this set, and the extended
    group is stored into the object being built. A key that `acc` does not
    own but inherits makes the spread `[ ...b$, a$ ]` throw a TypeError.
   */
  function GroupSet(acc: Obj<seq<Value>>, streamSet: Obj<Value>): Outcome<Obj<seq<Value>>>
  {
    if streamSet == [] then Done(acc)
    else
      var (key, a) := streamSet[|streamSet| - 1];
      match GroupSet(acc, streamSet[..|streamSet| - 1])
      case Throws => Throws
      case Done(streams) =>
        var b := Get(acc, key);
        if b.None? && ObjectPrototypeMember(key) then Throws
        else Done(Put(streams, key, if b.None? then [a] else b.value + [a]))
  }

  /** The outer reduce: every stream set grouped in argument order, starting from `{}`. */
  function Group(streamSets: seq<Obj<Value>>): Outcome<Obj<seq<Value>>>
  {
    if streamSets == [] then Done([])
    else
      match Group(streamSets[..|streamSets| - 1])
      case Throws => Throws
      case Done(acc) => GroupSet(acc, streamSets[|streamSets| - 1])
  }

  /** Reference for the grouping: the values stored under `key`, in the order of the stream sets. */
  function Contributors(streamSets: seq<Obj<Value>>, key: string): seq<Value>
  {
    if streamSets == [] then []
    else
      var last := streamSets[|streamSets| - 1];
      Contributors(streamSets[..|streamSets| - 1], key) + (if Has(last, key) then [Get(last, key).value] else [])
  }

  predicate AllObservable(streams: seq<Value>)
  {
    forall i :: 0 <= i < |streams| ==> IsObservable(streams[i])
  }

  /** What one group becomes: kept as is, merged, or dropped (`None`). */
  function Resolve(streams: seq<Value>): Option<Value>
  {
    if |streams| == 1 then Some(streams[0])
    else if !AllObservable(streams) then None
    else Some(Stream(Derived(Merge, streams)))
  }

  /** The second reduce, over the grouped keys. */
  function Finalize(groups: Obj<seq<Value>>): Obj<Value>
  {
    if groups == [] then []
    else
      var acc := Finalize(groups[..|groups| - 1]);
      var (key, streams) := groups[|groups| - 1];
      match Resolve(streams)
      case Some(s) => Put(acc, key, s)
      case None => acc
  }

  function MergeStreams(streamSets: seq<Obj<Value>>): (merged: Outcome<Obj<Value>>)
    ensures streamSets == [] ==> merged == Done([])
  {
    match Group(streamSets)
    case Throws => Throws
    case Done(groups) => Done(Finalize(groups))
  }

  /** One stream set throws exactly when it holds an inherited name that `acc` does not own. */
  lemma {:induction false} GroupSetThrows(acc: Obj<seq<Value>>, streamSet: Obj<Value>)
    ensures GroupSet(acc, streamSet).Throws? <==>
              exists i :: 0 <= i < |streamSet| && ObjectPrototypeMember(streamSet[i].0) && Get(acc, streamSet[i].0).None?
  {
    if streamSet != [] {
      var init := streamSet[..|streamSet| - 1];
      assert forall i :: 0 <= i < |init| ==> init[i] == streamSet[i];
      GroupSetThrows(acc, init);
    }
  }

  lemma {:induction false} GroupSetSpec(acc: Obj<seq<Value>>, streamSet: Obj<Value>, key: string)
    requires WellFormed(streamSet)
    requires GroupSet(acc, streamSet).Done?
    ensures Get(GroupSet(acc, streamSet).value, key) ==
              if !Has(streamSet, key) then Get(acc, key)
              else if Get(acc, key).None? then Some([Get(streamSet, key).value])
              else Some(Get(acc, key).value + [Get(streamSet, key).value])
    ensures WellFormed(acc) ==> WellFormed(GroupSet(acc, streamSet).value)
  {
    if streamSet != [] {
      var init := streamSet[..|streamSet| - 1];
      var (last, a) := streamSet[|streamSet| - 1];
      assert WellFormed(init);
      assert GroupSet(acc, init).Done?;
      GroupSetSpec(acc, init, key);
      var b := Get(acc, last);
      var group := if b.None? then [a] else b.value + [a];
      assert GroupSet(acc, streamSet).value == Put(GroupSet(acc, init).value, last, group);
      PutGet(GroupSet(acc, init).value, last, group, key);
      HasLast(streamSet, key);
      if WellFormed(acc) { PutWellFormed(GroupSet(acc, init).value, last, group); }
      if key == last {
        GetAt(streamSet, |streamSet| - 1);
        assert forall i :: 0 <= i < |init| ==> init[i].0 == streamSet[i].0 != key;
      } else if Has(init, key) {
        var i :| 0 <= i < |init| && init[i].0 == key;
        GetAt(init, i);
        GetAt(streamSet, i);
      }
    }
  }

  /** Once grouped without a throw, the grouped object holds, for each key, its contributors in argument order. */
  lemma {:induction false} GroupIsContributors(streamSets: seq<Obj<Value>>, key: string)
    requires forall i :: 0 <= i < |streamSets| ==> WellFormed(streamSets[i])
    requires Group(streamSets).Done?
    ensures WellFormed(Group(streamSets).value)
    ensures Get(Group(streamSets).value, key) ==
              if Contributors(streamSets, key) == [] then None else Some(Contributors(streamSets, key))
  {
    if streamSets != [] {
      var init := streamSets[..|streamSets| - 1];
      assert forall i :: 0 <= i < |init| ==> init[i] == streamSets[i];
      var last := streamSets[|streamSets| - 1];
      assert Group(init).Done?;
      var g := Group(init).value;
      GroupIsContributors(init, key);
      assert Group(streamSets) == GroupSet(g, last);
      GroupSetSpec(g, last, key);
      if Has(last, key) {
        assert Contributors(streamSets, key) == Contributors(init, key) + [Get(last, key).value];
        if Contributors(init, key) == [] {
          assert Get(Group(streamSets).value, key) == Some([Get(last, key).value]);
          assert Contributors(streamSets, key) == [Get(last, key).value];
        } else {
          assert Get(Group(streamSets).value, key) == Some(Contributors(init, key) + [Get(last, key).value]);
        }
      } else {
        assert Contributors(streamSets, key) == Contributors(init, key);
      }
    }
  }

  /** An inherited name with contributors is held by some stream set. */
  lemma InheritedContributor(streamSets: seq<Obj<Value>>, key: string)
    ensures ObjectPrototypeMember(key) && Contributors(streamSets, key) != [] ==>
              exists i :: 0 <= i < |streamSets| && HoldsPrototypeName(streamSets[i])
  {
    ContributorsFrom(streamSets, key);
    if ObjectPrototypeMember(key) && Contributors(streamSets, key) != [] {
      var m :| 0 <= m < |streamSets| && Has(streamSets[m], key);
      var i :| 0 <= i < |streamSets[m]| && streamSets[m][i].0 == key;
      assert ObjectPrototypeMember(streamSets[m][i].0);
    }
  }

  /**
    Grouping throws exactly when some stream set holds an inherited name:
    the first set to hold it finds the inherited member, never a group.
   */
  lemma {:induction false} GroupThrows(streamSets: seq<Obj<Value>>)
    requires forall i :: 0 <= i < |streamSets| ==> WellFormed(streamSets[i])
    ensures Group(streamSets).Throws? <==> exists i :: 0 <= i < |streamSets| && HoldsPrototypeName(streamSets[i])
  {
    if streamSets != [] {
      var init := streamSets[..|streamSets| - 1];
      assert forall i :: 0 <= i < |init| ==> init[i] == streamSets[i];
      var last := streamSets[|streamSets| - 1];
      GroupThrows(init);
      if Group(init).Done? {
        var g := Group(init).value;
        assert Group(streamSets) == GroupSet(g, last);
        GroupSetThrows(g, last);
        forall j | 0 <= j < |last| && ObjectPrototypeMember(last[j].0)
          ensures Get(g, last[j].0).None?
        {
          var k := last[j].0;
          GroupIsContributors(init, k);
          InheritedContributor(init, k);
        }
      }
    }
  }

  lemma {:induction false} FinalizeSpec(groups: Obj<seq<Value>>, key: string)
    requires WellFormed(groups)
    ensures Get(Finalize(groups), key) == if Has(groups, key) then Resolve(Get(groups, key).value) else None
    ensures WellFormed(Finalize(groups))
  {
    if groups != [] {
      var init := groups[..|groups| - 1];
      var (last, streams) := groups[|groups| - 1];
      assert WellFormed(init);
      FinalizeSpec(init, key);
      HasLast(groups, key);
      if Resolve(streams).Some? {
        PutGet(Finalize(init), last, Resolve(streams).value, key);
        PutWellFormed(Finalize(init), last, Resolve(streams).value);
      }
      if key == last {
        GetAt(groups, |groups| - 1);
        assert forall i :: 0 <= i < |init| ==> init[i].0 == groups[i].0 != key;
      } else if Has(init, key) {
        var i :| 0 <= i < |init| && init[i].0 == key;
        GetAt(init, i);
        GetAt(groups, i);
      }
    }
  }

  /**
    The whole of `mergeStreams`, key by key: no contributor gives no key; one
    contributor is passed through unchanged, observable or not; several
    contributors are merged when all are observable and dropped otherwise.
   */
  lemma MergeStreamsSpec(streamSets: seq<Obj<Value>>, key: string)
    requires forall i :: 0 <= i < |streamSets| ==> WellFormed(streamSets[i])
    ensures MergeStreams(streamSets).Throws? <==> exists i :: 0 <= i < |streamSets| && HoldsPrototypeName(streamSets[i])
    ensures MergeStreams(streamSets).Done? ==> WellFormed(MergeStreams(streamSets).value)
    ensures MergeStreams(streamSets).Done? ==>
      var c := Contributors(streamSets, key);
      Get(MergeStreams(streamSets).value, key) ==
        if |c| == 0 then None
        else if |c| == 1 then Some(c[0])
        else if AllObservable(c) then Some(Stream(Derived(Merge, c)))
        else None
  {
    GroupThrows(streamSets);
    if Group(streamSets).Done? {
      GroupIsContributors(streamSets, key);
      FinalizeSpec(Group(streamSets).value, key);
    }
  }

  /** A key contributes only when some stream set holds it. */
  lemma {:induction false} ContributorsFrom(streamSets: seq<Obj<Value>>, key: string)
    ensures Contributors(streamSets, key) != [] <==> exists i :: 0 <= i < |streamSets| && Has(streamSets[i], key)
  {
    if streamSets != [] {
      var init := streamSets[..|streamSets| - 1];
      ContributorsFrom(init, key);
      assert forall i :: 0 <= i < |init| ==> init[i] == streamSets[i];
    }
  }

  /** The result's keys are among the keys of the inputs. */
  lemma MergedKeysFromInputs(streamSets: seq<Obj<Value>>, key: string)
    requires forall i :: 0 <= i < |streamSets| ==> WellFormed(streamSets[i])
    requires MergeStreams(streamSets).Done? && Has(MergeStreams(streamSets).value, key)
    ensures exists i :: 0 <= i < |streamSets| && Has(streamSets[i], key)
  {
    MergeStreamsSpec(streamSets, key);
    ContributorsFrom(streamSets, key);
  }

  /**
    A stream set with the key `constructor` throws, while the key
    `constructor$`, which no object inherits, is passed through.
   */
  lemma InheritedKeyThrows(s: Value)
    ensures MergeStreams([[("constructor", s)]]) == Throws
    ensures MergeStreams([[("constructor$", s)]]) == Done([("constructor$", s)])
  {
    assert ObjectPrototypeMember("constructor");
    assert !ObjectPrototypeMember("constructor$");
    var bad: Obj<Value> := [("constructor", s)];
    assert [bad][..0] == [] && bad[..0] == [];
    assert GroupSet([], bad) == Throws;
    assert Group([bad]) == Throws;
    var good: Obj<Value> := [("constructor$", s)];
    assert [good][..0] == [] && good[..0] == [];
    assert GroupSet([], good) == Done([("constructor$", [s])]);
    assert Group([good]) == Done([("constructor$", [s])]);
    assert Finalize([("constructor$", [s])]) == [("constructor$", s)];
  }
}
