/**
 The collection builtins against simple specifications: `concat` is flattening under a type
 check, and `group-by` is a stable partition by key in order of first appearance.
 */
module Collections {
  import opened Values
  import opened Materialize
  import opened Evaluator

  // ---------------------------------------------------------------- concat

  predicate AllArrays(subs: seq<Value>) {
    forall i | 0 <= i < |subs| :: subs[i].Arr?
  }

  function Flatten(subs: seq<Value>): seq<Value>
    requires AllArrays(subs)
  {
    if subs == [] then [] else subs[0].elems + Flatten(subs[1..])
  }

  /** All elements that are not errors have one element class, the given one if any. */
  predicate OneTag(es: seq<Value>, tag: Option<Tag>) {
    && (forall i | 0 <= i < |es| && !IsError(es[i]) && tag.Some? :: TagOf(es[i]) == tag.value)
    && (forall i, j | 0 <= i < |es| && 0 <= j < |es| && !IsError(es[i]) && !IsError(es[j]) ::
      TagOf(es[i]) == TagOf(es[j]))
  }

  /** The class carried on after `es`. */
  function TagAfter(es: seq<Value>, tag: Option<Tag>): Option<Tag> {
    if es == [] then tag else TagAfter(es[1..], if IsError(es[0]) then tag else Some(TagOf(es[0])))
  }

  lemma OneTagCons(es: seq<Value>, tag: Option<Tag>)
    requires es != []
    ensures IsError(es[0]) ==> OneTag(es, tag) == OneTag(es[1..], tag)
    ensures !IsError(es[0]) ==>
      OneTag(es, tag) == ((tag.Some? ==> tag.value == TagOf(es[0])) && OneTag(es[1..], Some(TagOf(es[0]))))
  {
    hide TagOf, IsError;
    var t := es[1..];
    assert es == [es[0]] + t;
    if OneTag(es, tag) {
      assert forall i | 0 <= i < |t| :: t[i] == es[i + 1];
    }
    if !IsError(es[0]) && (tag.Some? ==> tag.value == TagOf(es[0])) && OneTag(t, Some(TagOf(es[0]))) {
      forall i | 0 <= i < |es| && !IsError(es[i]) ensures TagOf(es[i]) == TagOf(es[0]) {
        if i > 0 { assert es[i] == t[i - 1]; }
      }
    }
    if IsError(es[0]) && OneTag(t, tag) {
      forall i | 0 <= i < |es| && !IsError(es[i]) ensures i > 0 && es[i] == t[i - 1] {}
    }
  }

  lemma {:induction false} JoinElementsSpec(els: seq<Value>, out: seq<Value>, tag: Option<Tag>)
    ensures var r := JoinElements(els, out, tag);
            if OneTag(els, tag) then r == Joined(out + els, TagAfter(els, tag))
            else r == Mismatch(Error(TYPE_MISMATCH, "element types differ"))
  {
    hide TagOf, IsError, Error;
    if els == [] { assert out + els == out; }
    else {
      OneTagCons(els, tag);
      assert (out + [els[0]]) + els[1..] == out + els;
      JoinElementsSpec(els[1..], out + [els[0]], tag);
      JoinElementsSpec(els[1..], out + [els[0]], Some(TagOf(els[0])));
    }
  }

  lemma {:induction false} OneTagAppend(a: seq<Value>, b: seq<Value>, tag: Option<Tag>)
    ensures OneTag(a + b, tag) == (OneTag(a, tag) && OneTag(b, TagAfter(a, tag)))
    decreases |a|
  {
    hide TagOf, IsError;
    if a == [] { assert a + b == b; }
    else {
      var rest := a[1..];
      assert (a + b)[1..] == rest + b && (a + b)[0] == a[0];
      OneTagCons(a + b, tag);
      OneTagCons(a, tag);
      OneTagAppend(rest, b, if IsError(a[0]) then tag else Some(TagOf(a[0])));
    }
  }

  lemma {:induction false} JoinCollectionsSpec(subs: seq<Value>, out: seq<Value>, tag: Option<Tag>)
    ensures var r := JoinCollections(subs, out, tag);
            && (r.Joined? <==> AllArrays(subs) && OneTag(Flatten(subs), tag))
            && (r.Joined? ==> r.out == out + Flatten(subs))
            && (r.Mismatch? ==> IsError(r.error))
  {
    hide TagOf, IsError, Error, OneTag, TagAfter, JoinElements;
    if subs == [] {
      assert Flatten(subs) == [];
      assert OneTag([], tag) by { EmptyOneTag(tag); }
      assert out + Flatten(subs) == out;
    } else if subs[0].Arr? {
      ArrayIsNoError(subs[0]);
      var els := subs[0].elems;
      JoinElementsSpec(els, out, tag);
      if AllArrays(subs) { OneTagAppend(els, Flatten(subs[1..]), tag); }
      if OneTag(els, tag) {
        JoinCollectionsSpec(subs[1..], out + els, TagAfter(els, tag));
        if AllArrays(subs) { assert (out + els) + Flatten(subs[1..]) == out + Flatten(subs); }
        assert AllArrays(subs) <==> AllArrays(subs[1..]);
      }
    }
  }

  lemma EmptyOneTag(tag: Option<Tag>)
    ensures OneTag([], tag)
  {
  }

  lemma ArrayIsNoError(v: Value)
    requires v.Arr?
    ensures !IsError(v)
  {
  }

  /**
   concat succeeds exactly when every part is an array and all elements that are not errors share
   one class; then it is the flattening, with contained errors in place.
   */
  lemma ConcatIsFlatten(subs: seq<Value>)
    ensures var r := ApplyConcat(Arr(subs));
            && (r.Arr? <==> AllArrays(subs) && OneTag(Flatten(subs), None))
            && (r.Arr? ==> r == Arr(Flatten(subs)))
            && (!r.Arr? ==> IsError(r))
  {
    hide TagOf, Error, OneTag, Flatten, JoinCollections;
    JoinCollectionsSpec(subs, [], None);
    if AllArrays(subs) { assert [] + Flatten(subs) == Flatten(subs); }
    var joined := JoinCollections(subs, [], None);
    if joined.Mismatch? && joined.error.Arr? { ArrayIsNoError(joined.error); }
  }

  lemma {:induction false} JoinSplit(front: seq<Value>, back: seq<Value>, out: seq<Value>, tag: Option<Tag>)
    ensures JoinCollections(front + back, out, tag) ==
            match JoinCollections(front, out, tag)
            case Mismatch(error) => Mismatch(error)
            case Joined(out', tag') => JoinCollections(back, out', tag')
    decreases |front|
  {
    hide JoinElements, IsError, Error;
    if front == [] {
      assert front + back == back;
    } else {
      assert (front + back)[0] == front[0] && (front + back)[1..] == front[1..] + back;
      if !IsError(front[0]) && front[0].Arr? {
        match JoinElements(front[0].elems, out, tag)
        case Mismatch(_) =>
        case Joined(out', tag') => JoinSplit(front[1..], back, out', tag');
      }
    }
  }

  /** A part that is an error is the result, if the parts before it join; one that is no array does not fit. */
  lemma ConcatStopsAt(subs: seq<Value>, i: nat)
    requires i < |subs| && ApplyConcat(Arr(subs[..i])).Arr?
    ensures IsError(subs[i]) ==> ApplyConcat(Arr(subs)) == subs[i]
    ensures !IsError(subs[i]) && !subs[i].Arr? ==>
              var r := ApplyConcat(Arr(subs)); IsError(r) && Get(ErrorData(r), "code") == Str(TYPE_MISMATCH)
  {
    hide JoinElements, IsError, Error;
    JoinSplit(subs[..i], subs[i..], [], None);
    assert subs[..i] + subs[i..] == subs && subs[i..][0] == subs[i];
    var before := JoinCollections(subs[..i], [], None);
    if before.Mismatch? {
      ConcatIsFlatten(subs[..i]);
      MismatchIsError(subs[..i], [], None);
      ArrayIsNoError(before.error);
    }
  }

  lemma {:induction false} MismatchIsError(subs: seq<Value>, out: seq<Value>, tag: Option<Tag>)
    ensures var r := JoinCollections(subs, out, tag); r.Mismatch? ==> IsError(r.error)
    decreases |subs|
  {
    hide IsError, TagOf;
    if subs != [] && !IsError(subs[0]) && subs[0].Arr? {
      JoinElementsSpec(subs[0].elems, out, tag);
      match JoinElements(subs[0].elems, out, tag)
      case Mismatch(_) =>
      case Joined(out', tag') => MismatchIsError(subs[1..], out', tag');
    }
  }

  /** concat's two nested loops. */
  method Concat(collections: Value) returns (r: Value)
    ensures r == ApplyConcat(collections)
  {
    if !collections.Arr? { return Error(TYPE_MISMATCH, "collections must be an array of arrays"); }
    hide Error, TagOf, IsError;
    var out: seq<Value>, tag: Option<Tag> := [], None;
    var subs := collections.elems;
    for i := 0 to |subs|
      invariant JoinCollections(subs[i..], out, tag) == JoinCollections(subs, [], None)
    {
      var sub := subs[i];
      assert subs[i..][0] == sub && subs[i..][1..] == subs[i + 1..];
      if IsError(sub) { return sub; }
      if !sub.Arr? { return Error(TYPE_MISMATCH, "each collection must be an array"); }
      ghost var out0, tag0 := out, tag;
      for j := 0 to |sub.elems|
        invariant JoinElements(sub.elems[j..], out, tag) == JoinElements(sub.elems, out0, tag0)
      {
        var el := sub.elems[j];
        assert sub.elems[j..][0] == el && sub.elems[j..][1..] == sub.elems[j + 1..];
        if !IsError(el) {
          if tag.None? { tag := Some(TagOf(el)); }
          else if tag.value != TagOf(el) { return Error(TYPE_MISMATCH, "element types differ"); }
        }
        out := out + [el];
      }
      assert sub.elems[|sub.elems|..] == [];
    }
    assert subs[|subs|..] == [];
    return Arr(out);
  }

  // ---------------------------------------------------------------- group-by

  /** Runs the key function on every element in order; None if an element stops the builtin. */
  function KeysOf(fn: Value, els: seq<Value>, env: Env, st: State): Option<seq<Value>>
    decreases |els|
  {
    if els == [] then Some([])
    else
      var r := Invoke(fn, [els[0]], env, st);
      if !r.step.Done? || IsError(r.step.v) || KeyId(r.step.v).None? then None
      else match KeysOf(fn, els[1..], env, r.st.(store := r.st.store + AbsorbStores(Groups([]), r.step.v)))
        case None => None
        case Some(ks) => Some([r.step.v] + ks)
  }

  predicate Encodable(ks: seq<Value>) {
    forall i | 0 <= i < |ks| :: KeyId(ks[i]).Some?
  }

  function Ids(ks: seq<Value>): seq<Value>
    requires Encodable(ks)
  {
    seq(|ks|, i requires 0 <= i < |ks| => KeyId(ks[i]).value)
  }

  /** Adds keyed elements to groups one by one. */
  function GroupInto(gs: seq<Group>, els: seq<Value>, ks: seq<Value>): seq<Group>
    requires |els| == |ks| && Encodable(ks)
    decreases |els|
  {
    if els == [] then gs
    else GroupInto(AddToGroup(gs, KeyId(ks[0]).value, ks[0], els[0]), els[1..], ks[1..])
  }

  lemma {:induction false} CollectGroups(fn: Value, els: seq<Value>, gs: seq<Group>, env: Env, st: State)
    ensures match KeysOf(fn, els, env, st) {
              case Some(ks) =>
                && |ks| == |els| && Encodable(ks)
                && Collect(GroupBy, fn, els, Groups(gs), env, st).step ==
                  Done(Arr(GroupEntities(GroupInto(gs, els, ks))))
              case None =>
                var s := Collect(GroupBy, fn, els, Groups(gs), env, st).step;
                s.Abort? || IsError(s.v)
            }
    decreases |els|
  {
    hide Invoke, KeyId, IsError, Error;
    if els != [] {
      var r := Invoke(fn, [els[0]], env, st);
      if r.step.Done? {
        var st1 := r.st.(store := r.st.store + AbsorbStores(Groups(gs), r.step.v));
        if !IsError(r.step.v) && KeyId(r.step.v).Some? {
          CollectGroups(fn, els[1..], AddToGroup(gs, KeyId(r.step.v).value, r.step.v, els[0]), env, st1);
        }
      }
    }
  }

  // the independent specification

  /** The distinct ids in order of first appearance. */
  function Firsts(ids: seq<Value>): seq<Value> {
    if ids == [] then []
    else
      var before, last := Firsts(ids[..|ids| - 1]), ids[|ids| - 1];
      if last in before then before else before + [last]
  }

  /** The elements keyed by `id`, in input order. */
  function Select(els: seq<Value>, ids: seq<Value>, id: Value): seq<Value>
    requires |els| == |ids|
  {
    if els == [] then []
    else
      var n := |els| - 1;
      Select(els[..n], ids[..n], id) + (if ids[n] == id then [els[n]] else [])
  }

  function GroupIds(gs: seq<Group>): seq<Value> {
    seq(|gs|, i requires 0 <= i < |gs| => gs[i].id)
  }

  function AllMembers(gs: seq<Group>): seq<Value> {
    if gs == [] then [] else gs[0].members + AllMembers(gs[1..])
  }

  predicate Distinct(ids: seq<Value>) {
    forall i, j | 0 <= i < j < |ids| :: ids[i] != ids[j]
  }

  /** `gs` is the stable partition of `els` by their keys' ids, in order of first appearance. */
  ghost predicate Partitions(gs: seq<Group>, els: seq<Value>, ids: seq<Value>)
    requires |els| == |ids|
  {
    && Distinct(GroupIds(gs))
    && GroupIds(gs) == Firsts(ids)
    && (forall i | 0 <= i < |gs| :: gs[i].members == Select(els, ids, gs[i].id))
    && (forall i | 0 <= i < |gs| :: KeyId(gs[i].key) == Some(gs[i].id))
    && multiset(AllMembers(gs)) == multiset(els)
  }

  lemma {:induction false} AddToGroupAt(gs: seq<Group>, id: Value, key: Value, el: Value, j: nat)
    requires j < |gs| && gs[j].id == id && forall i | 0 <= i < j :: gs[i].id != id
    ensures AddToGroup(gs, id, key, el) == gs[j := gs[j].(members := gs[j].members + [el])]
  {
    if j > 0 { AddToGroupAt(gs[1..], id, key, el, j - 1); }
  }

  lemma {:induction false} AddToGroupNew(gs: seq<Group>, id: Value, key: Value, el: Value)
    requires forall i | 0 <= i < |gs| :: gs[i].id != id
    ensures AddToGroup(gs, id, key, el) == gs + [Group(id, key, [el])]
  {
    if gs != [] { AddToGroupNew(gs[1..], id, key, el); }
  }

  lemma {:induction false} AddedMembers(gs: seq<Group>, id: Value, key: Value, el: Value)
    ensures multiset(AllMembers(AddToGroup(gs, id, key, el))) == multiset(AllMembers(gs)) + multiset{el}
  {
    if gs != [] && gs[0].id != id { AddedMembers(gs[1..], id, key, el); }
  }

  lemma {:induction false} SelectAbsent(els: seq<Value>, ids: seq<Value>, id: Value)
    requires |els| == |ids| && id !in ids
    ensures Select(els, ids, id) == []
  {
    if els != [] {
      var n := |els| - 1;
      assert forall x | x in ids[..n] :: x in ids;
      assert ids[n] in ids;
      SelectAbsent(els[..n], ids[..n], id);
    }
  }

  lemma {:induction false} FirstsMembers(ids: seq<Value>)
    ensures forall x :: x in Firsts(ids) <==> x in ids
  {
    if ids != [] {
      var n := |ids| - 1;
      assert ids == ids[..n] + [ids[n]];
      FirstsMembers(ids[..n]);
    }
  }

  lemma SelectSnoc(els: seq<Value>, ids: seq<Value>, el: Value, id: Value, x: Value)
    requires |els| == |ids|
    ensures Select(els + [el], ids + [id], x) == Select(els, ids, x) + (if id == x then [el] else [])
  {
    assert (els + [el])[..|els|] == els && (ids + [id])[..|ids|] == ids;
  }

  lemma FirstsSnoc(ids: seq<Value>, id: Value)
    ensures Firsts(ids + [id]) == if id in ids then Firsts(ids) else Firsts(ids) + [id]
  {
    assert (ids + [id])[..|ids|] == ids;
    FirstsMembers(ids);
  }

  lemma KnownKeyStep(gs: seq<Group>, els: seq<Value>, ids: seq<Value>, id: Value, key: Value, el: Value)
    requires |els| == |ids| && Partitions(gs, els, ids) && KeyId(key) == Some(id) && id in ids
    ensures Partitions(AddToGroup(gs, id, key, el), els + [el], ids + [id])
  {
    hide KeyId, Firsts, Select, AddToGroup, AllMembers;
    FirstsSnoc(ids, id);
    FirstsMembers(ids);
    AddedMembers(gs, id, key, el);
    assert id in GroupIds(gs);
    var j :| 0 <= j < |gs| && GroupIds(gs)[j] == id;
    assert forall i | 0 <= i < |gs| :: gs[i].id == GroupIds(gs)[i];
    AddToGroupAt(gs, id, key, el, j);
    var out := gs[j := gs[j].(members := gs[j].members + [el])];
    assert GroupIds(out) == GroupIds(gs);
    forall i | 0 <= i < |out| ensures out[i].members == Select(els + [el], ids + [id], out[i].id) {
      SelectSnoc(els, ids, el, id, out[i].id);
      assert i != j ==> GroupIds(gs)[i] != GroupIds(gs)[j];
    }
  }

  lemma NewKeyStep(gs: seq<Group>, els: seq<Value>, ids: seq<Value>, id: Value, key: Value, el: Value)
    requires |els| == |ids| && Partitions(gs, els, ids) && KeyId(key) == Some(id) && id !in ids
    ensures Partitions(AddToGroup(gs, id, key, el), els + [el], ids + [id])
  {
    hide KeyId, Firsts, Select, AddToGroup, AllMembers;
    FirstsSnoc(ids, id);
    FirstsMembers(ids);
    AddedMembers(gs, id, key, el);
    assert forall i | 0 <= i < |gs| :: gs[i].id == GroupIds(gs)[i] && gs[i].id in GroupIds(gs);
    AddToGroupNew(gs, id, key, el);
    var out := gs + [Group(id, key, [el])];
    assert GroupIds(out) == GroupIds(gs) + [id];
    SelectAbsent(els, ids, id);
    forall i | 0 <= i < |out| ensures out[i].members == Select(els + [el], ids + [id], out[i].id) {
      SelectSnoc(els, ids, el, id, out[i].id);
    }
  }

  /** One more keyed element keeps the partition. */
  lemma PartitionStep(gs: seq<Group>, els: seq<Value>, ids: seq<Value>, key: Value, el: Value)
    requires |els| == |ids| && Partitions(gs, els, ids) && KeyId(key).Some?
    ensures Partitions(AddToGroup(gs, KeyId(key).value, key, el), els + [el], ids + [KeyId(key).value])
  {
    hide KeyId, Partitions, AddToGroup;
    var id := KeyId(key).value;
    if id in ids { KnownKeyStep(gs, els, ids, id, key, el); } else { NewKeyStep(gs, els, ids, id, key, el); }
  }

  lemma {:induction false} GroupIntoPartitions(gs: seq<Group>, els0: seq<Value>, ks0: seq<Value>, els: seq<Value>,
      ks: seq<Value>)
    requires |els0| == |ks0| && |els| == |ks| && Encodable(ks0) && Encodable(ks)
    requires Partitions(gs, els0, Ids(ks0))
    ensures Encodable(ks0 + ks) && Partitions(GroupInto(gs, els, ks), els0 + els, Ids(ks0 + ks))
    decreases |els|
  {
    hide KeyId, Partitions;
    assert Encodable(ks0 + ks);
    if els == [] {
      assert els0 + els == els0 && ks0 + ks == ks0;
    } else {
      PartitionStep(gs, els0, Ids(ks0), ks[0], els[0]);
      assert Ids(ks0 + [ks[0]]) == Ids(ks0) + [KeyId(ks[0]).value];
      assert (els0 + [els[0]]) + els[1..] == els0 + els && (ks0 + [ks[0]]) + ks[1..] == ks0 + ks;
      GroupIntoPartitions(AddToGroup(gs, KeyId(ks[0]).value, ks[0], els[0]), els0 + [els[0]], ks0 + [ks[0]], els[1..],
        ks[1..]);
    }
  }

  /**
   group-by refines its specification: unless an element stops it, the result is one group entity
   per distinct key, in order of first appearance, each holding exactly the elements with that key
   in input order, and together a partition of the input.  An element that stops it makes the
   whole result an error (or raises).
   */
  lemma GroupByPartitions(fn: Value, els: seq<Value>, env: Env, st: State)
    ensures match KeysOf(fn, els, env, st) {
              case Some(ks) =>
                && |ks| == |els| && Encodable(ks)
                && var gs := GroupInto([], els, ks);
                   && Collect(GroupBy, fn, els, Groups([]), env, st).step == Done(Arr(GroupEntities(gs)))
                   && Partitions(gs, els, Ids(ks))
              case None =>
                var s := Collect(GroupBy, fn, els, Groups([]), env, st).step;
                s.Abort? || IsError(s.v)
            }
  {
    hide Collect, KeyId, Invoke, IsError;
    CollectGroups(fn, els, [], env, st);
    match KeysOf(fn, els, env, st)
    case None =>
    case Some(ks) =>
      assert Ids([]) == [] && AllMembers([]) == [];
      GroupIntoPartitions([], [], [], els, ks);
      assert [] + els == els && [] + ks == ks;
  }

  // the loop with its insertion order and two dictionaries

  function Assemble(order: seq<Value>, members: map<Value, seq<Value>>, keys: map<Value, Value>): seq<Group>
    requires forall id | id in order :: id in members && id in keys
  {
    seq(|order|, i requires 0 <= i < |order| => Group(order[i], keys[order[i]], members[order[i]]))
  }

  lemma AssembleAdd(order: seq<Value>, members: map<Value, seq<Value>>, keys: map<Value, Value>, id: Value,
      key: Value, el: Value)
    requires forall x | x in order :: x in members && x in keys
    requires forall x | x in members :: x in order
    requires Distinct(order)
    ensures id in members ==>
      AddToGroup(Assemble(order, members, keys), id, key, el) ==
        Assemble(order, members[id := members[id] + [el]], keys)
    ensures id !in members ==>
      AddToGroup(Assemble(order, members, keys), id, key, el) ==
        Assemble(order + [id], members[id := [el]], keys[id := key])
  {
    var gs := Assemble(order, members, keys);
    if id in members {
      var j :| 0 <= j < |order| && order[j] == id;
      AddToGroupAt(gs, id, key, el, j);
    } else {
      assert id !in order;
      forall i | 0 <= i < |gs| ensures gs[i].id != id { assert order[i] in order; }
      AddToGroupNew(gs, id, key, el);
    }
  }

  /** group-by's loop refines the element loop of the evaluator. */
  method GroupByLoop(fn: Value, collection: seq<Value>, env: Env, st0: State) returns (step: Step, st: State)
    ensures Reply(step, st) == Collect(GroupBy, fn, collection, Groups([]), env, st0)
  {
    hide Invoke, KeyId, IsError, Error, GroupEntities, CollectRest;
    st := st0;
    var order: seq<Value>, members: map<Value, seq<Value>>, keys: map<Value, Value> := [], map[], map[];
    assert Assemble(order, members, keys) == [];
    for i := 0 to |collection|
      invariant forall id | id in order :: id in members && id in keys
      invariant forall id | id in members :: id in order
      invariant Distinct(order)
      invariant Collect(GroupBy, fn, collection[i..], Groups(Assemble(order, members, keys)), env, st) ==
                Collect(GroupBy, fn, collection, Groups([]), env, st0)
    {
      var el := collection[i];
      ghost var gs := Groups(Assemble(order, members, keys));
      assert collection[i..][0] == el && collection[i..][1..] == collection[i + 1..];
      var r := Invoke(fn, [el], env, st);
      RestStep(fn, collection[i..], gs, env, r);
      if !r.step.Done? { return r.step, r.st; }
      var key := r.step.v;
      st := r.st.(store := r.st.store + AbsorbStores(Groups([]), key));
      if IsError(key) { return Done(key), st; }
      var id := KeyId(key);
      if id.None? { return Done(Error(TYPE_MISMATCH, "group-by key is not encodable")), st; }
      AssembleAdd(order, members, keys, id.value, key, el);
      ghost var added := AddToGroup(gs.groups, id.value, key, el);
      assert [] + [el] == [el];
      if id.value !in members {
        order, members, keys := order + [id.value], members[id.value := []], keys[id.value := key];
      }
      members := members[id.value := members[id.value] + [el]];
      assert Assemble(order, members, keys) == added;
    }
    assert collection[|collection|..] == [];
    step := Done(Arr(GroupEntities(Assemble(order, members, keys))));
  }

  /** What one closure reply does to the group-by loop. */
  lemma RestStep(fn: Value, els: seq<Value>, gs: Accum, env: Env, r: Reply)
    requires els != [] && gs.Groups? && !r.step.Tail?
    ensures var t := CollectRest(GroupBy, fn, els, gs, env, r);
            if !r.step.Done? then t == r
            else
              var st := r.st.(store := r.st.store + AbsorbStores(Groups([]), r.step.v));
              if IsError(r.step.v) then t == Reply(Done(r.step.v), st)
              else match KeyId(r.step.v)
                case None => t == Reply(Done(Error(TYPE_MISMATCH, "group-by key is not encodable")), st)
                case Some(id) =>
                  t == Collect(GroupBy, fn, els[1..], Groups(AddToGroup(gs.groups, id, r.step.v, els[0])), env, st)
  {
    hide Collect, KeyId, IsError, Error, AddToGroup;
  }
}
