/** The JSON tree the store holds, how a path of keys reads it (`getNested`)
    and what a write along a path does to it (`putNested`), stated on values
    (server/.../InMemoryHttpJson.kt). */
module JsonTree {
  import opened Outcomes
  import opened KotlinText

  /** A parsed JSON value. Kotlin's `null` stands both for JSON null and for a
      missing map entry or list slot; both are `Null` here. */
  datatype Json =
    | Null
    | Bool(b: bool)
    | Num(n: int)
    | Str(s: string)
    | Obj(fields: map<string, Json>)
    | Arr(items: seq<Json>)

  /** One step of a parsed path. */
  datatype StructureKey = ObjectKey(field: string) | ArrayKey(index: Int32)

  /** `map[key]`: null when the key is missing. */
  function Field(fields: map<string, Json>, key: string): Json {
    if key in fields then fields[key] else Null
  }

  /** The length of a list, and 0 for anything else. */
  function Length(t: Json): nat {
    if t.Arr? then |t.items| else 0
  }

  predicate FieldsOnly(path: seq<StructureKey>) {
    forall k :: 0 <= k < |path| ==> path[k].ObjectKey?
  }

  // ---------------------------------------------------------------------------
  // Reading

  /** `GetResult(found, value)`. */
  datatype GetResult = GetResult(found: bool, value: Json)

  const NotFound: GetResult := GetResult(false, Null)

  /** `getNested(jsonStructure, path)`, as written: a list step is taken only
      when `size <= index + 1` (with `Int` wrap-around), and the element read
      then throws unless the index is in range. */
  function GetNested(t: Json, path: seq<StructureKey>): (r: Outcome<GetResult>)
    ensures r.Normal? && !r.value.found ==> r.value.value == Null
    ensures r.Thrown? ==> r.exception.IndexOutOfBounds? && |path| > 0
    ensures FieldsOnly(path) ==> r.Normal?
    decreases |path|
  {
    if |path| == 0 then Normal(GetResult(true, t))
    else
      match (t, path[0])
      case (Obj(fields), ObjectKey(f)) => GetNested(Field(fields, f), path[1..])
      case (Arr(items), ArrayKey(i)) =>
        if |items| <= Wrap32(i + 1) then
          if 0 <= i < |items| then GetNested(items[i], path[1..])
          else Thrown(IndexOutOfBounds(i))
        else Normal(NotFound)
      case _ => Normal(NotFound)
  }

  /** One step of a read: a missing field is found as null; a key that does
      not match the value's shape (including a null value) is not found. */
  lemma GetNestedStep(t: Json, key: StructureKey, rest: seq<StructureKey>)
    ensures t.Obj? && key.ObjectKey? && key.field !in t.fields ==>
      GetNested(t, [key] + rest) == GetNested(Null, rest)
    ensures t.Obj? && key.ObjectKey? && key.field in t.fields ==>
      GetNested(t, [key] + rest) == GetNested(t.fields[key.field], rest)
    ensures !(t.Obj? && key.ObjectKey?) && !(t.Arr? && key.ArrayKey?) ==>
      GetNested(t, [key] + rest) == Normal(NotFound)
  {
    assert ([key] + rest)[1..] == rest;
  }

  /** The list read as written: of a list of length n only the element at
      n - 1 is read; a smaller index is not found and a larger one throws,
      except `Int.MAX_VALUE`, whose `index + 1` wraps to a negative number. */
  lemma GetNestedListStep(items: seq<Json>, i: Int32, rest: seq<StructureKey>)
    ensures var r := GetNested(Arr(items), [ArrayKey(i)] + rest);
      && (i + 1 < |items| ==> r == Normal(NotFound))
      && (0 <= i < INT_MAX && i == |items| - 1 ==> r == GetNested(items[i], rest))
      && (i == INT_MAX && |items| <= INT_MAX ==> r == Normal(NotFound))
      && (i < INT_MAX && |items| <= i + 1 && !(0 <= i && i == |items| - 1) ==>
            r == Thrown(IndexOutOfBounds(i)))
  {
    assert ([ArrayKey(i)] + rest)[1..] == rest;
    if i == INT_MAX {
      assert Wrap32(i + 1) == INT_MIN;
    }
  }

  /** Reading along `p + q` is reading along `p`, then along `q` from what
      was found. */
  lemma {:induction false} GetNestedAppend(t: Json, p: seq<StructureKey>, q: seq<StructureKey>)
    ensures GetNested(t, p + q) ==
      match GetNested(t, p)
      case Normal(GetResult(true, v)) => GetNested(v, q)
      case other => other
    decreases |p|
  {
    if |p| == 0 {
      assert p + q == q;
    } else {
      assert (p + q)[0] == p[0];
      assert (p + q)[1..] == p[1..] + q;
      match (t, p[0])
      case (Obj(fields), ObjectKey(f)) => GetNestedAppend(Field(fields, f), p[1..], q);
      case (Arr(items), ArrayKey(i)) =>
        if |items| <= Wrap32(i + 1) && 0 <= i < |items| {
          GetNestedAppend(items[i], p[1..], q);
        }
      case _ =>
    }
  }

  // ---------------------------------------------------------------------------
  // Writing

  /** What a write along a path leaves in the slot it started from, and
      whether it succeeded (`Normal(true)`), hit a conflict (`Normal(false)`)
      or threw. */
  datatype Put = Put(slot: Json, outcome: Outcome<bool>)

  /** `putNested` on values. A null slot met by a key first becomes an empty
      map (field key) or an empty list (index key) and stays so whatever
      happens further down; a non-null slot of the wrong shape, or an index
      past the end of its list, is a conflict; an index equal to the length
      appends; a negative index throws when its slot is written. */
  function PutTree(slot: Json, path: seq<StructureKey>, json: Json): (r: Put)
    ensures r.outcome.Thrown? ==> r.outcome.exception.IndexOutOfBounds? && r.outcome.exception.index < 0
    ensures r.slot == Null ==> |path| == 0 && json == Null
    decreases |path|
  {
    if |path| == 0 then Put(json, Normal(true))
    else
      match path[0]
      case ObjectKey(f) =>
        var c := if slot == Null then Obj(map[]) else slot;
        if !c.Obj? then Put(slot, Normal(false))
        else
          var w := PutTree(Field(c.fields, f), path[1..], json);
          Put(Obj(c.fields[f := w.slot]), w.outcome)
      case ArrayKey(i) =>
        var c := if slot == Null then Arr([]) else slot;
        if !c.Arr? then Put(slot, Normal(false))
        else if i > |c.items| then Put(c, Normal(false))
        else if i < 0 then Put(c, Thrown(IndexOutOfBounds(i)))
        else if i == |c.items| then
          var w := PutTree(Null, path[1..], json);
          Put(Arr(c.items + [w.slot]), w.outcome)
        else
          var w := PutTree(c.items[i], path[1..], json);
          Put(Arr(c.items[i := w.slot]), w.outcome)
  }

  /** The path can be written into `t`: every non-null value met on the way
      has the shape its key asks for, and every index lies between 0 and the
      length of its list (an absent list has length 0). */
  predicate Admits(t: Json, path: seq<StructureKey>)
    decreases |path|
  {
    |path| == 0 ||
    match path[0]
    case ObjectKey(f) =>
      (t.Null? || t.Obj?) && Admits(if t.Obj? then Field(t.fields, f) else Null, path[1..])
    case ArrayKey(i) =>
      (t.Null? || t.Arr?) && 0 <= i <= Length(t)
      && Admits(if t.Arr? && i < |t.items| then t.items[i] else Null, path[1..])
  }

  /** A write succeeds exactly when the tree admits its path. */
  lemma {:induction false} PutSucceedsIff(t: Json, path: seq<StructureKey>, json: Json)
    ensures PutTree(t, path, json).outcome == Normal(true) <==> Admits(t, path)
    decreases |path|
  {
    if |path| > 0 {
      match path[0]
      case ObjectKey(f) =>
        PutSucceedsIff(if t.Obj? then Field(t.fields, f) else Null, path[1..], json);
      case ArrayKey(i) =>
        if t.Arr? && 0 <= i < |t.items| {
          PutSucceedsIff(t.items[i], path[1..], json);
        } else {
          PutSucceedsIff(Null, path[1..], json);
        }
    }
  }

  /** A write that does not succeed does not write its value: the tree it
      leaves behind (with whatever containers it created) and its outcome are
      the same for every value. */
  lemma {:induction false} FailedPutIgnoresValue(t: Json, path: seq<StructureKey>, json: Json, other: Json)
    requires PutTree(t, path, json).outcome != Normal(true)
    ensures PutTree(t, path, other) == PutTree(t, path, json)
    decreases |path|
  {
    match path[0]
    case ObjectKey(f) =>
      if t.Null? || t.Obj? {
        var c := if t == Null then Obj(map[]) else t;
        FailedPutIgnoresValue(Field(c.fields, f), path[1..], json, other);
      }
    case ArrayKey(i) =>
      if (t.Null? || t.Arr?) && 0 <= i <= Length(t) {
        FailedPutIgnoresValue(if t.Arr? && i < |t.items| then t.items[i] else Null, path[1..], json, other);
      }
  }

  /** A null slot met by a key becomes an empty map before a field key and an
      empty list before an index key, and the container stays even when the
      write then fails. */
  lemma PutVivifies(path: seq<StructureKey>, json: Json)
    requires |path| > 0
    ensures path[0].ObjectKey? ==> PutTree(Null, path, json).slot.Obj?
    ensures path[0].ArrayKey? ==> PutTree(Null, path, json).slot.Arr?
  {
  }

  /** Writing `/a:1` into an empty store is a conflict (index 1 of an empty
      list) that leaves the new map and the new empty list behind. */
  lemma FailedPutKeepsContainers(json: Json)
    ensures PutTree(Null, [ObjectKey("a"), ArrayKey(1)], json)
         == Put(Obj(map["a" := Arr([])]), Normal(false))
  {
    var path := [ObjectKey("a"), ArrayKey(1)];
    assert path[1..] == [ArrayKey(1)];
    assert path[1..][1..] == [];
  }

  /** Writing two field keys into null builds a map holding a map holding
      the value. */
  lemma PutTwoFieldsIntoNull(f: string, g: string, json: Json)
    ensures PutTree(Null, [ObjectKey(f), ObjectKey(g)], json) == Put(Obj(map[f := Obj(map[g := json])]), Normal(true))
  {
    var path := [ObjectKey(f), ObjectKey(g)];
    assert path[1..] == [ObjectKey(g)];
    assert [ObjectKey(g)][1..] == [];
    assert Field(map[], g) == Null && Field(map[], f) == Null;
    assert PutTree(Null, [], json) == Put(json, Normal(true));
    assert PutTree(Null, [ObjectKey(g)], json) == Put(Obj(map[][g := json]), Normal(true));
    assert map[][g := json] == map[g := json];
  }

  /** At the last index key of a path: an index equal to the length appends
      the value, a smaller one overwrites in place, a larger one is a
      conflict that changes nothing. */
  lemma PutListSlot(items: seq<Json>, i: Int32, json: Json)
    ensures 0 <= i < |items| ==> PutTree(Arr(items), [ArrayKey(i)], json) == Put(Arr(items[i := json]), Normal(true))
    ensures i == |items| ==> PutTree(Arr(items), [ArrayKey(i)], json) == Put(Arr(items + [json]), Normal(true))
    ensures i > |items| ==> PutTree(Arr(items), [ArrayKey(i)], json) == Put(Arr(items), Normal(false))
  {
    assert [ArrayKey(i)][1..] == [];
  }

  /** A non-null value of the wrong shape for the next key is a conflict that
      leaves it as it is. */
  lemma PutWrongShape(t: Json, key: StructureKey, rest: seq<StructureKey>, json: Json)
    requires t != Null
    requires key.ObjectKey? ==> !t.Obj?
    requires key.ArrayKey? ==> !t.Arr?
    ensures PutTree(t, [key] + rest, json) == Put(t, Normal(false))
  {
    assert ([key] + rest)[0] == key;
  }

  /** Writing the same value at the same path twice leaves the same tree, and
      the same outcome, as writing it once. */
  lemma {:induction false} PutIdempotent(t: Json, path: seq<StructureKey>, json: Json)
    ensures PutTree(PutTree(t, path, json).slot, path, json) == PutTree(t, path, json)
    decreases |path|
  {
    if |path| > 0 {
      var once := PutTree(t, path, json).slot;
      match path[0]
      case ObjectKey(f) =>
        var c := if t == Null then Obj(map[]) else t;
        if c.Obj? {
          var child := Field(c.fields, f);
          PutIdempotent(child, path[1..], json);
          assert Field(once.fields, f) == PutTree(child, path[1..], json).slot;
          assert once.fields[f := PutTree(child, path[1..], json).slot] == once.fields;
        }
      case ArrayKey(i) =>
        var c := if t == Null then Arr([]) else t;
        if c.Arr? && 0 <= i <= |c.items| {
          var child := if i < |c.items| then c.items[i] else Null;
          PutIdempotent(child, path[1..], json);
          assert i < |once.items| && once.items[i] == PutTree(child, path[1..], json).slot;
          assert once.items[i := PutTree(child, path[1..], json).slot] == once.items;
        }
    }
  }

  /** Put then get, for the empty path and every path of field keys: a write
      that succeeds is read back as found, with exactly the written value. */
  lemma {:induction false} PutThenGetFields(t: Json, path: seq<StructureKey>, json: Json)
    requires FieldsOnly(path)
    requires PutTree(t, path, json).outcome == Normal(true)
    ensures GetNested(PutTree(t, path, json).slot, path) == Normal(GetResult(true, json))
    decreases |path|
  {
    if |path| > 0 {
      var f := path[0].field;
      var c := if t == Null then Obj(map[]) else t;
      var child := Field(c.fields, f);
      assert FieldsOnly(path[1..]) by {
        forall k | 0 <= k < |path[1..]| ensures path[1..][k].ObjectKey? {
          assert path[1..][k] == path[k + 1];
        }
      }
      PutThenGetFields(child, path[1..], json);
    }
  }

  // ---------------------------------------------------------------------------
  // The list read as evidently intended

  /** `getNested` with the list bound the other way round: an index below the
      list's length reads that element, any other index is not found. */
  function GetNestedIntended(t: Json, path: seq<StructureKey>): (r: Outcome<GetResult>)
    ensures r.Normal?
    ensures !r.value.found ==> r.value.value == Null
    decreases |path|
  {
    if |path| == 0 then Normal(GetResult(true, t))
    else
      match (t, path[0])
      case (Obj(fields), ObjectKey(f)) => GetNestedIntended(Field(fields, f), path[1..])
      case (Arr(items), ArrayKey(i)) =>
        if 0 <= i < |items| then GetNestedIntended(items[i], path[1..])
        else Normal(NotFound)
      case _ => Normal(NotFound)
  }

  /** With the intended bound, put then get reads back the written value for
      every path, index keys included. */
  lemma {:induction false} PutThenGetIntended(t: Json, path: seq<StructureKey>, json: Json)
    requires PutTree(t, path, json).outcome == Normal(true)
    ensures GetNestedIntended(PutTree(t, path, json).slot, path) == Normal(GetResult(true, json))
    decreases |path|
  {
    if |path| > 0 {
      match path[0]
      case ObjectKey(f) =>
        var c := if t == Null then Obj(map[]) else t;
        PutThenGetIntended(Field(c.fields, f), path[1..], json);
      case ArrayKey(i) =>
        var c := if t == Null then Arr([]) else t;
        PutThenGetIntended(if i < |c.items| then c.items[i] else Null, path[1..], json);
    }
  }

  /** A write under field `f` of a map leaves it a map and leaves every other
      field as it was. */
  lemma PutLeavesOtherFields(t: Json, f: string, rest: seq<StructureKey>, json: Json, g: string)
    requires t.Obj? && g != f
    ensures PutTree(t, [ObjectKey(f)] + rest, json).slot.Obj?
    ensures Field(PutTree(t, [ObjectKey(f)] + rest, json).slot.fields, g) == Field(t.fields, g)
  {
    assert ([ObjectKey(f)] + rest)[0] == ObjectKey(f);
  }

  /** A write at index `i` of a list leaves it a list, one longer when `i`
      is its length and as long otherwise, and leaves every other element as
      it was. */
  lemma PutLeavesOtherItems(items: seq<Json>, i: Int32, rest: seq<StructureKey>, json: Json)
    ensures var after := PutTree(Arr(items), [ArrayKey(i)] + rest, json).slot;
      && after.Arr?
      && |after.items| == (if i == |items| then |items| + 1 else |items|)
      && forall j :: 0 <= j < |items| && j != i ==> after.items[j] == items[j]
  {
    assert ([ArrayKey(i)] + rest)[0] == ArrayKey(i);
  }

  /** A write into an existing value changes nothing that a read along a
      different first key finds. */
  lemma OneStepFrame(c: Json, k1: StructureKey, rest1: seq<StructureKey>, k2: StructureKey, rest2: seq<StructureKey>, json: Json)
    requires c != Null && k1 != k2
    ensures GetNestedIntended(PutTree(c, [k1] + rest1, json).slot, [k2] + rest2)
         == GetNestedIntended(c, [k2] + rest2)
  {
    var after := PutTree(c, [k1] + rest1, json).slot;
    assert ([k1] + rest1)[0] == k1 && ([k2] + rest2)[0] == k2 && ([k2] + rest2)[1..] == rest2;
    match (c, k1)
    case (Obj(fields), ObjectKey(f)) =>
      if k2.ObjectKey? {
        PutLeavesOtherFields(c, f, rest1, json, k2.field);
      }
    case (Arr(items), ArrayKey(i)) =>
      PutLeavesOtherItems(items, i, rest1, json);
    case _ =>
  }

  /** A write leaves alone everything off its path: after writing along
      `common + [k1] + rest1` into a tree in which `common` leads to an
      existing value, a read along `common + [k2] + rest2`, for any other
      key `k2`, finds what it found before. */
  lemma {:induction false} PutLeavesOtherPaths(t: Json, common: seq<StructureKey>, k1: StructureKey, rest1: seq<StructureKey>,
                                               k2: StructureKey, rest2: seq<StructureKey>, json: Json)
    requires k1 != k2
    requires GetNestedIntended(t, common).Normal? && GetNestedIntended(t, common).value.found
    requires GetNestedIntended(t, common).value.value != Null
    ensures GetNestedIntended(PutTree(t, common + [k1] + rest1, json).slot, common + [k2] + rest2)
         == GetNestedIntended(t, common + [k2] + rest2)
    decreases |common|
  {
    var p := common + [k1] + rest1;
    var q := common + [k2] + rest2;
    if |common| == 0 {
      assert p == [k1] + rest1 && q == [k2] + rest2;
      assert GetNestedIntended(t, common) == Normal(GetResult(true, t));
      OneStepFrame(t, k1, rest1, k2, rest2, json);
    } else {
      var tail := common[1..];
      assert p[0] == common[0] && p[1..] == tail + [k1] + rest1;
      assert q[0] == common[0] && q[1..] == tail + [k2] + rest2;
      match (t, common[0])
      case (Obj(fields), ObjectKey(f)) =>
        var child := Field(fields, f);
        assert GetNestedIntended(t, common) == GetNestedIntended(child, tail);
        PutLeavesOtherPaths(child, tail, k1, rest1, k2, rest2, json);
      case (Arr(items), ArrayKey(i)) =>
        assert 0 <= i < |items|;
        assert GetNestedIntended(t, common) == GetNestedIntended(items[i], tail);
        PutLeavesOtherPaths(items[i], tail, k1, rest1, k2, rest2, json);
        var w := PutTree(items[i], tail + [k1] + rest1, json);
        assert PutTree(t, p, json).slot == Arr(items[i := w.slot]);
      case _ =>
    }
  }

  /** As written, the read misses a list element that was written: after
      `/path` holds `["zero", "one"]`, `/path:0` is not found and `/path:2`
      throws, where the intended read finds "zero" and reports not found. */
  lemma GetNestedMissesWrittenElement()
    ensures var list := Arr([Str("zero"), Str("one")]);
      var stored := PutTree(Null, [ObjectKey("path")], list);
      && stored == Put(Obj(map["path" := list]), Normal(true))
      && GetNested(stored.slot, [ObjectKey("path"), ArrayKey(0)]) == Normal(NotFound)
      && GetNested(stored.slot, [ObjectKey("path"), ArrayKey(2)]) == Thrown(IndexOutOfBounds(2))
      && GetNestedIntended(stored.slot, [ObjectKey("path"), ArrayKey(0)]) == Normal(GetResult(true, Str("zero")))
      && GetNestedIntended(stored.slot, [ObjectKey("path"), ArrayKey(2)]) == Normal(NotFound)
  {
    var list := Arr([Str("zero"), Str("one")]);
    assert [ObjectKey("path")][1..] == [];
    var at0 := [ObjectKey("path"), ArrayKey(0)];
    var at2 := [ObjectKey("path"), ArrayKey(2)];
    assert at0[1..] == [ArrayKey(0)] && at0[1..][1..] == [];
    assert at2[1..] == [ArrayKey(2)] && at2[1..][1..] == [];
    assert Wrap32(0 + 1) == 1 && Wrap32(2 + 1) == 3;
  }

  // ---------------------------------------------------------------------------
  // Accessors

  /** `Accessor`: one readable and writable slot. `ArbitraryAccessor` is the
      whole store (`{ store }`, `::setStore`). `MapAccessor` and
      `ListAccessor` hold the map or list that the `owner` accessor's slot
      holds, and a key or index into it. */
  datatype Accessor =
    | ArbitraryAccessor
    | MapAccessor(owner: Accessor, key: string)
    | ListAccessor(owner: Accessor, index: Int32)

  /** `accessor.get()`: `store`, `map[key]`, `list.getOrNull(index)`. */
  function AccessorGet(store: Json, a: Accessor): Json
    decreases a
  {
    match a
    case ArbitraryAccessor => store
    case MapAccessor(owner, key) =>
      var m := AccessorGet(store, owner);
      if m.Obj? then Field(m.fields, key) else Null
    case ListAccessor(owner, index) =>
      var l := AccessorGet(store, owner);
      if l.Arr? && 0 <= index < |l.items| then l.items[index] else Null
  }

  /** The accessor refers to a map or list that is in the store now. */
  predicate Valid(store: Json, a: Accessor)
    decreases a
  {
    match a
    case ArbitraryAccessor => true
    case MapAccessor(owner, _) => Valid(store, owner) && AccessorGet(store, owner).Obj?
    case ListAccessor(owner, _) => Valid(store, owner) && AccessorGet(store, owner).Arr?
  }

  /** An accessor whose owner is gone, or is not a map or list, reads null. */
  lemma {:induction false} InvalidReadsNull(store: Json, a: Accessor)
    ensures !Valid(store, a) ==> AccessorGet(store, a) == Null
    decreases a
  {
    match a
    case ArbitraryAccessor =>
    case MapAccessor(owner, _) => InvalidReadsNull(store, owner);
    case ListAccessor(owner, _) => InvalidReadsNull(store, owner);
  }

  /** A write through the accessor does not throw: only a list slot whose
      index is negative or past the end does. */
  predicate Settable(store: Json, a: Accessor)
    requires Valid(store, a)
  {
    a.ListAccessor? ==> 0 <= a.index <= |AccessorGet(store, a.owner).items|
  }

  /** `accessor.set(value)`, as the store it leaves: `setStore(value)`,
      `map[key] = value`, and for a list `add` at the end, replace below the
      end, throw otherwise. The change to a map or list inside the tree is
      the change to the slot that holds it. */
  function AccessorSet(store: Json, a: Accessor, v: Json): (r: Outcome<Json>)
    requires Valid(store, a)
    ensures r.Thrown? ==> r.exception.IndexOutOfBounds?
    decreases a
  {
    match a
    case ArbitraryAccessor => Normal(v)
    case MapAccessor(owner, key) =>
      var m := AccessorGet(store, owner);
      AccessorSet(store, owner, Obj(m.fields[key := v]))
    case ListAccessor(owner, index) =>
      var items := AccessorGet(store, owner).items;
      if index == |items| then AccessorSet(store, owner, Arr(items + [v]))
      else if 0 <= index < |items| then AccessorSet(store, owner, Arr(items[index := v]))
      else Thrown(IndexOutOfBounds(index))
  }

  /** A write through an accessor throws exactly when the accessor is not
      settable, and then with its index. */
  lemma {:induction false} SetOutcome(store: Json, a: Accessor, v: Json)
    requires Valid(store, a)
    ensures AccessorSet(store, a, v).Normal? <==> Settable(store, a)
    ensures !Settable(store, a) ==> AccessorSet(store, a, v) == Thrown(IndexOutOfBounds(a.index))
    decreases a
  {
    match a
    case ArbitraryAccessor =>
    case MapAccessor(owner, key) =>
      var m := AccessorGet(store, owner);
      OwnerSettable(store, owner);
      SetOutcome(store, owner, Obj(m.fields[key := v]));
    case ListAccessor(owner, index) =>
      var items := AccessorGet(store, owner).items;
      OwnerSettable(store, owner);
      if index == |items| {
        SetOutcome(store, owner, Arr(items + [v]));
      } else if 0 <= index < |items| {
        SetOutcome(store, owner, Arr(items[index := v]));
      }
  }

  /** A slot that holds a value exists, so writing it does not throw. */
  lemma OwnerSettable(store: Json, a: Accessor)
    requires Valid(store, a) && AccessorGet(store, a) != Null
    ensures Settable(store, a)
  {
  }

  /** What is written through an accessor is read back through it, and the
      accessor still refers to the same kind of containers. */
  lemma {:induction false} SetThenGet(store: Json, a: Accessor, v: Json)
    requires Valid(store, a)
    requires AccessorSet(store, a, v).Normal?
    ensures Valid(AccessorSet(store, a, v).value, a)
    ensures AccessorGet(AccessorSet(store, a, v).value, a) == v
    decreases a
  {
    match a
    case ArbitraryAccessor =>
    case MapAccessor(owner, key) =>
      var m := AccessorGet(store, owner);
      SetThenGet(store, owner, Obj(m.fields[key := v]));
    case ListAccessor(owner, index) =>
      var items := AccessorGet(store, owner).items;
      if index == |items| {
        SetThenGet(store, owner, Arr(items + [v]));
      } else {
        SetThenGet(store, owner, Arr(items[index := v]));
      }
  }

  /** A second write through the same accessor replaces the first. */
  lemma {:induction false} SetTwice(store: Json, a: Accessor, v: Json, w: Json)
    requires Valid(store, a)
    requires AccessorSet(store, a, v).Normal?
    ensures Valid(AccessorSet(store, a, v).value, a)
    ensures AccessorSet(AccessorSet(store, a, v).value, a, w) == AccessorSet(store, a, w)
    decreases a
  {
    SetThenGet(store, a, v);
    var after := AccessorSet(store, a, v).value;
    match a
    case ArbitraryAccessor =>
    case MapAccessor(owner, key) =>
      var m := AccessorGet(store, owner);
      var m1 := Obj(m.fields[key := v]);
      SetThenGet(store, owner, m1);
      assert AccessorGet(after, owner) == m1;
      assert m1.fields[key := w] == m.fields[key := w];
      SetTwice(store, owner, m1, Obj(m.fields[key := w]));
    case ListAccessor(owner, index) =>
      var items := AccessorGet(store, owner).items;
      var l1 := if index == |items| then Arr(items + [v]) else Arr(items[index := v]);
      SetThenGet(store, owner, l1);
      assert AccessorGet(after, owner) == l1;
      if index == |items| {
        assert l1.items[index := w] == items + [w];
        SetTwice(store, owner, l1, Arr(items + [w]));
      } else {
        assert l1.items[index := w] == items[index := w];
        SetTwice(store, owner, l1, Arr(items[index := w]));
      }
  }

  /** Writing back what a slot already holds changes nothing. */
  lemma {:induction false} SetSameValue(store: Json, a: Accessor)
    requires Valid(store, a)
    requires AccessorGet(store, a) != Null
    ensures AccessorSet(store, a, AccessorGet(store, a)) == Normal(store)
    decreases a
  {
    match a
    case ArbitraryAccessor =>
    case MapAccessor(owner, key) =>
      var m := AccessorGet(store, owner);
      assert m.fields[key := m.fields[key]] == m.fields;
      SetSameValue(store, owner);
    case ListAccessor(owner, index) =>
      var items := AccessorGet(store, owner).items;
      assert items[index := items[index]] == items;
      SetSameValue(store, owner);
  }

  /** After the owner's slot receives the map `c`, a write of `v` under `key`
      is the owner's slot receiving `c` with `key` set to `v`. */
  lemma FieldThroughOwner(store: Json, owner: Accessor, c: Json, key: string, v: Json)
    requires Valid(store, owner) && c.Obj? && AccessorSet(store, owner, c).Normal?
    ensures var mid := AccessorSet(store, owner, c).value;
      Valid(mid, MapAccessor(owner, key))
      && AccessorGet(mid, MapAccessor(owner, key)) == Field(c.fields, key)
      && AccessorSet(mid, MapAccessor(owner, key), v) == AccessorSet(store, owner, Obj(c.fields[key := v]))
  {
    SetThenGet(store, owner, c);
    SetTwice(store, owner, c, Obj(c.fields[key := v]));
  }

  /** After the owner's slot receives the list `c`, a write of `v` at an index
      from 0 to its length is the owner's slot receiving `c` with that element
      replaced, or with `v` appended. */
  lemma ItemThroughOwner(store: Json, owner: Accessor, c: Json, index: Int32, v: Json)
    requires Valid(store, owner) && c.Arr? && AccessorSet(store, owner, c).Normal?
    requires 0 <= index <= |c.items|
    ensures var mid := AccessorSet(store, owner, c).value;
      Valid(mid, ListAccessor(owner, index))
      && Settable(mid, ListAccessor(owner, index))
      && AccessorGet(mid, ListAccessor(owner, index)) == (if index < |c.items| then c.items[index] else Null)
      && AccessorSet(mid, ListAccessor(owner, index), v)
         == AccessorSet(store, owner, Arr(if index < |c.items| then c.items[index := v] else c.items + [v]))
  {
    SetThenGet(store, owner, c);
    SetTwice(store, owner, c, Arr(if index < |c.items| then c.items[index := v] else c.items + [v]));
  }
}
