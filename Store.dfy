/** The store itself: one JSON tree, changed in place by PUT and PATCH and
    read by GET, behind `process` (server/.../InMemoryHttpJson.kt), with the
    `HttpResult` record it answers with (server/.../HttpResult.kt). */
module Store {
  import opened Outcomes
  import opened KotlinText
  import opened Methods
  import opened JsonTree
  import opened Paths

  /** A response body: plain text, or the JSON value that
      `writeValueAsString` turns into text. */
  datatype Body = Text(text: string) | JsonText(value: Json)

  /** `HttpResult(statusCode, body, headers)`; headers default to none. */
  datatype HttpResult = HttpResult(statusCode: int, body: Body, headers: map<string, seq<string>>)

  const Written: HttpResult := HttpResult(200, Text(""), map[])
  const Conflict: HttpResult := HttpResult(409, Text("Conflict"), map[])
  const Missing: HttpResult := HttpResult(404, Text("Not Found"), map[])

  /** The answer to an unsupported verb, with every supported verb in `Allow`. */
  function MethodNotAllowed(): HttpResult {
    HttpResult(405, Text("Method Not Allowed"), map["Allow" := [AllowHeader()]])
  }

  /** The tree after a request, and the response or the exception. */
  datatype Exchange = Exchange(store: Json, response: Outcome<HttpResult>)

  /** `get(path)`: found is 200 with the value, not found is 404. */
  function GetResponse(store: Json, path: string, decode: string -> string): (r: Outcome<HttpResult>)
    ensures r.Normal? ==> r.value == Missing || (r.value.statusCode == 200 && r.value.body.JsonText?)
    ensures r.Thrown? && r.exception.NumberFormat? ==> Split(path, decode).Thrown?
  {
    match Split(path, decode)
    case Thrown(e) => Thrown(e)
    case Normal(keys) =>
      match GetNested(store, keys)
      case Thrown(e) => Thrown(e)
      case Normal(GetResult(found, value)) =>
        Normal(if found then HttpResult(200, JsonText(value), map[]) else Missing)
  }

  /** `put(path, json)` and `patch(path, json)`: the path is parsed before the
      tree is touched; then the write, answered 200 or 409. */
  function WriteExchange(store: Json, path: string, json: Json, decode: string -> string): (r: Exchange)
    ensures r.response.Normal? ==> r.response.value == Written || r.response.value == Conflict
    ensures Split(path, decode).Thrown? ==> r.store == store && r.response.Thrown?
    ensures r.response.Thrown? && r.response.exception.IndexOutOfBounds? ==> r.response.exception.index < 0
  {
    match Split(path, decode)
    case Thrown(e) => Exchange(store, Thrown(e))
    case Normal(keys) =>
      var w := PutTree(store, keys, json);
      Exchange(w.slot,
        match w.outcome
        case Thrown(e) => Thrown(e)
        case Normal(ok) => Normal(if ok then Written else Conflict))
  }

  /** `process(method, path, json)`. */
  function Respond(store: Json, verb: string, path: string, json: Json, decode: string -> string): (r: Exchange)
    ensures Supported(verb) != Some(PUT) && Supported(verb) != Some(PATCH) ==> r.store == store
  {
    match Supported(verb)
    case Some(GET) => Exchange(store, GetResponse(store, path, decode))
    case Some(PUT) => WriteExchange(store, path, json, decode)
    case Some(PATCH) => WriteExchange(store, path, json, decode)
    case None => Exchange(store, Normal(MethodNotAllowed()))
  }

  /** `class InMemoryHttpJson`: the tree lives in `store`, starts as null, and
      every write goes through an accessor into it. */
  class InMemoryHttpJson {
    var store: Json

    constructor()
      ensures store == Null
    {
      store := Null;
    }

    method Process(verb: string, path: string, json: Json, decode: string -> string)
      returns (r: Outcome<HttpResult>)
      modifies this
      ensures Exchange(store, r) == Respond(old(store), verb, path, json, decode)
    {
      match Supported(verb)
      case Some(GET) => r := GetResponse(store, path, decode);
      case Some(PUT) => r := Put(path, json, decode);
      case Some(PATCH) => r := Patch(path, json, decode);
      case None => r := Normal(MethodNotAllowed());
    }

    method Put(path: string, json: Json, decode: string -> string) returns (r: Outcome<HttpResult>)
      modifies this
      ensures Exchange(store, r) == WriteExchange(old(store), path, json, decode)
    {
      var keys := Split(path, decode);
      if keys.Thrown? {
        return Thrown(keys.exception);
      }
      var ok := PutNested(ArbitraryAccessor, keys.value, json);
      r := Answer(ok);
    }

    method Patch(path: string, json: Json, decode: string -> string) returns (r: Outcome<HttpResult>)
      modifies this
      ensures Exchange(store, r) == WriteExchange(old(store), path, json, decode)
    {
      var keys := Split(path, decode);
      if keys.Thrown? {
        return Thrown(keys.exception);
      }
      var ok := PatchNested(ArbitraryAccessor, keys.value, json);
      r := Answer(ok);
    }

    /** `accessor.set(value)`: throws, and changes nothing, only for a list
      slot that is negative or past the end. */
    method Set(a: Accessor, v: Json) returns (r: Outcome<()>)
      requires Valid(store, a)
      modifies this
      ensures Settable(old(store), a) ==> r == Normal(()) && AccessorSet(old(store), a, v) == Normal(store)
      ensures !Settable(old(store), a) ==> r == Thrown(IndexOutOfBounds(a.index)) && store == old(store)
    {
      SetOutcome(store, a, v);
      match AccessorSet(store, a, v)
      case Normal(after) =>
        store := after;
        r := Normal(());
      case Thrown(e) =>
        r := Thrown(e);
    }

    /** `getAndSetIfNull(accessor, ifNull)`: a null slot receives `ifNull`
      (which may throw); a non-null slot is returned as it is. */
    method GetAndSetIfNull(a: Accessor, ifNull: Json) returns (r: Outcome<Json>)
      requires Valid(store, a) && ifNull != Null
      modifies this
      ensures AccessorGet(old(store), a) != Null ==>
        r == Normal(AccessorGet(old(store), a)) && store == old(store)
      ensures AccessorGet(old(store), a) == Null && Settable(old(store), a) ==>
        r == Normal(ifNull) && AccessorSet(old(store), a, ifNull) == Normal(store)
      ensures AccessorGet(old(store), a) == Null && !Settable(old(store), a) ==>
        r == Thrown(IndexOutOfBounds(a.index)) && store == old(store)
    {
      var value := AccessorGet(store, a);
      if value == Null {
        var done := Set(a, ifNull);
        r := if done.Thrown? then Thrown(done.exception) else Normal(ifNull);
      } else {
        r := Normal(value);
      }
    }

    /** `putNested(accessor, path, json)`: the write along `path` from the
      accessor's slot, in place; what it leaves is `PutTree` of that slot,
      written back through the accessor. */
    method PutNested(a: Accessor, path: seq<StructureKey>, json: Json) returns (r: Outcome<bool>)
      requires Valid(store, a)
      modifies this
      ensures Settable(old(store), a) ==>
        var w := PutTree(AccessorGet(old(store), a), path, json);
        r == w.outcome && AccessorSet(old(store), a, w.slot) == Normal(store)
      ensures !Settable(old(store), a) ==> r == Thrown(IndexOutOfBounds(a.index)) && store == old(store)
      decreases |path|, 1
    {
      if |path| == 0 {
        var done := Set(a, json);
        r := if done.Thrown? then Thrown(done.exception) else Normal(true);
        return;
      }
      ghost var before := store;
      match path[0]
      case ObjectKey(field) =>
        var structure := GetAndSetIfNull(a, Obj(map[]));
        if structure.Thrown? {
          return Thrown(structure.exception);
        }
        Vivified(before, a, structure.value);
        if structure.value.Obj? {
          ghost var mid := store;
          FieldThroughOwner(before, a, structure.value, field,
            PutTree(AccessorGet(mid, MapAccessor(a, field)), path[1..], json).slot);
          r := PutNested(MapAccessor(a, field), path[1..], json);
        } else {
          r := Normal(false);
        }
      case ArrayKey(index) =>
        var structure := GetAndSetIfNull(a, Arr([]));
        if structure.Thrown? {
          return Thrown(structure.exception);
        }
        Vivified(before, a, structure.value);
        if structure.value.Arr? {
          if index > |structure.value.items| {
            r := Normal(false);
          } else {
            if 0 <= index {
              ghost var mid := store;
              ItemThroughOwner(before, a, structure.value, index,
                PutTree(AccessorGet(mid, ListAccessor(a, index)), path[1..], json).slot);
            }
            r := PutNested(ListAccessor(a, index), path[1..], json);
          }
        } else {
          r := Normal(false);
        }
    }

    /** `patchNested(accessor, path, json)`: a copy of `putNested` whose
      recursive calls go to `putNested`, so a PATCH does what a PUT does. */
    method PatchNested(a: Accessor, path: seq<StructureKey>, json: Json) returns (r: Outcome<bool>)
      requires Valid(store, a)
      modifies this
      ensures Settable(old(store), a) ==>
        var w := PutTree(AccessorGet(old(store), a), path, json);
        r == w.outcome && AccessorSet(old(store), a, w.slot) == Normal(store)
      ensures !Settable(old(store), a) ==> r == Thrown(IndexOutOfBounds(a.index)) && store == old(store)
    {
      if |path| == 0 {
        var done := Set(a, json);
        r := if done.Thrown? then Thrown(done.exception) else Normal(true);
        return;
      }
      ghost var before := store;
      match path[0]
      case ObjectKey(field) =>
        var structure := GetAndSetIfNull(a, Obj(map[]));
        if structure.Thrown? {
          return Thrown(structure.exception);
        }
        Vivified(before, a, structure.value);
        if structure.value.Obj? {
          ghost var mid := store;
          FieldThroughOwner(before, a, structure.value, field,
            PutTree(AccessorGet(mid, MapAccessor(a, field)), path[1..], json).slot);
          r := PutNested(MapAccessor(a, field), path[1..], json);
        } else {
          r := Normal(false);
        }
      case ArrayKey(index) =>
        var structure := GetAndSetIfNull(a, Arr([]));
        if structure.Thrown? {
          return Thrown(structure.exception);
        }
        Vivified(before, a, structure.value);
        if structure.value.Arr? {
          if index > |structure.value.items| {
            r := Normal(false);
          } else {
            if 0 <= index {
              ghost var mid := store;
              ItemThroughOwner(before, a, structure.value, index,
                PutTree(AccessorGet(mid, ListAccessor(a, index)), path[1..], json).slot);
            }
            r := PutNested(ListAccessor(a, index), path[1..], json);
          }
        } else {
          r := Normal(false);
        }
    }
  }

  /** The response to a write's result. */
  function Answer(ok: Outcome<bool>): Outcome<HttpResult> {
    match ok
    case Thrown(e) => Thrown(e)
    case Normal(true) => Normal(Written)
    case Normal(false) => Normal(Conflict)
  }

  /** The slot, after `getAndSetIfNull`, holds the container it returned,
      and the accessor still refers to it. */
  lemma Vivified(before: Json, a: Accessor, c: Json)
    requires Valid(before, a)
    requires c != Null
    requires AccessorGet(before, a) == Null ==> Settable(before, a)
    requires AccessorGet(before, a) != Null ==> c == AccessorGet(before, a)
    ensures AccessorSet(before, a, c).Normal?
    ensures Valid(AccessorSet(before, a, c).value, a)
    ensures AccessorGet(AccessorSet(before, a, c).value, a) == c
    ensures AccessorGet(before, a) != Null ==> AccessorSet(before, a, c) == Normal(before)
  {
    if AccessorGet(before, a) != Null {
      OwnerSettable(before, a);
      SetSameValue(before, a);
    }
    SetOutcome(before, a, c);
    SetThenGet(before, a, c);
  }

  // ---------------------------------------------------------------------------
  // Requests

  /** The 405 answer: its `Allow` header lists GET, PATCH and PUT. */
  lemma MethodNotAllowedAllows()
    ensures MethodNotAllowed() == HttpResult(405, Text("Method Not Allowed"), map["Allow" := ["GET, PATCH, PUT"]])
  {
    assert AllowHeader() == "GET, PATCH, PUT";
  }

  /** A verb whose trimmed, upper-cased form is not GET, PATCH or PUT is
      answered 405 and leaves the tree untouched. */
  lemma UnsupportedIs405(store: Json, verb: string, path: string, json: Json, decode: string -> string)
    requires ToUpper(Trim(verb)) !in {"GET", "PATCH", "PUT"}
    ensures Respond(store, verb, path, json, decode) == Exchange(store, Normal(MethodNotAllowed()))
  {
    SupportedIff(verb, GET);
  }

  /** No other verb is answered 405: GET answers 200 or 404, PUT and PATCH
      answer 200 or 409, when they do not throw. */
  lemma Only405WhenUnsupported(store: Json, verb: string, path: string, json: Json, decode: string -> string)
    requires Supported(verb).Some?
    ensures var r := Respond(store, verb, path, json, decode).response;
      r.Normal? ==> r.value.statusCode in {200, 404, 409}
  {
    var m := Supported(verb).value;
    var r := Respond(store, verb, path, json, decode).response;
    if m == GET {
      var g := GetResponse(store, path, decode);
      assert r == g by {}
      assert Missing.statusCode == 404;
    } else {
      var w := WriteExchange(store, path, json, decode).response;
      assert r == w by {}
      assert Written.statusCode == 200 && Conflict.statusCode == 409;
    }
  }

  /** A write answers 200 exactly when the tree admits the path, and then
      it also answers nothing else. */
  lemma WriteStatus(store: Json, path: string, json: Json, decode: string -> string)
    requires Split(path, decode).Normal?
    ensures WriteExchange(store, path, json, decode).response == Normal(Written)
        <==> Admits(store, Split(path, decode).value)
  {
    PutSucceedsIff(store, Split(path, decode).value, json);
  }

  /** A path that does not parse throws before the tree is touched, for
      every supported verb. */
  lemma MalformedPathChangesNothing(store: Json, verb: string, path: string, json: Json, decode: string -> string)
    requires Supported(verb).Some? && Split(path, decode).Thrown?
    ensures Respond(store, verb, path, json, decode) == Exchange(store, Thrown(Split(path, decode).exception))
  {
  }

  /** `/name:index` with an index part that is not an `Int` throws
      `NumberFormatException` for that part, and the tree is untouched. */
  lemma BadIndexThrows(store: Json, verb: string, name: string, index: string, json: Json, decode: string -> string)
    requires Supported(verb).Some?
    requires name != "" && '/' !in name && ':' !in name && '/' !in index && ':' !in index
    requires ParseInt(index).None?
    ensures Respond(store, verb, "/" + name + ":" + index, json, decode)
         == Exchange(store, Thrown(NumberFormat(index)))
  {
    BadIndexSplit(name, index, decode);
    MalformedPathChangesNothing(store, verb, "/" + name + ":" + index, json, decode);
  }

  /** A write that does not answer 200 leaves the same tree and the same
      answer whatever value it carried: the value is never written. */
  lemma FailedWriteIgnoresValue(store: Json, path: string, json: Json, other: Json, decode: string -> string)
    requires WriteExchange(store, path, json, decode).response != Normal(Written)
    ensures WriteExchange(store, path, other, decode) == WriteExchange(store, path, json, decode)
  {
    if Split(path, decode).Normal? {
      FailedPutIgnoresValue(store, Split(path, decode).value, json, other);
    }
  }

  /** Repeating a write changes nothing further and answers the same. */
  lemma WriteIdempotent(store: Json, path: string, json: Json, decode: string -> string)
    ensures var once := WriteExchange(store, path, json, decode);
      WriteExchange(once.store, path, json, decode) == once
  {
    if Split(path, decode).Normal? {
      PutIdempotent(store, Split(path, decode).value, json);
    }
  }

  /** After a PUT or PATCH answered 200 on a path with no index parts, a GET
      of that path answers 200 with the value written. */
  lemma PutThenGet(store: Json, write: string, read: string, path: string, json: Json, body: Json, decode: string -> string)
    requires Supported(write) == Some(PUT) || Supported(write) == Some(PATCH)
    requires Supported(read) == Some(GET)
    requires ':' !in path
    requires Respond(store, write, path, json, decode).response == Normal(Written)
    ensures var after := Respond(store, write, path, json, decode).store;
      Respond(after, read, path, body, decode) == Exchange(after, Normal(HttpResult(200, JsonText(json), map[])))
  {
    SplitWithoutColons(path, decode);
    var keys := Split(path, decode).value;
    var e := WriteExchange(store, path, json, decode);
    assert Respond(store, write, path, json, decode) == e by {}
    assert PutTree(store, keys, json).outcome == Normal(true);
    PutThenGetFields(store, keys, json);
    assert GetResponse(e.store, path, decode) == Normal(HttpResult(200, JsonText(json), map[]));
    assert Respond(e.store, read, path, body, decode) == Exchange(e.store, GetResponse(e.store, path, decode)) by {}
  }

  /** A PUT of a path of two field names into the empty store builds both
      maps. */
  lemma TwoFieldPutIntoEmptyStore(write: string, path: string, f: string, g: string, json: Json, decode: string -> string)
    requires Supported(write) == Some(PUT) || Supported(write) == Some(PATCH)
    requires Split(path, decode) == Normal([ObjectKey(f), ObjectKey(g)])
    ensures Respond(Null, write, path, json, decode)
         == Exchange(Obj(map[f := Obj(map[g := json])]), Normal(Written))
  {
    PutTwoFieldsIntoNull(f, g, json);
    assert Respond(Null, write, path, json, decode) == WriteExchange(Null, path, json, decode) by {}
  }

  /** A GET of `/` answers the whole tree. */
  lemma RootGet(store: Json, read: string, body: Json, decode: string -> string)
    requires Supported(read) == Some(GET)
    ensures Respond(store, read, "/", body, decode) == Exchange(store, Normal(HttpResult(200, JsonText(store), map[])))
  {
    RootPath(decode);
    assert Respond(store, read, "/", body, decode) == Exchange(store, GetResponse(store, "/", decode)) by {}
  }

  /** The store's own example: a PUT of `/nested/path/` into a new store,
      then a GET of `/` (any spelling of the verbs that `Supported` accepts,
      `"PUT"` and `"GET"` among them by `SupportedName`). */
  lemma NestedPathExample(write: string, read: string, json: Json, decode: string -> string)
    requires Supported(write) == Some(PUT) && Supported(read) == Some(GET)
    ensures var tree := Obj(map[decode("nested") := Obj(map[decode("path") := json])]);
      Respond(Null, write, "/nested/path/", json, decode) == Exchange(tree, Normal(Written))
      && Respond(tree, read, "/", Str(""), decode) == Exchange(tree, Normal(HttpResult(200, JsonText(tree), map[])))
  {
    var tree := Obj(map[decode("nested") := Obj(map[decode("path") := json])]);
    NestedPathWithTrailingSlash(decode);
    TwoFieldPutIntoEmptyStore(write, "/nested/path/", decode("nested"), decode("path"), json, decode);
    RootGet(tree, read, Str(""), decode);
  }

  /** Extra slashes are dropped: a PUT of `///nested///path///` builds the
      same tree. */
  lemma ExtraDelimitersExample(write: string, json: Json, decode: string -> string)
    requires Supported(write) == Some(PUT)
    ensures var tree := Obj(map[decode("nested") := Obj(map[decode("path") := json])]);
      Respond(Null, write, "///nested///path///", json, decode) == Exchange(tree, Normal(Written))
  {
    SplitNestedPath(decode);
    TwoFieldPutIntoEmptyStore(write, "///nested///path///", decode("nested"), decode("path"), json, decode);
  }

  /** A GET of a path of two field names from the tree holding the value
      under them answers the value. */
  lemma TwoFieldGet(read: string, path: string, f: string, g: string, json: Json, body: Json, decode: string -> string)
    requires Supported(read) == Some(GET)
    requires Split(path, decode) == Normal([ObjectKey(f), ObjectKey(g)])
    ensures var tree := Obj(map[f := Obj(map[g := json])]);
      Respond(tree, read, path, body, decode) == Exchange(tree, Normal(HttpResult(200, JsonText(json), map[])))
  {
    var keys := [ObjectKey(f), ObjectKey(g)];
    var tree := Obj(map[f := Obj(map[g := json])]);
    assert FieldsOnly(keys);
    PutTwoFieldsIntoNull(f, g, json);
    PutThenGetFields(Null, keys, json);
    assert GetResponse(tree, path, decode) == Normal(HttpResult(200, JsonText(json), map[]));
    assert Respond(tree, read, path, body, decode) == Exchange(tree, GetResponse(tree, path, decode)) by {}
  }

  /** After a PUT of `/nested/path/`, a GET of `/nested/path` answers the
      value. */
  lemma NestedPathGetExample(read: string, json: Json, decode: string -> string)
    requires Supported(read) == Some(GET)
    ensures var tree := Obj(map[decode("nested") := Obj(map[decode("path") := json])]);
      Respond(tree, read, "/nested/path", Str(""), decode) == Exchange(tree, Normal(HttpResult(200, JsonText(json), map[])))
  {
    SplitNestedPath(decode);
    TwoFieldGet(read, "/nested/path", decode("nested"), decode("path"), json, Str(""), decode);
  }
}
