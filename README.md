# An in-memory JSON store behind HTTP verbs, in Dafny

The server of `ubiquitous` keeps one JSON document in memory and serves it
over HTTP. `InMemoryHttpJson.process(method, path, json)` takes a verb, a
path and a body:

- **Verbs.** The verb is trimmed and upper-cased, then looked up among the
  `SupportedMethods` GET, PATCH and PUT. Any other verb is answered 405
  with an `Allow` header that lists the three.
- **Paths.** The path is split on `/`, and empty segments are dropped.
  Each segment `name:i:j…` becomes a URL-decoded field key followed by one
  index key per `:`-separated integer.
- **GET** walks the document along the keys. It answers 200 with the value
  found, or 404.
- **PUT and PATCH** write the value at the end of the path:
  - A null slot met on the way becomes an empty map (before a field key)
    or an empty list (before an index key). The new container stays even
    if the write then fails.
  - An index equal to a list's length appends, and a smaller one replaces.
  - A value of the wrong shape, or an index past the end, is answered 409
    `Conflict`. A success is answered 200.
  - Writes go through small `Accessor` objects that read and write one
    slot: the whole store, a map entry or a list element.

The model has six modules:

| Module | File | Contents |
|---|---|---|
| `Outcomes` | `Outcomes.dfy` | `Option`, the two exceptions the core can throw, and `Outcome` (a value or a thrown exception) |
| `KotlinText` | `KotlinText.dfy` | The Kotlin library behaviour the core relies on: `split`, `filter { isNotEmpty() }`, `trim`, `toUpperCase`, `toInt`, and `Int` wrap-around |
| `Methods` | `SupportedMethods.dfy` | The enum, its lookup table and `supported` |
| `JsonTree` | `JsonTree.dfy` | The JSON value (`Json`); `getNested` as written; `PutTree`, the write along a path as a value-level specification; the accessors as functions on an `Accessor` chain |
| `Paths` | `Paths.dfy` | `split(path)` |
| `Store` | `Store.dfy` | The class `InMemoryHttpJson`, and `Respond`, the request/response specification its methods are proved against |

Design choices in the model:

- **The document is a value.** The class's `store` field holds a `Json`
  value, which the methods reassign. An in-place change to a map or list
  inside the document is modelled as a rebuild of the path from the root
  down to that container (`AccessorSet`). In the source, every container
  comes from the parser or from vivification and sits in exactly one slot,
  so there is no aliasing to lose.
- **PUT and PATCH do the same thing.** `patchNested` is a copy of
  `putNested` whose recursive calls go to `putNested`
  (InMemoryHttpJson.kt:219 and :246), so PATCH writes exactly as PUT does.
  It does not merge.
- **Status codes follow the code.** A successful PUT or PATCH is answered
  200 with an empty body, not 201 or 204.
- **Where the request path stays as written.** The list read at
  InMemoryHttpJson.kt:64 tests its bound the wrong way round (see
  Findings). `Respond` and `GetResponse` keep the read as written,
  because that is what a client of this server sees. The corrected read,
  and the round trip it completes, are proved beside it.

## Model

The source column gives paths relative to the repository root.

| member | source | states |
|---|---|---|
| KotlinText.Wrap32 | server/src/main/kotlin/com/github/spauck/ubiquitous/InMemoryHttpJson.kt:64 | `index + 1` on a Kotlin `Int`: the exact sum when it fits, otherwise the value congruent to it modulo 2^32 |
| KotlinText.SplitOn | server/src/main/kotlin/com/github/spauck/ubiquitous/InMemoryHttpJson.kt:112 | `split(c)` returns at least one part, and no part contains the separator |
| KotlinText.JoinSplit | server/src/main/kotlin/com/github/spauck/ubiquitous/InMemoryHttpJson.kt:112 | joining the parts of a split with the separator gives back the string: nothing is lost |
| KotlinText.SplitJoin | server/src/main/kotlin/com/github/spauck/ubiquitous/InMemoryHttpJson.kt:116 | splitting a join of separator-free parts gives back the parts |
| KotlinText.SplitAround | server/src/main/kotlin/com/github/spauck/ubiquitous/InMemoryHttpJson.kt:112 | splitting `a + sep + b` is splitting `a`, then `b` |
| KotlinText.JoinWith | server/src/main/kotlin/com/github/spauck/ubiquitous/InMemoryHttpJson.kt:22 | `joinToString(sep)`; its contract is carried by `JoinSplit` and `SplitJoin`, which make it the inverse of `split` on separator-free parts |
| KotlinText.JoinWithParts | server/src/main/kotlin/com/github/spauck/ubiquitous/InMemoryHttpJson.kt:22 | a join is at least as long as its first part, and holds no character that is in neither a part nor the separator |
| KotlinText.NonEmpty | server/src/main/kotlin/com/github/spauck/ubiquitous/InMemoryHttpJson.kt:113 | `filter { it.isNotEmpty() }` keeps no empty segment |
| KotlinText.NonEmptyKeeps | server/src/main/kotlin/com/github/spauck/ubiquitous/InMemoryHttpJson.kt:113 | every segment kept by the filter was in its input |
| KotlinText.NonEmptyAppend | server/src/main/kotlin/com/github/spauck/ubiquitous/InMemoryHttpJson.kt:113 | the filter commutes with concatenation, so order is kept |
| KotlinText.TrimStart | server/src/main/kotlin/com/github/spauck/ubiquitous/SupportedMethods.kt:13 | the result is a suffix that starts with a non-whitespace character, and exactly whitespace was removed |
| KotlinText.TrimEnd | server/src/main/kotlin/com/github/spauck/ubiquitous/SupportedMethods.kt:13 | the result is a prefix that ends with a non-whitespace character, and exactly whitespace was removed |
| KotlinText.Trim | server/src/main/kotlin/com/github/spauck/ubiquitous/SupportedMethods.kt:13 | `trim()` never lengthens, and a non-empty result neither starts nor ends with whitespace; `TrimmedIsFixed`, `TrimIdempotent` and `TrimPadded` give the rest |
| KotlinText.TrimmedIsFixed | server/src/main/kotlin/com/github/spauck/ubiquitous/SupportedMethods.kt:13 | `trim()` leaves a string with no whitespace at either end unchanged |
| KotlinText.TrimIdempotent | server/src/main/kotlin/com/github/spauck/ubiquitous/SupportedMethods.kt:13 | trimming twice is trimming once |
| KotlinText.TrimStartPadded | server/src/main/kotlin/com/github/spauck/ubiquitous/SupportedMethods.kt:13 | leading whitespace is dropped whatever follows it |
| KotlinText.TrimEndPadded | server/src/main/kotlin/com/github/spauck/ubiquitous/SupportedMethods.kt:13 | trailing whitespace is dropped whatever precedes it |
| KotlinText.TrimStartAppend | server/src/main/kotlin/com/github/spauck/ubiquitous/SupportedMethods.kt:13 | trimming the front of `s + t` keeps `t` whole once `s` has a non-whitespace character, and trims `t` otherwise |
| KotlinText.TrimPadded | server/src/main/kotlin/com/github/spauck/ubiquitous/SupportedMethods.kt:13 | whitespace added at either end does not change the trim |
| KotlinText.ToUpper | server/src/main/kotlin/com/github/spauck/ubiquitous/SupportedMethods.kt:13 | `toUpperCase()` keeps the length and upper-cases each character |
| KotlinText.UpperCharWhitespace | server/src/main/kotlin/com/github/spauck/ubiquitous/SupportedMethods.kt:13 | upper-casing never makes or removes whitespace |
| KotlinText.TrimToUpper | server/src/main/kotlin/com/github/spauck/ubiquitous/SupportedMethods.kt:13 | trimming and upper-casing commute |
| KotlinText.TrimStartToUpper | server/src/main/kotlin/com/github/spauck/ubiquitous/SupportedMethods.kt:13 | trimming the front and upper-casing commute |
| KotlinText.TrimEndToUpper | server/src/main/kotlin/com/github/spauck/ubiquitous/SupportedMethods.kt:13 | trimming the back and upper-casing commute |
| KotlinText.ParseInt | server/src/main/kotlin/com/github/spauck/ubiquitous/InMemoryHttpJson.kt:124 | `toInt()` accepts only a non-empty optional sign followed by digits, and then gives their value, negated after `-`; every digit string whose value fits in an `Int` is accepted |
| KotlinText.NatDigits | server/src/main/kotlin/com/github/spauck/ubiquitous/InMemoryHttpJson.kt:124 | a natural number's decimal text is non-empty digits |
| KotlinText.Decimal | server/src/main/kotlin/com/github/spauck/ubiquitous/InMemoryHttpJson.kt:124 | an integer's decimal text is non-empty, starts with `-` exactly when the integer is negative, and is otherwise digits |
| KotlinText.NatDigitsValue | server/src/main/kotlin/com/github/spauck/ubiquitous/InMemoryHttpJson.kt:124 | the digits of `n` read back as `n` |
| KotlinText.ParseDecimal | server/src/main/kotlin/com/github/spauck/ubiquitous/InMemoryHttpJson.kt:124 | `toInt()` of an `Int`'s decimal text is that `Int`, for every `Int` including both extremes |
| Methods.AssociateByName | server/src/main/kotlin/com/github/spauck/ubiquitous/SupportedMethods.kt:11 | `associateBy { it.name }` has every value's name as a key, and maps each key to a value with that name |
| Methods.Values | server/src/main/kotlin/com/github/spauck/ubiquitous/SupportedMethods.kt:3-9 | `values()` lists GET, PATCH and PUT, each once |
| Methods.Lookup | server/src/main/kotlin/com/github/spauck/ubiquitous/SupportedMethods.kt:11 | the lookup table has every constant's name as a key, and maps each key to the constant with that name |
| Methods.Supported | server/src/main/kotlin/com/github/spauck/ubiquitous/SupportedMethods.kt:13 | a recognised verb's trimmed, upper-cased form is the name of the constant it is recognised as; `SupportedIff` gives both directions |
| Methods.Names | server/src/main/kotlin/com/github/spauck/ubiquitous/InMemoryHttpJson.kt:22 | the names of the enum values, in order |
| Methods.AllowHeader | server/src/main/kotlin/com/github/spauck/ubiquitous/InMemoryHttpJson.kt:22 | the `Allow` header is `GET, PATCH, PUT` |
| Methods.LookupIsByName | server/src/main/kotlin/com/github/spauck/ubiquitous/SupportedMethods.kt:3-11 | the lookup table's keys are exactly GET, PATCH and PUT, each mapped to its own constant |
| Methods.SupportedIff | server/src/main/kotlin/com/github/spauck/ubiquitous/SupportedMethods.kt:13 | a verb is recognised as `m` exactly when its trimmed, upper-cased form is `m`'s name, and it is rejected exactly when that form is none of the three names |
| Methods.SupportedName | server/src/main/kotlin/com/github/spauck/ubiquitous/SupportedMethods.kt:11-13 | each constant's own name is recognised as that constant |
| Methods.SupportedNormalised | server/src/main/kotlin/com/github/spauck/ubiquitous/SupportedMethods.kt:13 | normalising a verb first changes nothing |
| Methods.SupportedPadded | server/src/main/kotlin/com/github/spauck/ubiquitous/SupportedMethods.kt:13 | whitespace around a verb does not change whether or as what it is recognised |
| Methods.SupportedWord | server/src/main/kotlin/com/github/spauck/ubiquitous/SupportedMethods.kt:13 | a verb without surrounding whitespace whose upper-case form is a constant's name is that constant |
| Methods.SupportedLowerGet | server/src/main/kotlin/com/github/spauck/ubiquitous/SupportedMethods.kt:13 | `"get"` is GET |
| Methods.SupportedPaddedGet | server/src/main/kotlin/com/github/spauck/ubiquitous/SupportedMethods.kt:13 | `"get"` with any whitespace around it, `" get "` among them, is GET |
| Methods.SupportedMixedCasePatch | server/src/main/kotlin/com/github/spauck/ubiquitous/SupportedMethods.kt:13 | `"Patch"` is PATCH |
| JsonTree.GetNested | server/src/main/kotlin/com/github/spauck/ubiquitous/InMemoryHttpJson.kt:46-78 | `getNested` as written: not found always comes with null; only `IndexOutOfBoundsException` is thrown, and a path of field keys alone never throws; `GetNestedStep`, `GetNestedListStep` and `GetNestedAppend` give the rest |
| JsonTree.GetNestedStep | server/src/main/kotlin/com/github/spauck/ubiquitous/InMemoryHttpJson.kt:57-76 | a field step reads the field (a missing field as null); a key that does not fit the value's shape, null included, is not found |
| JsonTree.GetNestedListStep | server/src/main/kotlin/com/github/spauck/ubiquitous/InMemoryHttpJson.kt:62-71 | as written, an index below `size - 1` is not found; `size - 1` reads the element; a larger index throws; `Int.MAX_VALUE` is not found because `index + 1` wraps |
| JsonTree.GetNestedAppend | server/src/main/kotlin/com/github/spauck/ubiquitous/InMemoryHttpJson.kt:46-78 | reading along `p + q` is reading along `p`, then along `q` from what was found |
| JsonTree.PutTree | server/src/main/kotlin/com/github/spauck/ubiquitous/InMemoryHttpJson.kt:129-193 | a write along a path throws only `IndexOutOfBoundsException` for a negative index, and leaves null behind only when it wrote null at the root; `PutSucceedsIff`, `PutListSlot` and `PutThenGetIntended` give the rest |
| JsonTree.PutSucceedsIff | server/src/main/kotlin/com/github/spauck/ubiquitous/InMemoryHttpJson.kt:129-193 | a write succeeds exactly when every non-null value on the path has the shape its key asks for and every index lies between 0 and its list's length |
| JsonTree.FailedPutIgnoresValue | server/src/main/kotlin/com/github/spauck/ubiquitous/InMemoryHttpJson.kt:129-193 | a write that does not succeed leaves the same tree and outcome whatever value it carried |
| JsonTree.PutVivifies | server/src/main/kotlin/com/github/spauck/ubiquitous/InMemoryHttpJson.kt:147 | a null slot before a field key becomes a map, and before an index key a list |
| JsonTree.FailedPutKeepsContainers | server/src/main/kotlin/com/github/spauck/ubiquitous/InMemoryHttpJson.kt:165-177 | writing `/a:1` into an empty store is a conflict that leaves the new map and the new empty list behind |
| JsonTree.PutTwoFieldsIntoNull | server/src/main/kotlin/com/github/spauck/ubiquitous/InMemoryHttpJson.kt:144-160 | two field keys into null build a map holding a map holding the value |
| JsonTree.PutListSlot | server/src/main/kotlin/com/github/spauck/ubiquitous/InMemoryHttpJson.kt:172-185 | at a list, an index below the length replaces, the length appends, and past it is a conflict that changes nothing |
| JsonTree.PutWrongShape | server/src/main/kotlin/com/github/spauck/ubiquitous/InMemoryHttpJson.kt:159 | a non-null value of the wrong shape is a conflict that leaves it unchanged |
| JsonTree.PutIdempotent | server/src/main/kotlin/com/github/spauck/ubiquitous/InMemoryHttpJson.kt:129-193 | repeating a write changes nothing further and has the same outcome |
| JsonTree.PutLeavesOtherFields | server/src/main/kotlin/com/github/spauck/ubiquitous/InMemoryHttpJson.kt:144-160 | a write under field `f` of a map leaves every other field as it was |
| JsonTree.PutLeavesOtherItems | server/src/main/kotlin/com/github/spauck/ubiquitous/InMemoryHttpJson.kt:172-185 | a write under index `i` of a list leaves every other element as it was, and grows the list only when `i` is its length |
| JsonTree.OneStepFrame | server/src/main/kotlin/com/github/spauck/ubiquitous/InMemoryHttpJson.kt:129-193 | a write below one key of a non-null container does not change what the corrected read finds below any other key |
| JsonTree.PutLeavesOtherPaths | server/src/main/kotlin/com/github/spauck/ubiquitous/InMemoryHttpJson.kt:129-193 | a write along `common + [k1] + …` does not change what the corrected read finds along `common + [k2] + …` when `k1 != k2`, once `common` reaches a non-null value |
| JsonTree.PutThenGetFields | server/src/main/kotlin/com/github/spauck/ubiquitous/InMemoryHttpJson.kt:46-61 | after a successful write along field keys, the as-written read finds the value written |
| JsonTree.PutThenGetIntended | server/src/main/kotlin/com/github/spauck/ubiquitous/InMemoryHttpJson.kt:62-71 | with the corrected list bound, after a successful write along any path the read finds the value written |
| JsonTree.GetNestedIntended | server/src/main/kotlin/com/github/spauck/ubiquitous/InMemoryHttpJson.kt:62-71 | the corrected read never throws, and not found always comes with null |
| JsonTree.GetNestedMissesWrittenElement | server/src/main/kotlin/com/github/spauck/ubiquitous/InMemoryHttpJson.kt:64 | after `/path` holds `["zero","one"]`, the as-written read of `/path:0` is not found and of `/path:2` throws; the corrected read finds `"zero"`, and not found |
| JsonTree.AccessorGet | server/src/main/kotlin/com/github/spauck/ubiquitous/InMemoryHttpJson.kt:286-333 | `accessor.get()`; `InvalidReadsNull` and `SetThenGet` carry its contract |
| JsonTree.InvalidReadsNull | server/src/main/kotlin/com/github/spauck/ubiquitous/InMemoryHttpJson.kt:305-333 | an accessor whose owner is gone, or is not a map or list, reads null |
| JsonTree.AccessorSet | server/src/main/kotlin/com/github/spauck/ubiquitous/InMemoryHttpJson.kt:286-333 | `accessor.set(v)` throws only `IndexOutOfBoundsException`; `SetOutcome` says exactly when, and `SetThenGet` and `SetTwice` what it leaves |
| JsonTree.SetOutcome | server/src/main/kotlin/com/github/spauck/ubiquitous/InMemoryHttpJson.kt:325-332 | `set` throws exactly for a list index that is negative or past the end, and then with that index |
| JsonTree.OwnerSettable | server/src/main/kotlin/com/github/spauck/ubiquitous/InMemoryHttpJson.kt:323 | a slot that holds a non-null value can be written |
| JsonTree.SetThenGet | server/src/main/kotlin/com/github/spauck/ubiquitous/InMemoryHttpJson.kt:286-333 | after `set(v)` the accessor still refers to the slot and `get()` gives `v` |
| JsonTree.SetTwice | server/src/main/kotlin/com/github/spauck/ubiquitous/InMemoryHttpJson.kt:286-333 | two writes through one accessor leave what the second alone leaves |
| JsonTree.SetSameValue | server/src/main/kotlin/com/github/spauck/ubiquitous/InMemoryHttpJson.kt:305-333 | writing back a non-null value a slot holds changes nothing |
| JsonTree.FieldThroughOwner | server/src/main/kotlin/com/github/spauck/ubiquitous/InMemoryHttpJson.kt:305-316 | `map[key] = v` on the map in a slot is that slot receiving the map with `key` set |
| JsonTree.ItemThroughOwner | server/src/main/kotlin/com/github/spauck/ubiquitous/InMemoryHttpJson.kt:318-333 | `set` on the list in a slot is that slot receiving the list with the element replaced, or `v` appended |
| Paths.Split | server/src/main/kotlin/com/github/spauck/ubiquitous/InMemoryHttpJson.kt:111-127 | `split(path)` throws only `NumberFormatException`, and gives at least one key per non-empty segment; `SplitAppend` gives the keys of `p/q` as those of `p` then `q`, and `SplitIndexedSegment` the keys of `/name:i:j…` |
| Paths.SegmentKeys | server/src/main/kotlin/com/github/spauck/ubiquitous/InMemoryHttpJson.kt:114-126 | a segment gives its decoded name as a field key, then one index key per further `:`-separated part, or throws `NumberFormatException` |
| Paths.SegmentsKeys | server/src/main/kotlin/com/github/spauck/ubiquitous/InMemoryHttpJson.kt:114-126 | the segments give at least one key each, or throw `NumberFormatException`; `SegmentsKeysAppend` gives the keys of `a + b` as those of `a` then `b`, the first exception winning |
| Paths.SegmentsKeysAppend | server/src/main/kotlin/com/github/spauck/ubiquitous/InMemoryHttpJson.kt:114-126 | the `flatMap` over `a + b` is the keys of `a` followed by those of `b`, and throws the first exception met, in segment order |
| Paths.SplitAppend | server/src/main/kotlin/com/github/spauck/ubiquitous/InMemoryHttpJson.kt:111-127 | the keys of `p/q` are the keys of `p` followed by those of `q`, and it throws when either does, `p`'s exception first |
| Paths.SplitIndexedSegment | server/src/main/kotlin/com/github/spauck/ubiquitous/InMemoryHttpJson.kt:111-127 | `/name:i:j…`, for a name with no `/` or `:` and any `Int` indices in decimal, parses to the decoded name, then exactly those index keys in order |
| Paths.IndexKeys | server/src/main/kotlin/com/github/spauck/ubiquitous/InMemoryHttpJson.kt:117-125 | the index parts give keys exactly when each one parses, one `ArrayKey` per part with its value; otherwise the first one that fails throws `NumberFormatException` |
| Paths.Decimals | server/src/main/kotlin/com/github/spauck/ubiquitous/InMemoryHttpJson.kt:124 | one decimal text per index, in order |
| Paths.ArrayKeys | server/src/main/kotlin/com/github/spauck/ubiquitous/InMemoryHttpJson.kt:124 | one index key per index, in order |
| Paths.FieldKeys | server/src/main/kotlin/com/github/spauck/ubiquitous/InMemoryHttpJson.kt:120 | one field key per name, decoded, in order |
| Paths.SplitIgnoresDoubledSlash | server/src/main/kotlin/com/github/spauck/ubiquitous/InMemoryHttpJson.kt:112-113 | a doubled `/` parses like a single one |
| Paths.SplitIgnoresLeadingSlash | server/src/main/kotlin/com/github/spauck/ubiquitous/InMemoryHttpJson.kt:112-113 | a leading `/` changes nothing |
| Paths.SplitIgnoresTrailingSlash | server/src/main/kotlin/com/github/spauck/ubiquitous/InMemoryHttpJson.kt:112-113 | a trailing `/` changes nothing |
| Paths.SegmentWithIndices | server/src/main/kotlin/com/github/spauck/ubiquitous/InMemoryHttpJson.kt:114-126 | a segment `name:i:j…` written from a name and `Int`s parses back to the decoded name and exactly those indices |
| Paths.SplitWithoutColons | server/src/main/kotlin/com/github/spauck/ubiquitous/InMemoryHttpJson.kt:111-127 | a path without `:` never throws and gives exactly one field key per non-empty segment: the decoded segments, in order |
| Paths.SegmentsWithoutColons | server/src/main/kotlin/com/github/spauck/ubiquitous/InMemoryHttpJson.kt:114-126 | segments without `:` give exactly one field key each: the decoded segments, in order |
| Paths.PartOfSplit | server/src/main/kotlin/com/github/spauck/ubiquitous/InMemoryHttpJson.kt:112 | every character of a part of a split comes from the string split |
| Paths.FieldSegment | server/src/main/kotlin/com/github/spauck/ubiquitous/InMemoryHttpJson.kt:118-120 | a segment without `:` is one decoded field key |
| Paths.SplitNestedPath | server/src/test/kotlin/com/github/spauck/ubiquitous/InMemoryHttpJsonTest.kt:61-78 | `///nested///path///` parses as `/nested/path` does, to the keys `nested` and `path` |
| Paths.NestedPathWithTrailingSlash | server/src/test/kotlin/com/github/spauck/ubiquitous/InMemoryHttpJsonTest.kt:13 | `/nested/path/` parses to the keys `nested` and `path` |
| Paths.RootPath | server/src/test/kotlin/com/github/spauck/ubiquitous/InMemoryHttpJsonTest.kt:15 | `/` parses to no keys at all |
| Paths.BadIndexSplit | server/src/main/kotlin/com/github/spauck/ubiquitous/InMemoryHttpJson.kt:124 | `/name:index`, where the index part is not an `Int`, throws `NumberFormatException` for that part |
| Store.InMemoryHttpJson.constructor | server/src/main/kotlin/com/github/spauck/ubiquitous/InMemoryHttpJson.kt:10 | the store starts as null |
| Store.InMemoryHttpJson.Process | server/src/main/kotlin/com/github/spauck/ubiquitous/InMemoryHttpJson.kt:12-25 | the new store and the response are those of `Respond` on the old store |
| Store.InMemoryHttpJson.Put | server/src/main/kotlin/com/github/spauck/ubiquitous/InMemoryHttpJson.kt:80-91 | the new store and the response are those of `WriteExchange` |
| Store.InMemoryHttpJson.Patch | server/src/main/kotlin/com/github/spauck/ubiquitous/InMemoryHttpJson.kt:93-104 | the new store and the response are those of `WriteExchange`, as for PUT |
| Store.InMemoryHttpJson.Set | server/src/main/kotlin/com/github/spauck/ubiquitous/InMemoryHttpJson.kt:289-333 | `set` through an accessor leaves `AccessorSet`'s store, or throws with the index and changes nothing |
| Store.InMemoryHttpJson.GetAndSetIfNull | server/src/main/kotlin/com/github/spauck/ubiquitous/InMemoryHttpJson.kt:261-273 | a non-null slot is returned and nothing changes; a null slot receives the new container, or the set throws and nothing changes |
| Store.InMemoryHttpJson.PutNested | server/src/main/kotlin/com/github/spauck/ubiquitous/InMemoryHttpJson.kt:129-193 | the in-place write returns `PutTree`'s outcome for the accessor's slot and leaves `PutTree`'s slot written back through the accessor, or throws and changes nothing when the accessor cannot be written |
| Store.InMemoryHttpJson.PatchNested | server/src/main/kotlin/com/github/spauck/ubiquitous/InMemoryHttpJson.kt:195-259 | the same as `PutNested` |
| Store.GetResponse | server/src/main/kotlin/com/github/spauck/ubiquitous/InMemoryHttpJson.kt:27-44 | `get(path)` changes nothing and answers 200 with a JSON body or 404, and throws `NumberFormatException` only for a path that does not parse |
| Store.WriteExchange | server/src/main/kotlin/com/github/spauck/ubiquitous/InMemoryHttpJson.kt:80-104 | `put` and `patch` answer 200 or 409; a path that does not parse throws and leaves the store; an `IndexOutOfBoundsException` is only for a negative index |
| Store.Respond | server/src/main/kotlin/com/github/spauck/ubiquitous/InMemoryHttpJson.kt:12-25 | `process`: only PUT and PATCH change the store |
| Store.MethodNotAllowed | server/src/main/kotlin/com/github/spauck/ubiquitous/InMemoryHttpJson.kt:19-23 | the 405 answer; `MethodNotAllowedAllows` carries its contract |
| Store.MethodNotAllowedAllows | server/src/main/kotlin/com/github/spauck/ubiquitous/InMemoryHttpJson.kt:19-23 | the 405 answer carries `Allow: GET, PATCH, PUT` |
| Store.UnsupportedIs405 | server/src/main/kotlin/com/github/spauck/ubiquitous/InMemoryHttpJson.kt:14-23 | a verb that is not GET, PATCH or PUT after normalising is answered 405 and leaves the store unchanged |
| Store.Only405WhenUnsupported | server/src/main/kotlin/com/github/spauck/ubiquitous/InMemoryHttpJson.kt:12-25 | a supported verb is never answered 405, only 200, 404 or 409 |
| Store.WriteStatus | server/src/main/kotlin/com/github/spauck/ubiquitous/InMemoryHttpJson.kt:80-91 | a write of a parsed path answers 200 exactly when the store admits the path |
| Store.MalformedPathChangesNothing | server/src/main/kotlin/com/github/spauck/ubiquitous/InMemoryHttpJson.kt:83 | a path that does not parse throws before the store is touched |
| Store.BadIndexThrows | server/src/main/kotlin/com/github/spauck/ubiquitous/InMemoryHttpJson.kt:124 | `/name:index` with a non-`Int` index throws `NumberFormatException` and leaves the store unchanged |
| Store.FailedWriteIgnoresValue | server/src/main/kotlin/com/github/spauck/ubiquitous/InMemoryHttpJson.kt:80-91 | a PUT that is not answered 200 leaves the same store and answer whatever its body |
| Store.WriteIdempotent | server/src/main/kotlin/com/github/spauck/ubiquitous/InMemoryHttpJson.kt:80-91 | repeating a PUT changes nothing further and is answered the same |
| Store.PutThenGet | server/src/main/kotlin/com/github/spauck/ubiquitous/InMemoryHttpJson.kt:27-44 | after a PUT or PATCH on a path without `:` is answered 200, a GET of that path answers 200 with the value written |
| Store.TwoFieldPutIntoEmptyStore | server/src/main/kotlin/com/github/spauck/ubiquitous/InMemoryHttpJson.kt:144-160 | a PUT of a two-field path into the empty store builds both maps and is answered 200 |
| Store.RootGet | server/src/main/kotlin/com/github/spauck/ubiquitous/InMemoryHttpJson.kt:50-53 | a GET of `/` answers 200 with the whole store |
| Store.TwoFieldGet | server/src/main/kotlin/com/github/spauck/ubiquitous/InMemoryHttpJson.kt:57-61 | a GET of a two-field path answers the value held under those fields |
| Store.NestedPathExample | server/src/test/kotlin/com/github/spauck/ubiquitous/InMemoryHttpJsonTest.kt:10-27 | a PUT of `/nested/path/` into a new store, then a GET of `/`, answers `{"nested": {"path": value}}` |
| Store.NestedPathGetExample | server/src/test/kotlin/com/github/spauck/ubiquitous/InMemoryHttpJsonTest.kt:29-37 | after that PUT, a GET of `/nested/path` answers the value |
| Store.ExtraDelimitersExample | server/src/test/kotlin/com/github/spauck/ubiquitous/InMemoryHttpJsonTest.kt:61-78 | a PUT of `///nested///path///` builds the same tree |

## Left out

- **Parsing and serialising JSON.** Jackson's `readValue` (InMemoryHttpJson.kt:82, :95) and `writeValueAsString` (:34) are not modelled. A request body is a `Json` value, and a 200 answer to GET carries the `Json` value found. This leaves out:
  - the exception on a malformed body, which is thrown before the path is parsed;
  - numbers other than integers;
  - the order of object fields.
- **URL decoding.** `URLDecoder.decode` (:120) is the parameter `decode`. Its exception on a malformed escape is not modelled.
- ParseInt: accepts only ASCII digits. Kotlin's `toInt` also accepts other Unicode decimal digits.
- ToUpper: upper-cases only ASCII letters, and ignores the default locale that `toUpperCase()` uses.
- IsWhitespace: covers the ASCII and Unicode space characters that `trim()` removes. It is not Kotlin's full `isWhitespace` table.
- **Identity.** Containers inside the document are values, so the identity of a map or list, and any aliasing of it, are not modelled. No aliasing arises in the source.
- **The path queue.** The keys are a sequence. The `Deque` that `getNested` and `putNested` consume with `removeFirst` is not modelled.
- **Outside this model.** The `HttpJson` interface, the HTTP server, `Main` and the client are not part of this model.

## Findings

| source | as written | input that shows it | evidently intended | confidence | as-written member | corrected member |
|---|---|---|---|---|---|---|
| server/src/main/kotlin/com/github/spauck/ubiquitous/InMemoryHttpJson.kt:64 | A list is read only when `size <= index + 1`. Only the last element is read: a smaller index is not found, a larger one throws `IndexOutOfBoundsException`, and `Int.MAX_VALUE` wraps to a negative `index + 1` and is not found. | After a PUT of `["zero","one"]` to `/path`, a GET of `/path:0` is not found (404), and a GET of `/path:2` throws. | Read when `index < size` (and the index is non-negative), so that a written element is read back. | not executed | JsonTree.GetNestedMissesWrittenElement | JsonTree.PutThenGetIntended |

`JsonTree.GetNested` models the read as written, and `JsonTree.GetNestedListStep`
states its behaviour at a list. `JsonTree.GetNestedIntended` is the corrected
read. `Respond` and `GetResponse` keep the read as written, so the
request-level round trip `Store.PutThenGet` is stated for paths without index
parts.
