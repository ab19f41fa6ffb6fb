/** `split(path)`: a request path becomes a sequence of structure keys
    (server/.../InMemoryHttpJson.kt). Field names are URL-decoded by a
    decoder given as a parameter. */
module Paths {
  import opened Outcomes
  import opened KotlinText
  import opened JsonTree

  /** The index parts of one segment (those after its first `:`), each
      through `toInt`, in order; the first one that is not an `Int` throws. */
  function IndexKeys(parts: seq<string>): (r: Outcome<seq<StructureKey>>)
    ensures r.Normal? <==> forall k :: 0 <= k < |parts| ==> ParseInt(parts[k]).Some?
    ensures r.Normal? ==> |r.value| == |parts|
    ensures r.Normal? ==> forall k :: 0 <= k < |parts| ==>
      ParseInt(parts[k]).Some? && r.value[k] == ArrayKey(ParseInt(parts[k]).value)
    ensures r.Thrown? ==> exists k :: (0 <= k < |parts| && ParseInt(parts[k]).None?
      && r == Thrown(NumberFormat(parts[k]))
      && forall j :: 0 <= j < k ==> ParseInt(parts[j]).Some?)
    decreases |parts|
  {
    if |parts| == 0 then Normal([])
    else
      match ParseInt(parts[0])
      case None => Thrown(NumberFormat(parts[0]))
      case Some(index) =>
        assert forall k :: 0 <= k < |parts| - 1 ==> parts[1..][k] == parts[k + 1];
        match IndexKeys(parts[1..])
        case Thrown(e) => Thrown(e)
        case Normal(rest) => Normal([ArrayKey(index)] + rest)
  }

  /** One non-empty segment `name:i:j…`: the decoded field name, then one
      index key per further `:`-separated part. */
  function SegmentKeys(segment: string, decode: string -> string): (r: Outcome<seq<StructureKey>>)
    ensures r.Thrown? ==> r.exception.NumberFormat?
    ensures r.Normal? ==> |r.value| == |SplitOn(segment, ':')|
    ensures r.Normal? ==> r.value[0] == ObjectKey(decode(SplitOn(segment, ':')[0]))
    ensures r.Normal? ==> forall k :: 0 < k < |r.value| ==> r.value[k].ArrayKey?
  {
    var parts := SplitOn(segment, ':');
    match IndexKeys(parts[1..])
    case Thrown(e) => Thrown(e)
    case Normal(indices) => Normal([ObjectKey(decode(parts[0]))] + indices)
  }

  /** `flatMap` of `SegmentKeys` over the segments, stopping at the first
      that throws. */
  function SegmentsKeys(segments: seq<string>, decode: string -> string): (r: Outcome<seq<StructureKey>>)
    ensures r.Thrown? ==> r.exception.NumberFormat?
    ensures r.Normal? ==> |r.value| >= |segments|
    decreases |segments|
  {
    if |segments| == 0 then Normal([])
    else
      match SegmentKeys(segments[0], decode)
      case Thrown(e) => Thrown(e)
      case Normal(keys) =>
        match SegmentsKeys(segments[1..], decode)
        case Thrown(e) => Thrown(e)
        case Normal(rest) => Normal(keys + rest)
  }

  /** `split(path)`: split on `/`, drop the empty segments, and turn each
      segment into its keys. */
  function Split(path: string, decode: string -> string): (r: Outcome<seq<StructureKey>>)
    ensures r.Thrown? ==> r.exception.NumberFormat?
    ensures r.Normal? ==> |r.value| >= |NonEmpty(SplitOn(path, '/'))|
  {
    SegmentsKeys(NonEmpty(SplitOn(path, '/')), decode)
  }

  /** The non-empty parts around a separator are those of either side. */
  lemma NonEmptyAround(a: string, b: string)
    ensures NonEmpty(SplitOn(a + "/" + b, '/')) == NonEmpty(SplitOn(a, '/')) + NonEmpty(SplitOn(b, '/'))
  {
    assert a + "/" + b == a + ['/'] + b;
    SplitAround(a, b, '/');
    NonEmptyAppend(SplitOn(a, '/'), SplitOn(b, '/'));
  }

  /** A doubled `/` gives the same keys as a single one. */
  lemma SplitIgnoresDoubledSlash(a: string, b: string, decode: string -> string)
    ensures Split(a + "//" + b, decode) == Split(a + "/" + b, decode)
  {
    assert a + "//" + b == a + "/" + ("/" + b);
    NonEmptyAround(a, "/" + b);
    LeadingSlash(b);
    NonEmptyAround(a, b);
  }

  /** A leading `/` gives the same keys as none. */
  lemma SplitIgnoresLeadingSlash(a: string, decode: string -> string)
    ensures Split("/" + a, decode) == Split(a, decode)
  {
    LeadingSlash(a);
  }

  /** A trailing `/` gives the same keys as none. */
  lemma SplitIgnoresTrailingSlash(a: string, decode: string -> string)
    ensures Split(a + "/", decode) == Split(a, decode)
  {
    assert a + "/" == a + "/" + "";
    NonEmptyAround(a, "");
    assert SplitOn("", '/') == [""];
    assert NonEmpty([""]) == [];
    assert NonEmpty(SplitOn(a, '/')) + [] == NonEmpty(SplitOn(a, '/'));
  }

  lemma LeadingSlash(a: string)
    ensures NonEmpty(SplitOn("/" + a, '/')) == NonEmpty(SplitOn(a, '/'))
  {
    assert "/" + a == "" + "/" + a;
    NonEmptyAround("", a);
    assert SplitOn("", '/') == [""];
    assert NonEmpty([""]) == [];
    assert [] + NonEmpty(SplitOn(a, '/')) == NonEmpty(SplitOn(a, '/'));
  }

  /** Two key lists one after the other; the first exception wins. */
  function Concat(x: Outcome<seq<StructureKey>>, y: Outcome<seq<StructureKey>>): (r: Outcome<seq<StructureKey>>)
    ensures r.Normal? <==> x.Normal? && y.Normal?
    ensures x.Thrown? ==> r == x
  {
    match x
    case Thrown(e) => Thrown(e)
    case Normal(xs) =>
      match y
      case Thrown(e) => Thrown(e)
      case Normal(ys) => Normal(xs + ys)
  }

  lemma ConcatAssociative(x: Outcome<seq<StructureKey>>, y: Outcome<seq<StructureKey>>, z: Outcome<seq<StructureKey>>)
    ensures Concat(x, Concat(y, z)) == Concat(Concat(x, y), z)
  {
    if x.Normal? && y.Normal? && z.Normal? {
      assert x.value + (y.value + z.value) == (x.value + y.value) + z.value;
    }
  }

  /** The keys of `a + b` are those of `a`, then those of `b`; the first
      segment that throws decides the exception. */
  lemma {:induction false} SegmentsKeysAppend(a: seq<string>, b: seq<string>, decode: string -> string)
    ensures SegmentsKeys(a + b, decode) == Concat(SegmentsKeys(a, decode), SegmentsKeys(b, decode))
    decreases |a|
  {
    if |a| == 0 {
      assert a + b == b;
      assert Concat(Normal([]), SegmentsKeys(b, decode)) == SegmentsKeys(b, decode) by {
        if SegmentsKeys(b, decode).Normal? {
          assert [] + SegmentsKeys(b, decode).value == SegmentsKeys(b, decode).value;
        }
      }
    } else {
      var head := SegmentKeys(a[0], decode);
      assert (a + b)[0] == a[0];
      assert (a + b)[1..] == a[1..] + b;
      assert SegmentsKeys(a + b, decode) == Concat(head, SegmentsKeys(a[1..] + b, decode));
      assert SegmentsKeys(a, decode) == Concat(head, SegmentsKeys(a[1..], decode));
      SegmentsKeysAppend(a[1..], b, decode);
      ConcatAssociative(head, SegmentsKeys(a[1..], decode), SegmentsKeys(b, decode));
    }
  }

  /** The keys of `p/q` are those of `p`, then those of `q`. */
  lemma SplitAppend(p: string, q: string, decode: string -> string)
    ensures Split(p + "/" + q, decode) == Concat(Split(p, decode), Split(q, decode))
  {
    NonEmptyAround(p, q);
    SegmentsKeysAppend(NonEmpty(SplitOn(p, '/')), NonEmpty(SplitOn(q, '/')), decode);
  }

  /** `/name:i:j…`, with a name free of `/` and `:` and the indices written in
      decimal, parses to the decoded name, then exactly those index keys. */
  lemma SplitIndexedSegment(name: string, indices: seq<Int32>, decode: string -> string)
    requires name != "" && '/' !in name && ':' !in name
    ensures Split("/" + JoinWith([name] + Decimals(indices), ":"), decode)
         == Normal([ObjectKey(decode(name))] + ArrayKeys(indices))
  {
    var parts := [name] + Decimals(indices);
    var segment := JoinWith(parts, ":");
    forall k | 0 <= k < |parts| ensures '/' !in parts[k] {
      if k > 0 {
        var d := Decimal(indices[k - 1]);
        assert parts[k] == d;
        assert forall j :: 0 <= j < |d| ==> d[j] != '/';
      }
    }
    JoinWithParts(parts, ":", '/');
    LeadingSlash(segment);
    FieldOnlyPart(segment);
    assert NonEmpty(SplitOn("/" + segment, '/')) == [segment];
    var keys := [ObjectKey(decode(name))] + ArrayKeys(indices);
    SegmentWithIndices(name, indices, decode);
    assert SegmentKeys(segment, decode) == Normal(keys);
    assert [segment][1..] == [];
    assert SegmentsKeys([segment][1..], decode) == Normal([]);
    assert keys + [] == keys;
  }

  /** Each field name without `:` followed by its indices written out in
      decimal parses to the field key, then those index keys in order. */
  lemma SegmentWithIndices(name: string, indices: seq<Int32>, decode: string -> string)
    requires ':' !in name
    ensures SegmentKeys(JoinWith([name] + Decimals(indices), ":"), decode)
         == Normal([ObjectKey(decode(name))] + ArrayKeys(indices))
  {
    var parts := [name] + Decimals(indices);
    forall k | 0 <= k < |parts| ensures ':' !in parts[k] {
      if k > 0 {
        assert parts[k] == Decimal(indices[k - 1]);
      }
    }
    SplitJoin(parts, ':');
    assert SplitOn(JoinWith(parts, ":"), ':') == parts;
    assert parts[1..] == Decimals(indices);
    forall k | 0 <= k < |indices| ensures ParseInt(Decimals(indices)[k]) == Some(indices[k]) {
      ParseDecimal(indices[k]);
    }
    var r := IndexKeys(Decimals(indices));
    assert r.value == ArrayKeys(indices);
  }

  /** `Int.toString` of each index. */
  function Decimals(indices: seq<Int32>): (texts: seq<string>)
    ensures |texts| == |indices|
    ensures forall k :: 0 <= k < |indices| ==> texts[k] == Decimal(indices[k])
  {
    seq(|indices|, k requires 0 <= k < |indices| => Decimal(indices[k]))
  }

  /** One index key per index. */
  function ArrayKeys(indices: seq<Int32>): (keys: seq<StructureKey>)
    ensures |keys| == |indices|
    ensures forall k :: 0 <= k < |indices| ==> keys[k] == ArrayKey(indices[k])
  {
    seq(|indices|, k requires 0 <= k < |indices| => ArrayKey(indices[k]))
  }

  /** One decoded field key per name, in order. */
  function FieldKeys(names: seq<string>, decode: string -> string): (keys: seq<StructureKey>)
    ensures |keys| == |names|
    ensures forall k :: 0 <= k < |names| ==> keys[k] == ObjectKey(decode(names[k]))
  {
    seq(|names|, k requires 0 <= k < |names| => ObjectKey(decode(names[k])))
  }

  /** A path with no `:` parses, into one field key per non-empty segment:
      the decoded segments, in order. */
  lemma {:induction false} SplitWithoutColons(path: string, decode: string -> string)
    requires ':' !in path
    ensures Split(path, decode) == Normal(FieldKeys(NonEmpty(SplitOn(path, '/')), decode))
    ensures Split(path, decode).Normal?
    ensures FieldsOnly(Split(path, decode).value)
    ensures |Split(path, decode).value| == |NonEmpty(SplitOn(path, '/'))|
  {
    var segments := NonEmpty(SplitOn(path, '/'));
    JoinSplit(path, '/');
    forall k | 0 <= k < |segments| ensures ':' !in segments[k] {
      NonEmptyKeeps(SplitOn(path, '/'), segments[k]);
      PartOfSplit(path, '/', segments[k]);
    }
    SegmentsWithoutColons(segments, decode);
  }

  /** Every part of a split is a piece of the string it came from. */
  lemma {:induction false} PartOfSplit(s: string, sep: char, part: string)
    requires part in SplitOn(s, sep)
    ensures forall c :: c in part ==> c in s
    decreases |s|
  {
    if |s| > 0 {
      var rest := SplitOn(s[1..], sep);
      if s[0] == sep {
        if part != "" {
          PartOfSplit(s[1..], sep, part);
        }
      } else if part == [s[0]] + rest[0] {
        PartOfSplit(s[1..], sep, rest[0]);
      } else {
        assert part in rest[1..];
        PartOfSplit(s[1..], sep, part);
      }
    }
  }

  /** Segments without `:` give their decoded names as field keys, in order. */
  lemma {:induction false} SegmentsWithoutColons(segments: seq<string>, decode: string -> string)
    requires forall k :: 0 <= k < |segments| ==> ':' !in segments[k]
    ensures SegmentsKeys(segments, decode) == Normal(FieldKeys(segments, decode))
    ensures SegmentsKeys(segments, decode).Normal?
    ensures FieldsOnly(SegmentsKeys(segments, decode).value)
    ensures |SegmentsKeys(segments, decode).value| == |segments|
    decreases |segments|
  {
    if |segments| > 0 {
      FieldSegment(segments[0], decode);
      SegmentsWithoutColons(segments[1..], decode);
      assert [ObjectKey(decode(segments[0]))] + FieldKeys(segments[1..], decode) == FieldKeys(segments, decode);
    }
  }

  /** Two more `/`s in front change nothing. */
  lemma SlashRun(a: string)
    ensures NonEmpty(SplitOn("//" + a, '/')) == NonEmpty(SplitOn(a, '/'))
    ensures NonEmpty(SplitOn("///" + a, '/')) == NonEmpty(SplitOn(a, '/'))
  {
    assert "//" + a == "/" + ("/" + a);
    assert "///" + a == "/" + ("//" + a);
    LeadingSlash(a);
    LeadingSlash("/" + a);
    LeadingSlash("//" + a);
  }

  /** A part with no `/` splits into itself. */
  lemma FieldOnlyPart(name: string)
    requires '/' !in name && name != ""
    ensures NonEmpty(SplitOn(name, '/')) == [name]
  {
    SplitJoin([name], '/');
    assert JoinWith([name], "/") == name;
  }

  /** Two names between single `/`s. */
  lemma TwoSegments(x: string, y: string)
    requires x != "" && y != "" && '/' !in x && '/' !in y
    ensures NonEmpty(SplitOn("/" + x + "/" + y, '/')) == [x, y]
  {
    FieldOnlyPart(x);
    FieldOnlyPart(y);
    NonEmptyAround(x, y);
    assert "/" + x + "/" + y == "/" + (x + "/" + y);
    LeadingSlash(x + "/" + y);
  }

  /** Two names between runs of three `/`s. */
  lemma TwoSegmentsPadded(x: string, y: string)
    requires x != "" && y != "" && '/' !in x && '/' !in y
    ensures NonEmpty(SplitOn("///" + x + "///" + y + "///", '/')) == [x, y]
  {
    var tail := y + "///";
    TrailingRun(y);
    var body := x + "///" + tail;
    assert body == x + "/" + ("//" + tail);
    NonEmptyAround(x, "//" + tail);
    SlashRun(tail);
    FieldOnlyPart(x);
    assert "///" + x + "///" + y + "///" == "///" + body;
    SlashRun(body);
  }

  lemma TrailingRun(y: string)
    requires y != "" && '/' !in y
    ensures NonEmpty(SplitOn(y + "///", '/')) == [y]
  {
    assert y + "///" == y + "/" + ("//" + "");
    NonEmptyAround(y, "//" + "");
    SlashRun("");
    assert SplitOn("", '/') == [""];
    FieldOnlyPart(y);
  }

  lemma FieldSegment(name: string, decode: string -> string)
    requires ':' !in name
    ensures SegmentKeys(name, decode) == Normal([ObjectKey(decode(name))])
  {
    SplitJoin([name], ':');
    assert JoinWith([name], ":") == name;
    var parts := SplitOn(name, ':');
    assert parts == [name];
    assert parts[1..] == [];
    assert IndexKeys([]) == Normal([]);
    assert [ObjectKey(decode(name))] + [] == [ObjectKey(decode(name))];
  }

  /** The path of the store's tests: `///nested///path///` and `/nested/path`
      both parse to the keys `nested`, `path`. */
  lemma SplitNestedPath(decode: string -> string)
    ensures Split("///nested///path///", decode) == Split("/nested/path", decode)
    ensures Split("/nested/path", decode) == Normal([ObjectKey(decode("nested")), ObjectKey(decode("path"))])
  {
    assert "///nested///path///" == "///" + "nested" + "///" + "path" + "///" by {}
    assert "/nested/path" == "/" + "nested" + "/" + "path" by {}
    NamesParse("nested", "path", decode);
  }

  lemma NamesParse(x: string, y: string, decode: string -> string)
    requires x != "" && y != "" && '/' !in x && '/' !in y && ':' !in x && ':' !in y
    ensures Split("///" + x + "///" + y + "///", decode) == Normal([ObjectKey(decode(x)), ObjectKey(decode(y))])
    ensures Split("/" + x + "/" + y, decode) == Normal([ObjectKey(decode(x)), ObjectKey(decode(y))])
  {
    TwoSegments(x, y);
    TwoSegmentsPadded(x, y);
    TwoFields(x, y, decode);
  }

  lemma TwoFields(x: string, y: string, decode: string -> string)
    requires ':' !in x && ':' !in y
    ensures SegmentsKeys([x, y], decode) == Normal([ObjectKey(decode(x)), ObjectKey(decode(y))])
  {
    FieldSegment(x, decode);
    FieldSegment(y, decode);
    var segments := [x, y];
    assert segments[1..] == [y];
    assert [y][1..] == [];
    assert SegmentsKeys([], decode) == Normal([]);
    assert SegmentsKeys([y], decode) == Normal([ObjectKey(decode(y))] + []);
    assert [ObjectKey(decode(y))] + [] == [ObjectKey(decode(y))];
    assert SegmentsKeys(segments, decode) == Normal([ObjectKey(decode(x))] + [ObjectKey(decode(y))]);
    assert [ObjectKey(decode(x))] + [ObjectKey(decode(y))] == [ObjectKey(decode(x)), ObjectKey(decode(y))];
  }

  /** `/nested/path/`: the trailing slash is dropped like the others. */
  lemma NestedPathWithTrailingSlash(decode: string -> string)
    ensures Split("/nested/path/", decode) == Normal([ObjectKey(decode("nested")), ObjectKey(decode("path"))])
  {
    assert "/nested/path/" == "/nested/path" + "/" by {}
    SplitIgnoresTrailingSlash("/nested/path", decode);
    SplitNestedPath(decode);
  }

  /** `/` is the root: no keys at all. */
  lemma RootPath(decode: string -> string)
    ensures Split("/", decode) == Normal([])
  {
    SplitIgnoresLeadingSlash("", decode);
    assert "/" + "" == "/";
    assert SplitOn("", '/') == [""];
    assert NonEmpty([""]) == [];
  }

  /** `/name:index` with an index part that is not an `Int` throws
      `NumberFormatException` for that part. */
  lemma BadIndexSplit(name: string, index: string, decode: string -> string)
    requires name != "" && '/' !in name && ':' !in name && '/' !in index && ':' !in index
    requires ParseInt(index).None?
    ensures Split("/" + name + ":" + index, decode) == Thrown(NumberFormat(index))
  {
    var segment := name + ":" + index;
    assert "/" + name + ":" + index == "/" + segment;
    LeadingSlash(segment);
    assert '/' !in segment;
    FieldOnlyPart(segment);
    SplitJoin([name, index], ':');
    assert JoinWith([name, index], ":") == segment;
    var parts := SplitOn(segment, ':');
    assert parts[1..] == [index];
    assert IndexKeys([index]) == Thrown(NumberFormat(index));
  }
}
