/** The verbs the store answers, and how a request's method name is matched
    against them (server/.../SupportedMethods.kt). */
module Methods {
  import opened Outcomes
  import opened KotlinText

  /** `enum class SupportedMethods`, in declaration order. */
  datatype SupportedMethods = GET | PATCH | PUT

  /** `SupportedMethods.values()`. */
  function Values(): (r: seq<SupportedMethods>)
    ensures GET in r && PATCH in r && PUT in r
    ensures forall i, j :: 0 <= i < j < |r| ==> r[i] != r[j]
  {
    [GET, PATCH, PUT]
  }

  /** The `name` of an enum constant. */
  function Name(m: SupportedMethods): string {
    match m
    case GET => "GET"
    case PATCH => "PATCH"
    case PUT => "PUT"
  }

  /** `values.associateBy { it.name }`: the values are put in order, so a later
      value replaces an earlier one with the same name. */
  function AssociateByName(values: seq<SupportedMethods>): (table: map<string, SupportedMethods>)
    ensures forall k :: 0 <= k < |values| ==> Name(values[k]) in table
    ensures forall name :: name in table ==> Name(table[name]) == name && table[name] in values
    decreases |values|
  {
    if |values| == 0 then map[]
    else
      var last := values[|values| - 1];
      AssociateByName(values[..|values| - 1])[Name(last) := last]
  }

  /** The private `lookup` table. */
  function Lookup(): (table: map<string, SupportedMethods>)
    ensures forall k :: 0 <= k < |Values()| ==> Name(Values()[k]) in table
    ensures forall name :: name in table ==> Name(table[name]) == name
  {
    AssociateByName(Values())
  }

  /** `supported(method)`: the lookup of the trimmed, upper-cased name. */
  function Supported(verb: string): (r: Option<SupportedMethods>)
    ensures r.Some? ==> Name(r.value) == ToUpper(Trim(verb))
  {
    var key := ToUpper(Trim(verb));
    if key in Lookup() then Some(Lookup()[key]) else None
  }

  /** The names of the values, for `joinToString`. */
  function Names(values: seq<SupportedMethods>): (names: seq<string>)
    ensures |names| == |values|
    ensures forall k :: 0 <= k < |values| ==> names[k] == Name(values[k])
  {
    seq(|values|, k requires 0 <= k < |values| => Name(values[k]))
  }

  /** The `Allow` header of a 405: every supported verb, in enum order. */
  function AllowHeader(): (h: string)
    ensures h == "GET, PATCH, PUT"
  {
    JoinWith(Names(Values()), ", ")
  }

  /** The table holds exactly the three enum names, each keyed to its own
      constant. */
  lemma LookupIsByName()
    ensures forall name :: name in Lookup() <==> name in {"GET", "PATCH", "PUT"}
    ensures forall m :: Name(m) in Lookup() && Lookup()[Name(m)] == m
  {
    var table := Lookup();
    assert Values()[0] == GET && Values()[1] == PATCH && Values()[2] == PUT;
    assert "GET" in table && "PATCH" in table && "PUT" in table;
    forall name | name in table
      ensures name in {"GET", "PATCH", "PUT"}
    {
      var m := table[name];
      assert Name(m) == name;
    }
    forall m
      ensures table[Name(m)] == m
    {
      assert Name(table[Name(m)]) == Name(m);
    }
  }

  /** A method name is recognised as `m` exactly when its trimmed, upper-cased
      form is `m`'s name, and it is recognised at all exactly when that form is
      one of GET, PATCH and PUT. */
  lemma SupportedIff(verb: string, m: SupportedMethods)
    ensures Supported(verb) == Some(m) <==> ToUpper(Trim(verb)) == Name(m)
    ensures Supported(verb).None? <==> ToUpper(Trim(verb)) !in {"GET", "PATCH", "PUT"}
  {
    LookupIsByName();
    var key := ToUpper(Trim(verb));
    if key in Lookup() {
      assert Name(Lookup()[key]) == key;
    }
  }

  /** Every constant is found under its own name. */
  lemma SupportedName(m: SupportedMethods)
    ensures Supported(Name(m)) == Some(m)
  {
    var name := Name(m);
    assert |name| > 0 && !IsWhitespace(name[0]) && !IsWhitespace(name[|name| - 1]);
    TrimmedIsFixed(name);
    assert ToUpper(name) == name;
    SupportedIff(name, m);
  }

  /** Normalising first changes nothing: `supported(s.trim().toUpperCase())`
      is `supported(s)`. */
  lemma SupportedNormalised(verb: string)
    ensures Supported(ToUpper(Trim(verb))) == Supported(verb)
  {
    var t := Trim(verb);
    TrimToUpper(t);
    TrimIdempotent(verb);
    assert ToUpper(ToUpper(t)) == ToUpper(t);
  }

  /** Whitespace around a method name is ignored. */
  lemma SupportedPadded(pre: string, verb: string, post: string)
    requires AllWhitespace(pre) && AllWhitespace(post)
    ensures Supported(pre + verb + post) == Supported(verb)
  {
    TrimPadded(pre, verb, post);
  }

  /** A name without surrounding whitespace whose upper-case form is `m`'s
      name is `m`. */
  lemma SupportedWord(word: string, m: SupportedMethods)
    requires |word| > 0 && !IsWhitespace(word[0]) && !IsWhitespace(word[|word| - 1])
    requires ToUpper(word) == Name(m)
    ensures Supported(word) == Some(m)
  {
    TrimmedIsFixed(word);
    SupportedIff(word, m);
  }

  /** `"get"` is GET. */
  lemma SupportedLowerGet()
    ensures Supported("get") == Some(GET)
  {
    var word := "get";
    assert ToUpper(word) == Name(GET) by {
      assert ToUpper(word) == [UpperChar(word[0]), UpperChar(word[1]), UpperChar(word[2])];
    }
    SupportedWord(word, GET);
  }

  /** `"get"` with any whitespace around it is GET. */
  lemma SupportedPaddedGet(pre: string, post: string)
    requires AllWhitespace(pre) && AllWhitespace(post)
    ensures Supported(pre + "get" + post) == Some(GET)
  {
    SupportedPadded(pre, "get", post);
    SupportedLowerGet();
  }

  /** `"Patch"` is PATCH: letter case is ignored. */
  lemma SupportedMixedCasePatch()
    ensures Supported("Patch") == Some(PATCH)
  {
    var word := "Patch";
    assert ToUpper(word) == Name(PATCH) by {
      assert ToUpper(word) == [UpperChar(word[0]), UpperChar(word[1]), UpperChar(word[2]), UpperChar(word[3]), UpperChar(word[4])];
    }
    SupportedWord(word, PATCH);
  }
}
