/**
 * `utils/archelp.py`: the filename sanitiser and the `Parameters` container that
 * makes a tool's parameters reachable by name.
 */
module ArcHelp {
  import opened Wrappers
  import opened Text

  /** The characters `sanitize_filename` keeps: alphanumerics, space, `_` and `-`. */
  predicate Allowed(c: char)
  {
    IsAlnum(c) || c == ' ' || c == '_' || c == '-'
  }

  /** `sanitize_filename(filename)`: every other character is dropped, the rest kept in order. */
  function SanitizeFilename(filename: string): (r: string)
    ensures forall k :: 0 <= k < |r| ==> Allowed(r[k])
    ensures |r| <= |filename|
  {
    if |filename| == 0 then ""
    else
      (if Allowed(filename[0]) then [filename[0]] else "") + SanitizeFilename(filename[1..])
  }

  /** `sub` is `s` with some characters deleted and the rest in their order. */
  predicate Subsequence(sub: string, s: string)
    decreases |s|
  {
    |sub| == 0 || (|s| > 0 && (if sub[0] == s[0] then Subsequence(sub[1..], s[1..]) else Subsequence(sub, s[1..])))
  }

  /** The sanitised name is a subsequence of the original. */
  lemma {:induction false} SanitizeIsSubsequence(filename: string)
    ensures Subsequence(SanitizeFilename(filename), filename)
  {
    if |filename| > 0 {
      SanitizeIsSubsequence(filename[1..]);
      var rest := SanitizeFilename(filename[1..]);
      if Allowed(filename[0]) {
        assert SanitizeFilename(filename) == [filename[0]] + rest;
        assert SanitizeFilename(filename)[1..] == rest;
      } else {
        assert SanitizeFilename(filename) == rest;
      }
    }
  }

  /** A name made only of allowed characters comes back unchanged. */
  lemma {:induction false} SanitizeFixedPoint(filename: string)
    requires forall k :: 0 <= k < |filename| ==> Allowed(filename[k])
    ensures SanitizeFilename(filename) == filename
  {
    if |filename| > 0 {
      SanitizeFixedPoint(filename[1..]);
      assert [filename[0]] + filename[1..] == filename;
    }
  }

  /** Sanitising twice is sanitising once. */
  lemma SanitizeIdempotent(filename: string)
    ensures SanitizeFilename(SanitizeFilename(filename)) == SanitizeFilename(filename)
  {
    SanitizeFixedPoint(SanitizeFilename(filename));
  }

  /** Every allowed character is kept as often as it occurs, and no other character is. */
  lemma {:induction false} SanitizeCounts(filename: string)
    ensures forall c :: multiset(SanitizeFilename(filename))[c] == if Allowed(c) then multiset(filename)[c] else 0
  {
    if |filename| > 0 {
      SanitizeCounts(filename[1..]);
      assert filename == [filename[0]] + filename[1..];
      var head: string := if Allowed(filename[0]) then [filename[0]] else "";
      assert SanitizeFilename(filename) == head + SanitizeFilename(filename[1..]);
    }
  }

  /** Sanitising works character by character: a name split in two is sanitised piece by piece. */
  lemma {:induction false} SanitizeConcat(a: string, b: string)
    ensures SanitizeFilename(a + b) == SanitizeFilename(a) + SanitizeFilename(b)
  {
    if |a| > 0 {
      SanitizeConcat(a[1..], b);
      var ab := a + b;
      assert ab[0] == a[0] && ab[1..] == a[1..] + b;
      var head: string := if Allowed(a[0]) then [a[0]] else "";
      assert SanitizeFilename(ab) == head + SanitizeFilename(a[1..] + b);
      assert SanitizeFilename(a) == head + SanitizeFilename(a[1..]);
    } else {
      assert a + b == b;
    }
  }

  /** An instance attribute of `Parameters`: the `_parameters` list itself or one parameter. */
  datatype Attr = ParamList(parameters: seq<Parameter>) | Param(parameter: Parameter)

  /** The attributes once the parameters in `done` (a prefix of `all`) have been stored. */
  function AttributesAfter(all: seq<Parameter>, done: seq<Parameter>): map<string, Attr>
  {
    if |done| == 0 then map["_parameters" := ParamList(all)]
    else AttributesAfter(all, done[..|done| - 1])[done[|done| - 1].name := Param(done[|done| - 1])]
  }

  class Parameters {
    /** `self.__dict__`. */
    var attrs: map<string, Attr>

    /** `Parameters(parameters)`: `_parameters` first, then one attribute per parameter name, later ones overwriting. */
    constructor (parameters: seq<Parameter>)
      ensures attrs == AttributesAfter(parameters, parameters)
    {
      attrs := map["_parameters" := ParamList(parameters)];
      new;
      for i := 0 to |parameters|
        invariant attrs == AttributesAfter(parameters, parameters[..i])
      {
        assert parameters[..i + 1][..i] == parameters[..i];
        attrs := attrs[parameters[i].name := Param(parameters[i])];
      }
      assert parameters[..|parameters|] == parameters;
    }

    /** `params[key]`: the attribute of that name, or a KeyError. */
    function Get(key: string): (r: Result<Attr>)
      reads this
      ensures r.Ok? <==> key in attrs
      ensures r.Ok? ==> r.value == attrs[key]
    {
      if key in attrs then Ok(attrs[key]) else Err(KeyError(key))
    }
  }

  /**
   * Looking a name up finds the parameter of that name listed last; `_parameters`
   * (unless a parameter is called that) is the list itself; any other name is a
   * KeyError.
   */
  lemma AttributesLookup(all: seq<Parameter>, done: seq<Parameter>, key: string)
    ensures key in AttributesAfter(all, done) <==> key == "_parameters" || exists p :: p in done && p.name == key
    ensures forall j :: 0 <= j < |done| && done[j].name == key && (forall l :: j < l < |done| ==> done[l].name != key) ==>
      AttributesAfter(all, done)[key] == Param(done[j])
    ensures key == "_parameters" && (forall p :: p in done ==> p.name != key) ==>
      AttributesAfter(all, done)[key] == ParamList(all)
  {
    AttributeKeys(all, done, key);
    forall j | 0 <= j < |done| && done[j].name == key && (forall l :: j < l < |done| ==> done[l].name != key)
      ensures AttributesAfter(all, done)[key] == Param(done[j])
    {
      AttributeOfLast(all, done, j);
    }
    if key == "_parameters" && (forall p :: p in done ==> p.name != key) {
      AttributeList(all, done);
    }
  }

  /** The attribute names: `_parameters` and the name of every stored parameter. */
  lemma {:induction false} AttributeKeys(all: seq<Parameter>, done: seq<Parameter>, key: string)
    ensures key in AttributesAfter(all, done) <==> key == "_parameters" || exists p :: p in done && p.name == key
  {
    if |done| > 0 {
      var init, last := done[..|done| - 1], done[|done| - 1];
      AttributeKeys(all, init, key);
      assert done == init + [last];
      assert forall p :: p in done <==> p in init || p == last;
    }
  }

  /** A name holds the parameter stored last under it. */
  lemma {:induction false} AttributeOfLast(all: seq<Parameter>, done: seq<Parameter>, j: int)
    requires 0 <= j < |done|
    requires forall l :: j < l < |done| ==> done[l].name != done[j].name
    ensures done[j].name in AttributesAfter(all, done)
    ensures AttributesAfter(all, done)[done[j].name] == Param(done[j])
  {
    var init, last := done[..|done| - 1], done[|done| - 1];
    if j < |done| - 1 {
      assert init[j] == done[j];
      assert forall l :: j < l < |init| ==> init[l] == done[l];
      AttributeOfLast(all, init, j);
    }
  }

  /** `_parameters` stays the whole list unless a parameter carries that name. */
  lemma {:induction false} AttributeList(all: seq<Parameter>, done: seq<Parameter>)
    requires forall p :: p in done ==> p.name != "_parameters"
    ensures "_parameters" in AttributesAfter(all, done)
    ensures AttributesAfter(all, done)["_parameters"] == ParamList(all)
  {
    if |done| > 0 {
      var init := done[..|done| - 1];
      assert forall p :: p in init ==> p in done;
      AttributeList(all, init);
      assert done[|done| - 1] in done;
    }
  }

  /** What `Parameters(ps)[key]` gives, in terms of the parameter list alone. */
  lemma ParametersLookup(ps: seq<Parameter>, key: string)
    ensures key in AttributesAfter(ps, ps) <==> key == "_parameters" || exists p :: p in ps && p.name == key
    ensures forall j :: 0 <= j < |ps| && ps[j].name == key && (forall l :: j < l < |ps| ==> ps[l].name != key) ==>
      AttributesAfter(ps, ps)[key] == Param(ps[j])
    ensures key == "_parameters" && (forall p :: p in ps ==> p.name != key) ==> AttributesAfter(ps, ps)[key] == ParamList(ps)
  {
    AttributesLookup(ps, ps, key);
  }
}
