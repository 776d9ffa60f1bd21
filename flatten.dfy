/**
 * The two helpers between the service's listing and the declared
 * configuration: flattenParameters, which turns listed parameters into
 * name/value pairs for the state, and createUserDefinedParameterMap, which
 * reads the declared parameters into a map.
 */
module Flatten {
  import opened Wrappers
  import opened MemoryDbTypes
  import opened EffectiveParameters

  predicate IsAsciiUpper(c: char)
  {
    'A' <= c <= 'Z'
  }

  /** `unicode.ToLower` restricted to ASCII: A-Z become a-z, every other character is kept. */
  function LowerChar(c: char): (l: char)
    ensures !IsAsciiUpper(l)
    ensures IsAsciiUpper(c) ==> l as int == c as int + 32
    ensures !IsAsciiUpper(c) ==> l == c
  {
    if IsAsciiUpper(c) then (c as int + 32) as char else c
  }

  /** `strings.ToLower` on the ASCII letters. */
  function ToLower(s: string): (r: string)
    ensures |r| == |s|
    ensures forall i :: 0 <= i < |s| ==> r[i] == LowerChar(s[i])
  {
    if s == [] then [] else [LowerChar(s[0])] + ToLower(s[1..])
  }

  /** Lowering twice changes nothing more, and no upper-case letter is left. */
  lemma ToLowerIdempotent(s: string)
    ensures ToLower(ToLower(s)) == ToLower(s)
    ensures forall i :: 0 <= i < |s| ==> !IsAsciiUpper(ToLower(s)[i])
  {
  }

  /** The name a listed parameter is stored under. */
  lemma ToLowerExample(name: string)
    requires name == "Maxmemory-Policy"
    ensures ToLower(name) == "maxmemory-policy"
  {
  }

  /** The state entry of one listed parameter that has a value. */
  function Flat(p: Parameter): ParameterNameValue
    requires p.value.Some?
  {
    ParameterNameValue(ToLower(ParamName(p)), p.value.value)
  }

  /** Reference definition of flattenParameters, in listing order. */
  function Flattened(list: seq<Parameter>): seq<ParameterNameValue>
  {
    if list == [] then []
    else
      var init := Flattened(list[..|list| - 1]);
      var last := list[|list| - 1];
      if last.value.Some? then init + [Flat(last)] else init
  }

  /**
   * Flattening keeps exactly the parameters that have a value, lower-cases
   * their names and keeps their values; it is as long as the listing exactly
   * when no value is nil.
   */
  lemma {:induction false} FlattenedProperties(list: seq<Parameter>)
    ensures |Flattened(list)| <= |list|
    ensures |Flattened(list)| == |list| <==> forall i :: 0 <= i < |list| ==> list[i].value.Some?
    ensures forall x :: x in Flattened(list) <==> exists p :: p in list && p.value.Some? && x == Flat(p)
    ensures forall x :: x in Flattened(list) ==> ToLower(x.name) == x.name
  {
    if list != [] {
      var init := list[..|list| - 1];
      var last := list[|list| - 1];
      FlattenedProperties(init);
      assert list == init + [last];
      forall x ensures x in Flattened(list) <==> exists p :: p in list && p.value.Some? && x == Flat(p) {
        if x in Flattened(list) && x !in Flattened(init) {
          assert last in list && last.value.Some? && x == Flat(last);
        }
        if exists p :: p in list && p.value.Some? && x == Flat(p) {
          var p :| p in list && p.value.Some? && x == Flat(p);
          if p != last {
            assert p in init;
          }
        }
      }
      ToLowerIdempotent(ParamName(last));
      if |Flattened(list)| == |list| {
        assert last.value.Some?;
        forall i | 0 <= i < |list| ensures list[i].value.Some? {
          if i < |init| { assert list[i] == init[i]; }
        }
      }
      if forall i :: 0 <= i < |list| ==> list[i].value.Some? {
        assert forall i :: 0 <= i < |init| ==> init[i] == list[i];
      }
    }
  }

  /** The loop of flattenParameters. */
  method FlattenParameters(list: seq<Parameter>) returns (result: seq<ParameterNameValue>)
    ensures result == Flattened(list)
    ensures |result| <= |list|
    ensures forall x :: x in result ==> ToLower(x.name) == x.name
  {
    result := [];
    var i := 0;
    while i < |list|
      invariant 0 <= i <= |list|
      invariant result == Flattened(list[..i])
    {
      assert list[..i + 1][..i] == list[..i];
      if list[i].value.Some? {
        result := result + [ParameterNameValue(ToLower(StringValue(list[i].name)), StringValue(list[i].value))];
      }
      i := i + 1;
    }
    assert list[..i] == list;
    FlattenedProperties(list);
  }

  /**
   * One element of the declared "parameter" set: NotAMap when the element
   * is not a map; a field is None when it is missing or not a string.
   */
  datatype DeclaredParameter = NotAMap | DeclaredParameter(name: Option<string>, value: Option<string>)

  /** An element that createUserDefinedParameterMap keeps: a map with a non-empty name and value. */
  predicate IsUsable(d: DeclaredParameter)
  {
    d.DeclaredParameter? && d.name.Some? && d.name.value != "" && d.value.Some? && d.value.value != ""
  }

  /** A usable element as the name/value pair that the update path diffs. */
  function AsNameValue(d: DeclaredParameter): ParameterNameValue
    requires IsUsable(d)
  {
    ParameterNameValue(d.name.value, d.value.value)
  }

  /** The usable elements as name/value pairs, in order. */
  function UsablePairs(ds: seq<DeclaredParameter>): (ps: seq<ParameterNameValue>)
    ensures forall p :: p in ps ==> p.name != "" && p.value != ""
  {
    if ds == [] then []
    else
      var init := UsablePairs(ds[..|ds| - 1]);
      var last := ds[|ds| - 1];
      if IsUsable(last) then init + [AsNameValue(last)] else init
  }

  /** The loop of createUserDefinedParameterMap. */
  method CreateUserDefinedParameterMap(declared: seq<DeclaredParameter>) returns (result: map<string, string>)
    ensures result == ByName(UsablePairs(declared))
    ensures "" !in result
    ensures forall k :: k in result ==> result[k] != ""
  {
    result := map[];
    var i := 0;
    while i < |declared|
      invariant 0 <= i <= |declared|
      invariant result == ByName(UsablePairs(declared[..i]))
    {
      assert declared[..i + 1][..i] == declared[..i];
      var param := declared[i];
      if param.NotAMap? {
        i := i + 1;
        continue;
      }
      if param.name.None? || param.name.value == "" {
        i := i + 1;
        continue;
      }
      if param.value.None? || param.value.value == "" {
        i := i + 1;
        continue;
      }
      result := result[param.name.value := param.value.value];
      i := i + 1;
    }
    assert declared[..i] == declared;
    UserDefinedEntriesNonEmpty(UsablePairs(declared));
  }

  lemma UserDefinedEntriesNonEmpty(ps: seq<ParameterNameValue>)
    requires forall p :: p in ps ==> p.name != "" && p.value != ""
    ensures "" !in ByName(ps)
    ensures forall k :: k in ByName(ps) ==> ByName(ps)[k] != ""
  {
    forall k | k in ByName(ps) ensures k != "" && ByName(ps)[k] != "" {
      ByNameValueFromList(ps, k);
    }
  }

  /**
   * The declared names are exactly the usable elements' names, and the last
   * usable element with a name gives its value.
   */
  lemma {:induction false} UserDefinedLastWins(declared: seq<DeclaredParameter>, i: nat)
    requires i < |declared| && IsUsable(declared[i])
    requires forall j :: i < j < |declared| && IsUsable(declared[j]) ==> declared[j].name != declared[i].name
    ensures declared[i].name.value in ByName(UsablePairs(declared))
    ensures ByName(UsablePairs(declared))[declared[i].name.value] == declared[i].value.value
  {
    var init := declared[..|declared| - 1];
    var last := declared[|declared| - 1];
    if i < |declared| - 1 {
      UserDefinedLastWins(init, i);
      if IsUsable(last) {
        assert last.name != declared[i].name;
      }
    }
  }

  /** A name is declared exactly when some usable element carries it. */
  lemma {:induction false} UserDefinedNames(declared: seq<DeclaredParameter>, k: string)
    ensures k in ByName(UsablePairs(declared)) <==>
            exists i :: 0 <= i < |declared| && IsUsable(declared[i]) && declared[i].name.value == k
  {
    if declared != [] {
      var init := declared[..|declared| - 1];
      var last := declared[|declared| - 1];
      UserDefinedNames(init, k);
      if IsUsable(last) {
        assert AsNameValue(last).name == last.name.value;
      }
      if exists i :: 0 <= i < |declared| && IsUsable(declared[i]) && declared[i].name.value == k {
        var i :| 0 <= i < |declared| && IsUsable(declared[i]) && declared[i].name.value == k;
        if i < |init| {
          assert init[i] == declared[i];
        }
      }
      if exists i :: 0 <= i < |init| && IsUsable(init[i]) && init[i].name.value == k {
        var i :| 0 <= i < |init| && IsUsable(init[i]) && init[i].name.value == k;
        assert declared[i] == init[i];
      }
    }
  }
}
