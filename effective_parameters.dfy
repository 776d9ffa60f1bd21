/**
 * listParameterGroupParameters: the parameters of a group worth showing, that
 * is those whose value differs from the family default or that the user
 * declared, read from the group's listing and the family's default group.
 */
module EffectiveParameters {
  import opened Wrappers
  import opened MemoryDbTypes
  import opened Remote

  /** `strings.ReplaceAll` for a one-character pattern and replacement. */
  function ReplaceAll(s: string, from: char, to: char): (r: string)
    ensures |r| == |s|
    ensures forall i :: 0 <= i < |s| ==> r[i] == if s[i] == from then to else s[i]
  {
    if s == [] then [] else [if s[0] == from then to else s[0]] + ReplaceAll(s[1..], from, to)
  }

  const DefaultGroupPrefix: string := "default."

  /** The guessed name of the family's default parameter group. */
  function DefaultGroupName(family: string): (name: string)
    ensures |name| == |DefaultGroupPrefix| + |family|
    ensures name[..|DefaultGroupPrefix|] == DefaultGroupPrefix
    ensures forall i :: 0 <= i < |family| ==>
              name[|DefaultGroupPrefix| + i] == if family[i] == '_' then '-' else family[i]
  {
    DefaultGroupPrefix + ReplaceAll(family, '_', '-')
  }

  /** After the prefix, the default group name holds no underscore. */
  lemma DefaultGroupNameHasNoUnderscore(family: string)
    ensures forall i :: |DefaultGroupPrefix| <= i < |DefaultGroupName(family)| ==> DefaultGroupName(family)[i] != '_'
  {
    var name := DefaultGroupName(family);
    forall i | |DefaultGroupPrefix| <= i < |name| ensures name[i] != '_' {
      assert name[|DefaultGroupPrefix| + (i - |DefaultGroupPrefix|)] == name[i];
    }
  }

  /** The family "memorydb_redis6" has the default group "default.memorydb-redis6". */
  lemma DefaultGroupNameExample(family: string)
    requires family == "memorydb_redis6"
    ensures DefaultGroupName(family) == "default.memorydb-redis6"
  {
  }

  /** `aws.StringValue(p.Name)` and `aws.StringValue(p.Value)`. */
  function ParamName(p: Parameter): string { StringValue(p.name) }
  function ParamValue(p: Parameter): string { StringValue(p.value) }

  /** The default of a name; Go's zero value "" when the default group lacks it. */
  function DefaultFor(defaults: map<string, string>, name: string): (d: string)
    ensures name !in defaults ==> d == ""
    ensures name in defaults ==> d == defaults[name]
  {
    if name in defaults then defaults[name] else ""
  }

  /** The filter's test: the value differs from the default, or the user declared the name. */
  predicate IsEffective(p: Parameter, defaults: map<string, string>, userDefined: map<string, string>)
  {
    ParamValue(p) != DefaultFor(defaults, ParamName(p)) || ParamName(p) in userDefined
  }

  /** Reference definition of the filter: the effective parameters, in listing order. */
  function Effective(current: seq<Parameter>, defaults: map<string, string>, userDefined: map<string, string>)
    : seq<Parameter>
  {
    if current == [] then []
    else
      var init := Effective(current[..|current| - 1], defaults, userDefined);
      if IsEffective(current[|current| - 1], defaults, userDefined) then init + [current[|current| - 1]] else init
  }

  /** `a` is `b` with some elements left out and the rest in their order. */
  predicate IsSubsequence<T(==)>(a: seq<T>, b: seq<T>)
    decreases |b|
  {
    if b == [] then a == []
    else
      IsSubsequence(a, b[..|b| - 1])
      || (a != [] && a[|a| - 1] == b[|b| - 1] && IsSubsequence(a[..|a| - 1], b[..|b| - 1]))
  }

  /** A parameter is shown exactly when it is listed and passes the test. */
  lemma {:induction false} EffectiveMembership(current: seq<Parameter>, defaults: map<string, string>,
                                               userDefined: map<string, string>, p: Parameter)
    ensures p in Effective(current, defaults, userDefined) <==> p in current && IsEffective(p, defaults, userDefined)
  {
    if current != [] {
      var init := current[..|current| - 1];
      EffectiveMembership(init, defaults, userDefined, p);
      assert current == init + [current[|current| - 1]];
    }
  }

  /** The filter keeps the listing order and never invents a parameter. */
  lemma {:induction false} EffectiveIsSubsequence(current: seq<Parameter>, defaults: map<string, string>,
                                                  userDefined: map<string, string>)
    ensures IsSubsequence(Effective(current, defaults, userDefined), current)
  {
    if current != [] {
      var init := current[..|current| - 1];
      EffectiveIsSubsequence(init, defaults, userDefined);
      var r := Effective(current, defaults, userDefined);
      if IsEffective(current[|current| - 1], defaults, userDefined) {
        assert r[..|r| - 1] == Effective(init, defaults, userDefined);
      }
    }
  }

  /**
   * Defaults {a: "1", b: "2"}, listing a=1, b=3, c=4, user declared {a}: all
   * three are shown; a only because it was declared, c because a missing
   * default counts as "".
   */
  lemma FilterExample()
    ensures var defaults := map["a" := "1", "b" := "2"];
            var a := Parameter(Some("a"), Some("1"));
            var b := Parameter(Some("b"), Some("3"));
            var c := Parameter(Some("c"), Some("4"));
            && Effective([a, b, c], defaults, map["a" := "1"]) == [a, b, c]
            && Effective([a, b, c], defaults, map[]) == [b, c]
  {
    var a := Parameter(Some("a"), Some("1"));
    var b := Parameter(Some("b"), Some("3"));
    var c := Parameter(Some("c"), Some("4"));
    var defaults := map["a" := "1", "b" := "2"];
    assert IsEffective(a, defaults, map["a" := "1"]) && !IsEffective(a, defaults, map[]);
    assert ParamValue(b) == "3" && DefaultFor(defaults, ParamName(b)) == "2";
    assert IsEffective(b, defaults, map[]) && IsEffective(b, defaults, map["a" := "1"]);
    assert ParamValue(c) == "4" && DefaultFor(defaults, ParamName(c)) == "";
    assert IsEffective(c, defaults, map[]) && IsEffective(c, defaults, map["a" := "1"]);
    assert [a, b, c][..2] == [a, b];
    assert [a, b][..1] == [a];
    assert [a][..0] == [];
    assert Effective([a], defaults, map["a" := "1"]) == [a];
    assert Effective([a, b], defaults, map["a" := "1"]) == [a, b];
    assert Effective([a], defaults, map[]) == [];
    assert Effective([a, b], defaults, map[]) == [b];
  }

  /** The listing as name/value pairs, nil fields read as "". */
  function ValuePairs(ps: seq<Parameter>): (r: seq<ParameterNameValue>)
    ensures |r| == |ps|
    ensures forall i :: 0 <= i < |ps| ==> r[i] == ParameterNameValue(ParamName(ps[i]), ParamValue(ps[i]))
  {
    if ps == [] then [] else ValuePairs(ps[..|ps| - 1]) + [ParameterNameValue(ParamName(ps[|ps| - 1]), ParamValue(ps[|ps| - 1]))]
  }

  /** The loop building defaultValueByName. */
  method DefaultValueByName(defaults: seq<Parameter>) returns (m: map<string, string>)
    ensures m == ByName(ValuePairs(defaults))
  {
    m := map[];
    var i := 0;
    while i < |defaults|
      invariant 0 <= i <= |defaults|
      invariant m == ByName(ValuePairs(defaults[..i]))
    {
      assert defaults[..i + 1][..i] == defaults[..i];
      m := m[ParamName(defaults[i]) := ParamValue(defaults[i])];
      i := i + 1;
    }
    assert defaults[..i] == defaults;
  }

  /** The filtering loop of listParameterGroupParameters. */
  method FilterEffective(current: seq<Parameter>, defaults: map<string, string>, userDefined: map<string, string>)
    returns (result: seq<Parameter>)
    ensures result == Effective(current, defaults, userDefined)
    ensures forall p :: p in result <==> p in current && IsEffective(p, defaults, userDefined)
    ensures IsSubsequence(result, current)
  {
    result := [];
    var i := 0;
    while i < |current|
      invariant 0 <= i <= |current|
      invariant result == Effective(current[..i], defaults, userDefined)
    {
      assert current[..i + 1][..i] == current[..i];
      var parameter := current[i];
      var name := ParamName(parameter);
      var currentValue := ParamValue(parameter);
      var defaultValue := DefaultFor(defaults, name);
      var isUserDefined := name in userDefined;
      if currentValue != defaultValue || isUserDefined {
        result := result + [parameter];
      }
      i := i + 1;
    }
    assert current[..i] == current;
    forall p ensures p in result <==> p in current && IsEffective(p, defaults, userDefined) {
      EffectiveMembership(current, defaults, userDefined, p);
    }
    EffectiveIsSubsequence(current, defaults, userDefined);
  }

  /** Why listing failed: the defaults could not be listed (wrapped), or the group itself could not. */
  datatype ListError =
    | ListDefaultsFailed(defaultsGroup: string, cause: string)
    | ListFailed(cause: string)

  /**
   * listParameterGroupParameters: list the family's default group, then the
   * group itself, and keep the effective parameters. A failed listing aborts
   * with no partial result, and the group is not listed once the defaults failed.
   */
  method ListParameterGroupParameters(client: Client, family: string, name: string,
                                      userDefined: map<string, string>)
    returns (r: Result<seq<Parameter>, ListError>)
    modifies client
    ensures var defaultsGroup := DefaultGroupName(family);
            var base := |old(client.log)|;
            var first := client.DescribeOutcome(base, defaultsGroup);
            var second := client.DescribeOutcome(base + 1, name);
            if first.Failure? then
              && client.log == old(client.log) + [DescribeParameters(defaultsGroup)]
              && r == Failure(ListDefaultsFailed(defaultsGroup, first.error))
            else
              && client.log == old(client.log) + [DescribeParameters(defaultsGroup), DescribeParameters(name)]
              && r == if second.Failure? then Failure(ListFailed(second.error))
                      else Success(Effective(second.value, ByName(ValuePairs(first.value)), userDefined))
  {
    var defaultsFamily := DefaultGroupName(family);
    var defaults := client.Describe(defaultsFamily);
    if defaults.Failure? {
      return Failure(ListDefaultsFailed(defaultsFamily, defaults.error));
    }
    var defaultValueByName := DefaultValueByName(defaults.value);
    var current := client.Describe(name);
    if current.Failure? {
      return Failure(ListFailed(current.error));
    }
    var result := FilterEffective(current.value, defaultValueByName, userDefined);
    return Success(result);
  }
}
