/**
 * The records of the MemoryDB API that the parameter-group resource handles,
 * and the "key a list by name, the last entry wins" map that the resource
 * builds from such lists in several places.
 */
module MemoryDbTypes {
  import opened Wrappers

  /** A `*string` field of an SDK record: None is the nil pointer. */
  type StringPtr = Option<string>

  /** `aws.StringValue`: the pointed-to string, or "" for nil. */
  function StringValue(p: StringPtr): (s: string)
    ensures p.None? ==> s == ""
    ensures p.Some? ==> s == p.value
  {
    p.GetOr("")
  }

  /**
   * A `memorydb.ParameterNameValue` as the resource builds it: both pointers
   * are always set (expandParameterNameValue), so the fields are plain strings.
   */
  datatype ParameterNameValue = ParameterNameValue(name: string, value: string)

  /** A `memorydb.Parameter` as DescribeParameters returns it; either field may be nil. */
  datatype Parameter = Parameter(name: StringPtr, value: StringPtr)

  /** The names of a list of name/value pairs, as a set. */
  function Names(ps: seq<ParameterNameValue>): set<string>
  {
    set i | 0 <= i < |ps| :: ps[i].name
  }

  /** No name occurs twice in the list. */
  predicate NamesDistinct(ps: seq<ParameterNameValue>)
  {
    forall i, j :: 0 <= i < j < |ps| ==> ps[i].name != ps[j].name
  }

  /**
   * The Go idiom `m[p.name] = p.value` over a list, in list order: a map keyed
   * by name in which the last entry with a given name wins.
   */
  function ByName(ps: seq<ParameterNameValue>): (m: map<string, string>)
    ensures m.Keys == Names(ps)
  {
    if ps == [] then map[]
    else
      var init := ps[..|ps| - 1];
      var last := ps[|ps| - 1];
      assert Names(ps) == Names(init) + {last.name} by {
        forall n | n in Names(ps) ensures n in Names(init) + {last.name} {
          var i :| 0 <= i < |ps| && ps[i].name == n;
          if i < |ps| - 1 { assert init[i].name == n; }
        }
        forall n | n in Names(init) ensures n in Names(ps) {
          var i :| 0 <= i < |init| && init[i].name == n;
          assert ps[i].name == n;
        }
      }
      ByName(init)[last.name := last.value]
  }

  /** The entry at index i wins for its name when no later entry has that name. */
  lemma {:induction false} ByNameLastWins(ps: seq<ParameterNameValue>, i: nat)
    requires i < |ps|
    requires forall j :: i < j < |ps| ==> ps[j].name != ps[i].name
    ensures ps[i].name in ByName(ps) && ByName(ps)[ps[i].name] == ps[i].value
  {
    if i < |ps| - 1 {
      var init := ps[..|ps| - 1];
      ByNameLastWins(init, i);
    }
  }

  /** Every value of the map comes from some entry of the list carrying that name. */
  lemma {:induction false} ByNameValueFromList(ps: seq<ParameterNameValue>, n: string)
    requires n in ByName(ps)
    ensures exists i :: 0 <= i < |ps| && ps[i] == ParameterNameValue(n, ByName(ps)[n])
  {
    var last := ps[|ps| - 1];
    if last.name != n {
      var init := ps[..|ps| - 1];
      ByNameValueFromList(init, n);
      var i :| 0 <= i < |init| && init[i] == ParameterNameValue(n, ByName(init)[n]);
      assert ps[i] == init[i];
    }
  }

  /** A list whose names are distinct loses nothing when keyed by name. */
  lemma {:induction false} ByNameSizeOfDistinct(ps: seq<ParameterNameValue>)
    requires NamesDistinct(ps)
    ensures |ByName(ps)| == |ps|
  {
    if ps != [] {
      var init := ps[..|ps| - 1];
      var last := ps[|ps| - 1];
      ByNameSizeOfDistinct(init);
      forall i | 0 <= i < |init| ensures init[i].name != last.name {
        assert init[i] == ps[i];
      }
      assert last.name !in Names(init);
      assert ByName(ps).Keys == ByName(init).Keys + {last.name};
    }
  }
}
