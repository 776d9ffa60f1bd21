/**
 * The differencer of the parameter-group resource (ParameterChanges): from the
 * previously declared and the newly declared parameter sets it computes the
 * parameters to reset to their defaults and the parameters to write.
 */
module Differencer {
  import opened Wrappers
  import opened MemoryDbTypes

  /** A declared parameter set keyed by name; a nil set counts as empty. */
  function Declared(s: Option<seq<ParameterNameValue>>): (m: map<string, string>)
    ensures s.None? ==> m == map[]
    ensures s.Some? ==> m.Keys == Names(s.value)
  {
    if s.None? then map[] else ByName(s.value)
  }

  /** Reference definition of the reset list: old entries whose name is not declared any more. */
  function Removals(om: map<string, string>, nm: map<string, string>): map<string, string>
  {
    map k | k in om && k !in nm :: om[k]
  }

  /** Reference definition of the write list: new entries that are absent from old or changed. */
  function Updates(om: map<string, string>, nm: map<string, string>): map<string, string>
  {
    map k | k in nm && (k !in om || om[k] != nm[k]) :: nm[k]
  }

  /** Keys a list into a map entry by entry, as the two loops building `om` and `nm` do. */
  method KeyByName(ps: seq<ParameterNameValue>) returns (m: map<string, string>)
    ensures m == ByName(ps)
  {
    m := map[];
    var i := 0;
    while i < |ps|
      invariant 0 <= i <= |ps|
      invariant m == ByName(ps[..i])
    {
      assert ps[..i + 1][..i] == ps[..i];
      m := m[ps[i].name := ps[i].value];
      i := i + 1;
    }
    assert ps[..i] == ps;
  }

  /**
   * ParameterChanges. The Go code walks its maps in an unspecified order; here
   * the next key is chosen arbitrarily, so only membership is promised: each
   * output list names every qualifying parameter exactly once, with its value.
   */
  method ParameterChanges(o: Option<seq<ParameterNameValue>>, n: Option<seq<ParameterNameValue>>)
    returns (remove: seq<ParameterNameValue>, addOrUpdate: seq<ParameterNameValue>)
    ensures NamesDistinct(remove) && ByName(remove) == Removals(Declared(o), Declared(n))
    ensures NamesDistinct(addOrUpdate) && ByName(addOrUpdate) == Updates(Declared(o), Declared(n))
    ensures |remove| == |Removals(Declared(o), Declared(n))|
    ensures |addOrUpdate| == |Updates(Declared(o), Declared(n))|
  {
    var os := if o.None? then [] else o.value;
    var ns := if n.None? then [] else n.value;
    var om := KeyByName(os);
    var nm := KeyByName(ns);
    remove := CollectRemovals(om, nm);
    addOrUpdate := CollectUpdates(om, nm);
    ByNameSizeOfDistinct(remove);
    ByNameSizeOfDistinct(addOrUpdate);
  }

  /** The old entries among the keys `done` whose name is not in `nm`. */
  function RemovalsAmong(om: map<string, string>, nm: map<string, string>, done: set<string>): map<string, string>
  {
    map k | k in om && k in done && k !in nm :: om[k]
  }

  /** The new entries among the keys `done` that are absent from `om` or changed. */
  function UpdatesAmong(om: map<string, string>, nm: map<string, string>, done: set<string>): map<string, string>
  {
    map k | k in nm && k in done && (k !in om || om[k] != nm[k]) :: nm[k]
  }

  /** The "remove" loop of ParameterChanges: every old key absent from the new map. */
  method CollectRemovals(om: map<string, string>, nm: map<string, string>)
    returns (remove: seq<ParameterNameValue>)
    ensures NamesDistinct(remove) && ByName(remove) == Removals(om, nm)
  {
    remove := [];
    var pending := om.Keys;
    ghost var done: set<string> := {};
    while pending != {}
      invariant pending + done == om.Keys && pending !! done
      invariant NamesDistinct(remove)
      invariant ByName(remove) == RemovalsAmong(om, nm, done)
      decreases pending
    {
      var k :| k in pending;
      if k !in nm {
        AppendDistinct(remove, ParameterNameValue(k, om[k]));
        remove := remove + [ParameterNameValue(k, om[k])];
      }
      RemovalsStep(om, nm, done, k);
      pending, done := pending - {k}, done + {k};
    }
    assert RemovalsAmong(om, nm, done) == Removals(om, nm);
  }

  /** The "add or update" loop of ParameterChanges: every new key that is absent from old or changed. */
  method CollectUpdates(om: map<string, string>, nm: map<string, string>)
    returns (addOrUpdate: seq<ParameterNameValue>)
    ensures NamesDistinct(addOrUpdate) && ByName(addOrUpdate) == Updates(om, nm)
  {
    addOrUpdate := [];
    var pending := nm.Keys;
    ghost var done: set<string> := {};
    while pending != {}
      invariant pending + done == nm.Keys && pending !! done
      invariant NamesDistinct(addOrUpdate)
      invariant ByName(addOrUpdate) == UpdatesAmong(om, nm, done)
      decreases pending
    {
      var k :| k in pending;
      if k !in om || om[k] != nm[k] {
        AppendDistinct(addOrUpdate, ParameterNameValue(k, nm[k]));
        addOrUpdate := addOrUpdate + [ParameterNameValue(k, nm[k])];
      }
      UpdatesStep(om, nm, done, k);
      pending, done := pending - {k}, done + {k};
    }
    assert UpdatesAmong(om, nm, done) == Updates(om, nm);
  }

  lemma RemovalsStep(om: map<string, string>, nm: map<string, string>, done: set<string>, k: string)
    requires k in om && k !in done
    ensures RemovalsAmong(om, nm, done + {k}) ==
            if k !in nm then RemovalsAmong(om, nm, done)[k := om[k]] else RemovalsAmong(om, nm, done)
  {
  }

  lemma UpdatesStep(om: map<string, string>, nm: map<string, string>, done: set<string>, k: string)
    requires k in nm && k !in done
    ensures UpdatesAmong(om, nm, done + {k}) ==
            if k !in om || om[k] != nm[k] then UpdatesAmong(om, nm, done)[k := nm[k]]
            else UpdatesAmong(om, nm, done)
  {
  }

  /** Appending an entry with a fresh name keeps the names distinct and adds one key. */
  lemma AppendDistinct(ps: seq<ParameterNameValue>, p: ParameterNameValue)
    requires NamesDistinct(ps) && p.name !in Names(ps)
    ensures NamesDistinct(ps + [p])
    ensures ByName(ps + [p]) == ByName(ps)[p.name := p.value]
  {
    assert (ps + [p])[..|ps|] == ps;
    forall i | 0 <= i < |ps| ensures ps[i].name != p.name {
      assert ps[i].name in Names(ps);
    }
  }

  /** No parameter is both reset and written. */
  lemma DiffIsDisjoint(om: map<string, string>, nm: map<string, string>)
    ensures Removals(om, nm).Keys !! Updates(om, nm).Keys
  {
  }

  /** A name declared with the same value before and after appears in neither list. */
  lemma UnchangedOmitted(om: map<string, string>, nm: map<string, string>, k: string)
    requires k in om && k in nm && om[k] == nm[k]
    ensures k !in Removals(om, nm) && k !in Updates(om, nm)
  {
  }

  /** Diffing a declared set against itself yields nothing to do. */
  lemma DiffOfSelfIsEmpty(m: map<string, string>)
    ensures Removals(m, m) == map[] && Updates(m, m) == map[]
  {
    assert Removals(m, m).Keys == {};
    assert Updates(m, m).Keys == {};
  }

  /**
   * The diff is complete: dropping the reset names from the old declaration
   * and writing the updates over it gives exactly the new declaration.
   */
  lemma ApplyingDiffGivesNew(om: map<string, string>, nm: map<string, string>)
    ensures (om - Removals(om, nm).Keys) + Updates(om, nm) == nm
  {
    var r := (om - Removals(om, nm).Keys) + Updates(om, nm);
    forall k | k in r ensures k in nm && r[k] == nm[k] {
      if k !in Updates(om, nm) {
        assert k in om && k !in Removals(om, nm);
      }
    }
    forall k | k in nm ensures k in r {
      if k !in Updates(om, nm) {
        assert k in om && om[k] == nm[k];
      }
    }
  }
}
