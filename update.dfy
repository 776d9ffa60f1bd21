/**
 * The parameter part of resourceParameterGroupUpdate: diff the old and new
 * declarations, then send the resets and the writes in batches.
 */
module ParameterGroupUpdate {
  import opened Wrappers
  import opened MemoryDbTypes
  import opened Remote
  import opened Differencer
  import opened Batching

  /** The parameter names the reset calls among `calls` carry, in order. */
  function ResetNames(calls: seq<Call>): seq<string>
  {
    if calls == [] then []
    else (if calls[0].ResetParameterGroup? then calls[0].names else []) + ResetNames(calls[1..])
  }

  /** The parameters the write calls among `calls` carry, in order. */
  function Written(calls: seq<Call>): seq<ParameterNameValue>
  {
    if calls == [] then []
    else (if calls[0].UpdateParameterGroup? then calls[0].parameters else []) + Written(calls[1..])
  }

  lemma {:induction false} ResetNamesConcat(a: seq<Call>, b: seq<Call>)
    ensures ResetNames(a + b) == ResetNames(a) + ResetNames(b)
  {
    if a != [] {
      ResetNamesConcat(a[1..], b);
      assert (a + b)[1..] == a[1..] + b;
    } else {
      assert a + b == b;
    }
  }

  lemma {:induction false} WrittenConcat(a: seq<Call>, b: seq<Call>)
    ensures Written(a + b) == Written(a) + Written(b)
  {
    if a != [] {
      WrittenConcat(a[1..], b);
      assert (a + b)[1..] == a[1..] + b;
    } else {
      assert a + b == b;
    }
  }

  lemma {:induction false} ResetCallsCarry(group: string, bs: seq<seq<ParameterNameValue>>)
    ensures ResetNames(ResetCalls(group, bs)) == NamesOf(Concat(bs))
    ensures Written(ResetCalls(group, bs)) == []
  {
    if bs != [] {
      ResetCallsCarry(group, bs[1..]);
      NamesOfConcat(bs[0], Concat(bs[1..]));
    }
  }

  lemma {:induction false} UpdateCallsCarry(group: string, bs: seq<seq<ParameterNameValue>>)
    ensures ResetNames(UpdateCalls(group, bs)) == []
    ensures Written(UpdateCalls(group, bs)) == Concat(bs)
  {
    if bs != [] {
      UpdateCallsCarry(group, bs[1..]);
    }
  }

  lemma NamesOfConcat(a: seq<ParameterNameValue>, b: seq<ParameterNameValue>)
    ensures NamesOf(a + b) == NamesOf(a) + NamesOf(b)
  {
  }

  /** Sent in full, the plan resets exactly the names of toRemove and writes exactly toAdd, in order. */
  lemma PlanCarriesLists(group: string, toRemove: seq<ParameterNameValue>, toAdd: seq<ParameterNameValue>)
    ensures ResetNames(Plan(group, toRemove, toAdd)) == NamesOf(toRemove)
    ensures Written(Plan(group, toRemove, toAdd)) == toAdd
  {
    var rs := ResetCalls(group, Batches(toRemove));
    var us := UpdateCalls(group, Batches(toAdd));
    ResetNamesConcat(rs, us);
    WrittenConcat(rs, us);
    ResetCallsCarry(group, Batches(toRemove));
    UpdateCallsCarry(group, Batches(toAdd));
    BatchesConcat(toRemove);
    BatchesConcat(toAdd);
  }

  /** What a prefix of a plan carries is a prefix of what the plan carries. */
  lemma PrefixCarriesPrefix(sent: seq<Call>, plan: seq<Call>)
    requires sent <= plan
    ensures ResetNames(sent) <= ResetNames(plan)
    ensures Written(sent) <= Written(plan)
  {
    var rest := plan[|sent|..];
    assert plan == sent + rest;
    ResetNamesConcat(sent, rest);
    WrittenConcat(sent, rest);
  }

  /**
   * What the calls `sent` carry, against the diff: only declared-away names are
   * reset and only new or changed values are written; and when the run was
   * complete, every such name is reset exactly once and every such value
   * written exactly once.
   */
  ghost predicate CarriesDiff(sent: seq<Call>, removals: map<string, string>, updates: map<string, string>,
                              complete: bool)
  {
    && (forall k :: k in ResetNames(sent) ==> k in removals)
    && (forall p :: p in Written(sent) ==> p.name in updates && updates[p.name] == p.value)
    && (complete ==>
          && (forall k :: k in removals ==> k in ResetNames(sent))
          && |ResetNames(sent)| == |removals|
          && ByName(Written(sent)) == updates
          && |Written(sent)| == |updates|)
  }

  /** A prefix of the plan built from the differencer's lists carries the diff. */
  lemma PlanPrefixCarriesDiff(group: string, toRemove: seq<ParameterNameValue>, toAdd: seq<ParameterNameValue>,
                              sent: seq<Call>, removals: map<string, string>, updates: map<string, string>,
                              complete: bool)
    requires NamesDistinct(toRemove) && ByName(toRemove) == removals && |toRemove| == |removals|
    requires NamesDistinct(toAdd) && ByName(toAdd) == updates && |toAdd| == |updates|
    requires sent <= Plan(group, toRemove, toAdd)
    requires complete ==> sent == Plan(group, toRemove, toAdd)
    ensures CarriesDiff(sent, removals, updates, complete)
  {
    PlanCarriesLists(group, toRemove, toAdd);
    PrefixCarriesPrefix(sent, Plan(group, toRemove, toAdd));
    forall k | k in ResetNames(sent) ensures k in removals {
      var i :| 0 <= i < |ResetNames(sent)| && ResetNames(sent)[i] == k;
      assert NamesOf(toRemove)[i] == toRemove[i].name;
      assert toRemove[i].name in Names(toRemove);
    }
    forall p | p in Written(sent) ensures p.name in updates && updates[p.name] == p.value {
      var i :| 0 <= i < |Written(sent)| && Written(sent)[i] == p;
      assert toAdd[i] == p;
      ByNameLastWins(toAdd, i);
    }
    if complete {
      forall k | k in removals ensures k in ResetNames(sent) {
        assert k in Names(toRemove);
        var i :| 0 <= i < |toRemove| && toRemove[i].name == k;
        assert NamesOf(toRemove)[i] == k;
      }
    }
  }

  /**
   * The parameter branch of resourceParameterGroupUpdate: diff the two
   * declarations, then reset and write in batches until the first failure.
   * The calls issued and the error returned are those of running the batch
   * plan of some diff lists until its first failing call.
   */
  method UpdateParameters(client: Client, group: string,
                          o: Option<seq<ParameterNameValue>>, n: Option<seq<ParameterNameValue>>)
    returns (err: Option<UpdateError>)
    modifies client
    ensures |old(client.log)| <= |client.log| && client.log[..|old(client.log)|] == old(client.log)
    ensures CarriesDiff(client.log[|old(client.log)|..], Removals(Declared(o), Declared(n)),
                        Updates(Declared(o), Declared(n)), err.None?)
    ensures exists toRemove, toAdd ::
              && NamesDistinct(toRemove) && ByName(toRemove) == Removals(Declared(o), Declared(n))
              && NamesDistinct(toAdd) && ByName(toAdd) == Updates(Declared(o), Declared(n))
              && RanUntilFirstFailure(Plan(group, toRemove, toAdd), |old(client.log)|, client.failures,
                                      client.log[|old(client.log)|..], group, err)
    ensures Declared(o) == Declared(n) ==> client.log == old(client.log) && err.None?
  {
    var toRemove, toAdd := ParameterChanges(o, n);
    ghost var base := |client.log|;
    err := ApplyParameterChanges(client, group, toRemove, toAdd);
    PlanPrefixCarriesDiff(group, toRemove, toAdd, client.log[base..], Removals(Declared(o), Declared(n)),
                          Updates(Declared(o), Declared(n)), err.None?);
    if Declared(o) == Declared(n) {
      DiffOfSelfIsEmpty(Declared(o));
      assert toRemove == [] && toAdd == [];
      assert Plan(group, toRemove, toAdd) == [];
      assert client.log == client.log[..base] + client.log[base..];
    }
  }
}
