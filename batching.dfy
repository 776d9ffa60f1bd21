/**
 * The batched update of resourceParameterGroupUpdate: the parameters to reset
 * and then the parameters to write are sent in slices of at most MaxParams,
 * one remote call per slice, stopping at the first call that fails.
 */
module Batching {
  import opened Wrappers
  import opened MemoryDbTypes
  import opened Remote

  /** The service accepts at most this many parameters per call. */
  const MaxParams: nat := 20

  /** The slices the update loop cuts from a list: MaxParams items from the head while more remain. */
  function Batches<T>(s: seq<T>): seq<seq<T>>
    decreases |s|
  {
    if |s| == 0 then []
    else if |s| <= MaxParams then [s]
    else [s[..MaxParams]] + Batches(s[MaxParams..])
  }

  function Concat<T>(ss: seq<seq<T>>): seq<T>
  {
    if ss == [] then [] else ss[0] + Concat(ss[1..])
  }

  /** Every batch holds between 1 and MaxParams items. */
  lemma {:induction false} BatchSizes<T>(s: seq<T>)
    ensures forall i :: 0 <= i < |Batches(s)| ==> 1 <= |Batches(s)[i]| <= MaxParams
  {
    if |s| > MaxParams {
      BatchSizes(s[MaxParams..]);
    }
  }

  /** The batches, joined in order, give back the list: nothing lost, repeated or reordered. */
  lemma {:induction false} BatchesConcat<T>(s: seq<T>)
    ensures Concat(Batches(s)) == s
  {
    if |s| > MaxParams {
      BatchesConcat(s[MaxParams..]);
      assert s == s[..MaxParams] + s[MaxParams..];
    } else if |s| > 0 {
      assert Concat(Batches(s)) == s + Concat([]);
    }
  }

  /** A list of length L is sent in ceil(L / MaxParams) calls. */
  lemma {:induction false} BatchCount<T>(s: seq<T>)
    ensures |Batches(s)| == (|s| + MaxParams - 1) / MaxParams
  {
    if |s| > MaxParams {
      BatchCount(s[MaxParams..]);
    }
  }

  /** The names of a slice, as resetParameterGroupParameters sends them. */
  function NamesOf(ps: seq<ParameterNameValue>): (ns: seq<string>)
    ensures |ns| == |ps|
    ensures forall i :: 0 <= i < |ps| ==> ns[i] == ps[i].name
  {
    if ps == [] then [] else NamesOf(ps[..|ps| - 1]) + [ps[|ps| - 1].name]
  }

  function ResetCalls(group: string, bs: seq<seq<ParameterNameValue>>): seq<Call>
  {
    if bs == [] then [] else [ResetParameterGroup(group, NamesOf(bs[0]))] + ResetCalls(group, bs[1..])
  }

  function UpdateCalls(group: string, bs: seq<seq<ParameterNameValue>>): seq<Call>
  {
    if bs == [] then [] else [UpdateParameterGroup(group, bs[0])] + UpdateCalls(group, bs[1..])
  }

  /** Every call the update would send if none failed, in order. */
  function Plan(group: string, toRemove: seq<ParameterNameValue>, toAdd: seq<ParameterNameValue>): seq<Call>
  {
    ResetCalls(group, Batches(toRemove)) + UpdateCalls(group, Batches(toAdd))
  }

  lemma {:induction false} ResetCallsShape(group: string, bs: seq<seq<ParameterNameValue>>)
    ensures |ResetCalls(group, bs)| == |bs|
    ensures forall i :: 0 <= i < |bs| ==> ResetCalls(group, bs)[i] == ResetParameterGroup(group, NamesOf(bs[i]))
  {
    if bs != [] {
      ResetCallsShape(group, bs[1..]);
    }
  }

  lemma {:induction false} UpdateCallsShape(group: string, bs: seq<seq<ParameterNameValue>>)
    ensures |UpdateCalls(group, bs)| == |bs|
    ensures forall i :: 0 <= i < |bs| ==> UpdateCalls(group, bs)[i] == UpdateParameterGroup(group, bs[i])
  {
    if bs != [] {
      UpdateCallsShape(group, bs[1..]);
    }
  }

  /**
   * The plan resets first and writes afterwards: the first ceil(|toRemove| / 20)
   * calls are resets of the successive slices of toRemove, the rest are writes of
   * the successive slices of toAdd, and every call carries 1 to 20 parameters.
   */
  lemma PlanShape(group: string, toRemove: seq<ParameterNameValue>, toAdd: seq<ParameterNameValue>)
    ensures var plan := Plan(group, toRemove, toAdd);
            var resets := |Batches(toRemove)|;
            && resets == (|toRemove| + MaxParams - 1) / MaxParams
            && |plan| == resets + |Batches(toAdd)|
            && |Batches(toAdd)| == (|toAdd| + MaxParams - 1) / MaxParams
            && (forall i :: 0 <= i < resets ==>
                  plan[i] == ResetParameterGroup(group, NamesOf(Batches(toRemove)[i]))
                  && 1 <= |plan[i].names| <= MaxParams)
            && (forall i :: resets <= i < |plan| ==>
                  plan[i] == UpdateParameterGroup(group, Batches(toAdd)[i - resets])
                  && 1 <= |plan[i].parameters| <= MaxParams)
  {
    BatchCount(toRemove);
    BatchCount(toAdd);
    BatchSizes(toRemove);
    BatchSizes(toAdd);
    ResetCallsShape(group, Batches(toRemove));
    UpdateCallsShape(group, Batches(toAdd));
  }

  /** No reset is sent after a write. */
  lemma ResetsBeforeUpdates(group: string, toRemove: seq<ParameterNameValue>, toAdd: seq<ParameterNameValue>, i: nat, j: nat)
    requires i < j < |Plan(group, toRemove, toAdd)|
    requires Plan(group, toRemove, toAdd)[i].UpdateParameterGroup?
    ensures Plan(group, toRemove, toAdd)[j].UpdateParameterGroup?
  {
    PlanShape(group, toRemove, toAdd);
  }

  /** Why the update failed, as resourceParameterGroupUpdate reports it. */
  datatype UpdateError =
    | ResetFailed(group: string, cause: string)
    | ModifyFailed(group: string, cause: string)

  /** The error reported when `call`, issued on `group`, fails with `cause`. */
  function ErrorFor(call: Call, group: string, cause: string): UpdateError
  {
    if call.ResetParameterGroup? then ResetFailed(group, cause) else ModifyFailed(group, cause)
  }

  /**
   * `sent`, issued from log position `base`, is what running `plan` until its
   * first failure issues, and `err` is what that run reports.
   */
  ghost predicate RanUntilFirstFailure(plan: seq<Call>, base: nat, failures: map<nat, string>,
                                       sent: seq<Call>, group: string, err: Option<UpdateError>)
  {
    && sent <= plan
    && (forall i :: base <= i < base + |sent| - 1 ==> i !in failures)
    && (err.None? ==> sent == plan && forall i :: base <= i < base + |sent| ==> i !in failures)
    && (err.Some? ==>
          && sent != []
          && base + |sent| - 1 in failures
          && err.value == ErrorFor(sent[|sent| - 1], group, failures[base + |sent| - 1]))
  }

  /** resetParameterGroupParameters without its retry: one reset of the slice's names. */
  method ResetParameterGroupParameters(client: Client, group: string, parameters: seq<ParameterNameValue>)
    returns (err: Option<string>)
    modifies client
    ensures client.log == old(client.log) + [ResetParameterGroup(group, NamesOf(parameters))]
    ensures err == client.ErrorAt(|old(client.log)|)
  {
    var names: seq<string> := [];
    var i := 0;
    while i < |parameters|
      invariant 0 <= i <= |parameters|
      invariant names == NamesOf(parameters[..i])
    {
      assert parameters[..i + 1][..i] == parameters[..i];
      names := names + [parameters[i].name];
      i := i + 1;
    }
    assert parameters[..i] == parameters;
    err := client.Reset(group, names);
  }

  /** modifyParameterGroupParameters: one write of the slice. */
  method ModifyParameterGroupParameters(client: Client, group: string, parameters: seq<ParameterNameValue>)
    returns (err: Option<string>)
    modifies client
    ensures client.log == old(client.log) + [UpdateParameterGroup(group, parameters)]
    ensures err == client.ErrorAt(|old(client.log)|)
  {
    err := client.Update(group, parameters);
  }

  /**
   * Returning from either loop, whether on a failure (the last call issued
   * failed) or after the last batch: the calls issued are the run of the plan
   * until its first failure.
   */
  lemma ReturnsRanUntilFirstFailure(oldLog: seq<Call>, log: seq<Call>, rest: seq<Call>, plan: seq<Call>,
                                    failures: map<nat, string>, group: string, err: Option<UpdateError>)
    requires |oldLog| <= |log| && log[..|oldLog|] == oldLog
    requires log + rest == oldLog + plan
    requires err.None? ==> rest == [] && forall i :: |oldLog| <= i < |log| ==> i !in failures
    requires err.Some? ==>
               && |oldLog| < |log|
               && (forall i :: |oldLog| <= i < |log| - 1 ==> i !in failures)
               && |log| - 1 in failures
               && err.value == ErrorFor(log[|log| - 1], group, failures[|log| - 1])
    ensures RanUntilFirstFailure(plan, |oldLog|, failures, log[|oldLog|..], group, err)
  {
    assert (log + rest)[|oldLog|..] == log[|oldLog|..] + rest;
    assert (oldLog + plan)[|oldLog|..] == plan;
  }

  /** Running a plan until its first failure can be split where the first part succeeds. */
  lemma RunConcat(p1: seq<Call>, p2: seq<Call>, base: nat, failures: map<nat, string>,
                  s1: seq<Call>, s2: seq<Call>, group: string, err: Option<UpdateError>)
    requires RanUntilFirstFailure(p1, base, failures, s1, group, None)
    requires RanUntilFirstFailure(p2, base + |s1|, failures, s2, group, err)
    ensures RanUntilFirstFailure(p1 + p2, base, failures, s1 + s2, group, err)
  {
    if err.Some? {
      assert (s1 + s2)[|s1 + s2| - 1] == s2[|s2| - 1];
    }
  }

  /** A run that fails inside the first part of a plan is a run of the whole plan. */
  lemma RunFailsEarly(p1: seq<Call>, p2: seq<Call>, base: nat, failures: map<nat, string>,
                      s1: seq<Call>, group: string, err: Option<UpdateError>)
    requires err.Some?
    requires RanUntilFirstFailure(p1, base, failures, s1, group, err)
    ensures RanUntilFirstFailure(p1 + p2, base, failures, s1, group, err)
  {
  }

  /** The first loop of resourceParameterGroupUpdate: reset toRemove slice by slice. */
  method ResetInBatches(client: Client, group: string, toRemove: seq<ParameterNameValue>)
    returns (err: Option<UpdateError>)
    modifies client
    ensures |old(client.log)| <= |client.log| && client.log[..|old(client.log)|] == old(client.log)
    ensures RanUntilFirstFailure(ResetCalls(group, Batches(toRemove)), |old(client.log)|, client.failures,
                                 client.log[|old(client.log)|..], group, err)
  {
    ghost var oldLog := client.log;
    ghost var plan := ResetCalls(group, Batches(toRemove));
    var remaining := toRemove;
    while |remaining| > 0
      invariant |oldLog| <= |client.log| && client.log[..|oldLog|] == oldLog
      invariant client.log + ResetCalls(group, Batches(remaining)) == oldLog + plan
      invariant forall i :: |oldLog| <= i < |client.log| ==> i !in client.failures
      decreases |remaining|
    {
      var batch;
      ghost var before := remaining;
      if |remaining| <= MaxParams {
        batch, remaining := remaining, [];
      } else {
        batch, remaining := remaining[..MaxParams], remaining[MaxParams..];
      }
      assert Batches(before) == [batch] + Batches(remaining);
      ghost var prevLog := client.log;
      var e := ResetParameterGroupParameters(client, group, batch);
      assert client.log + ResetCalls(group, Batches(remaining)) == oldLog + plan by {
        assert client.log == prevLog + [ResetParameterGroup(group, NamesOf(batch))];
      }
      if e.Some? {
        err := Some(ResetFailed(group, e.value));
        ReturnsRanUntilFirstFailure(oldLog, client.log, ResetCalls(group, Batches(remaining)),
                                    plan, client.failures, group, err);
        return;
      }
    }
    err := None;
    ReturnsRanUntilFirstFailure(oldLog, client.log, [], plan, client.failures, group, err);
  }

  /** The second loop of resourceParameterGroupUpdate: write toAdd slice by slice. */
  method ModifyInBatches(client: Client, group: string, toAdd: seq<ParameterNameValue>)
    returns (err: Option<UpdateError>)
    modifies client
    ensures |old(client.log)| <= |client.log| && client.log[..|old(client.log)|] == old(client.log)
    ensures RanUntilFirstFailure(UpdateCalls(group, Batches(toAdd)), |old(client.log)|, client.failures,
                                 client.log[|old(client.log)|..], group, err)
  {
    ghost var oldLog := client.log;
    ghost var plan := UpdateCalls(group, Batches(toAdd));
    var pending := toAdd;
    while |pending| > 0
      invariant |oldLog| <= |client.log| && client.log[..|oldLog|] == oldLog
      invariant client.log + UpdateCalls(group, Batches(pending)) == oldLog + plan
      invariant forall i :: |oldLog| <= i < |client.log| ==> i !in client.failures
      decreases |pending|
    {
      var batch;
      ghost var before := pending;
      if |pending| <= MaxParams {
        batch, pending := pending, [];
      } else {
        batch, pending := pending[..MaxParams], pending[MaxParams..];
      }
      assert Batches(before) == [batch] + Batches(pending);
      ghost var prevLog := client.log;
      var e := ModifyParameterGroupParameters(client, group, batch);
      assert client.log + UpdateCalls(group, Batches(pending)) == oldLog + plan by {
        assert client.log == prevLog + [UpdateParameterGroup(group, batch)];
      }
      if e.Some? {
        err := Some(ModifyFailed(group, e.value));
        ReturnsRanUntilFirstFailure(oldLog, client.log, UpdateCalls(group, Batches(pending)),
                                    plan, client.failures, group, err);
        return;
      }
    }
    err := None;
    ReturnsRanUntilFirstFailure(oldLog, client.log, [], plan, client.failures, group, err);
  }

  /**
   * The two loops of resourceParameterGroupUpdate: reset the slices of
   * toRemove, then write the slices of toAdd, returning at the first failure.
   */
  method ApplyParameterChanges(client: Client, group: string,
                               toRemove: seq<ParameterNameValue>, toAdd: seq<ParameterNameValue>)
    returns (err: Option<UpdateError>)
    modifies client
    ensures |old(client.log)| <= |client.log| && client.log[..|old(client.log)|] == old(client.log)
    ensures RanUntilFirstFailure(Plan(group, toRemove, toAdd), |old(client.log)|, client.failures,
                                 client.log[|old(client.log)|..], group, err)
  {
    ghost var oldLog := client.log;
    err := ResetInBatches(client, group, toRemove);
    ghost var resetLog := client.log;
    if err.Some? {
      RunFailsEarly(ResetCalls(group, Batches(toRemove)), UpdateCalls(group, Batches(toAdd)), |oldLog|,
                    client.failures, client.log[|oldLog|..], group, err);
      return;
    }
    err := ModifyInBatches(client, group, toAdd);
    RunConcat(ResetCalls(group, Batches(toRemove)), UpdateCalls(group, Batches(toAdd)), |oldLog|,
              client.failures, resetLog[|oldLog|..], client.log[|resetLog|..], group, err);
    assert client.log[|oldLog|..] == resetLog[|oldLog|..] + client.log[|resetLog|..];
  }
}
