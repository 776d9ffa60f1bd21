/**
 * The MemoryDB service as the resource sees it: a client whose calls may fail.
 * Every call is appended to a log; whether the call at a given log position
 * fails, and with which message, is fixed in advance by `failures`, so the
 * model says nothing about why a remote call fails, only that it may.
 */
module Remote {
  import opened Wrappers
  import opened MemoryDbTypes

  /** A request sent to the service. */
  datatype Call =
    | DescribeParameters(group: string)
    | ResetParameterGroup(group: string, names: seq<string>)
    | UpdateParameterGroup(group: string, parameters: seq<ParameterNameValue>)

  /** The error code the service returns for a group it does not know. */
  const ParameterGroupNotFound: string := "ParameterGroupNotFoundFault"

  class Client {
    /** Every call issued so far, oldest first. */
    var log: seq<Call>
    /** The error message of each failing call, by its position in the log. */
    const failures: map<nat, string>
    /** The parameters the service lists for each existing group. */
    const listings: map<string, seq<Parameter>>

    constructor (failures: map<nat, string>, listings: map<string, seq<Parameter>>)
      ensures log == [] && this.failures == failures && this.listings == listings
    {
      log := [];
      this.failures := failures;
      this.listings := listings;
    }

    /** The error, if any, of the call issued at log position i. */
    function ErrorAt(i: nat): (e: Option<string>)
      ensures e.Some? <==> i in failures
    {
      if i in failures then Some(failures[i]) else None
    }

    /** The answer to DescribeParameters(group) issued at log position i. */
    function DescribeOutcome(i: nat, group: string): (r: Result<seq<Parameter>, string>)
      ensures i in failures ==> r == Failure(failures[i])
      ensures i !in failures && group !in listings ==> r == Failure(ParameterGroupNotFound)
      ensures i !in failures && group in listings ==> r == Success(listings[group])
    {
      if i in failures then Failure(failures[i])
      else if group in listings then Success(listings[group])
      else Failure(ParameterGroupNotFound)
    }

    method Describe(group: string) returns (r: Result<seq<Parameter>, string>)
      modifies this
      ensures log == old(log) + [DescribeParameters(group)]
      ensures r == DescribeOutcome(|old(log)|, group)
    {
      r := DescribeOutcome(|log|, group);
      log := log + [DescribeParameters(group)];
    }

    method Reset(group: string, names: seq<string>) returns (err: Option<string>)
      modifies this
      ensures log == old(log) + [ResetParameterGroup(group, names)]
      ensures err == ErrorAt(|old(log)|)
    {
      err := ErrorAt(|log|);
      log := log + [ResetParameterGroup(group, names)];
    }

    method Update(group: string, parameters: seq<ParameterNameValue>) returns (err: Option<string>)
      modifies this
      ensures log == old(log) + [UpdateParameterGroup(group, parameters)]
      ensures err == ErrorAt(|old(log)|)
    {
      err := ErrorAt(|log|);
      log := log + [UpdateParameterGroup(group, parameters)];
    }
  }
}
