/**
 * The parameter part of resourceParameterGroupRead: read the declared
 * parameters, list the effective ones and flatten them into the state.
 */
module ParameterGroupRead {
  import opened Wrappers
  import opened MemoryDbTypes
  import opened Remote
  import opened EffectiveParameters
  import opened Flatten

  /** The read fails, naming the group, when listing its parameters fails. */
  datatype ReadError = ListingFailed(id: string, cause: ListError)

  /**
   * The parameters the read stores: the group's effective parameters,
   * flattened; no partial result when either listing fails.
   */
  method ReadParameters(client: Client, family: string, id: string, declared: seq<DeclaredParameter>)
    returns (r: Result<seq<ParameterNameValue>, ReadError>)
    modifies client
    ensures var defaultsGroup := DefaultGroupName(family);
            var base := |old(client.log)|;
            var first := client.DescribeOutcome(base, defaultsGroup);
            var second := client.DescribeOutcome(base + 1, id);
            if first.Failure? then
              && client.log == old(client.log) + [DescribeParameters(defaultsGroup)]
              && r == Failure(ListingFailed(id, ListDefaultsFailed(defaultsGroup, first.error)))
            else
              && client.log == old(client.log) + [DescribeParameters(defaultsGroup), DescribeParameters(id)]
              && r == if second.Failure? then Failure(ListingFailed(id, ListFailed(second.error)))
                      else Success(Flattened(Effective(second.value, ByName(ValuePairs(first.value)),
                                                       ByName(UsablePairs(declared)))))
  {
    var userDefinedParameters := CreateUserDefinedParameterMap(declared);
    var parameters := ListParameterGroupParameters(client, family, id, userDefinedParameters);
    if parameters.Failure? {
      return Failure(ListingFailed(id, parameters.error));
    }
    var flattened := FlattenParameters(parameters.value);
    return Success(flattened);
  }

  /**
   * A parameter the user declared stays in the state after a read even when
   * its value equals the family default, under its lower-cased name.
   */
  lemma DeclaredParameterStaysVisible(current: seq<Parameter>, defaults: map<string, string>,
                                      declared: seq<DeclaredParameter>, p: Parameter)
    requires p in current && p.value.Some?
    requires ParamName(p) in ByName(UsablePairs(declared))
    ensures Flat(p) in Flattened(Effective(current, defaults, ByName(UsablePairs(declared))))
  {
    var shown := Effective(current, defaults, ByName(UsablePairs(declared)));
    EffectiveMembership(current, defaults, ByName(UsablePairs(declared)), p);
    FlattenedProperties(shown);
  }

  /**
   * A parameter that still has its family default and that the user did not
   * declare is not shown.
   */
  lemma UndeclaredDefaultHidden(current: seq<Parameter>, defaults: map<string, string>,
                                userDefined: map<string, string>, p: Parameter)
    requires ParamValue(p) == DefaultFor(defaults, ParamName(p)) && ParamName(p) !in userDefined
    ensures p !in Effective(current, defaults, userDefined)
  {
    EffectiveMembership(current, defaults, userDefined, p);
  }
}
