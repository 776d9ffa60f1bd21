# MemoryDB parameter group: parameter reconciliation

A Dafny model of how the MemoryDB parameter-group resource of the AWS
Terraform provider (internal/service/memorydb/parameter_group.go) reconciles
the parameters a user declares with the parameters the service holds:

- the **differencer** (`ParameterChanges`) compares the previously and the
  newly declared `{name, value}` sets and yields the parameters to reset to
  their defaults and the parameters to write;
- the **batched update** in `resourceParameterGroupUpdate` sends the resets,
  then the writes, at most 20 parameters per remote call, and stops at the
  first call that fails;
- the **effective-parameter lister** (`listParameterGroupParameters`) lists
  the family's default group (named by the guess `"default." + family` with
  `_` turned into `-`) and the group itself, and keeps the parameters whose
  value differs from the default or that the user declared;
- the helpers `flattenParameters` (drop nil values, lower-case names) and
  `createUserDefinedParameterMap` (skip empty names and values, last entry
  wins);
- the validator of an explicit group name.

Modules, one per file: `Wrappers` (Option, Result), `MemoryDbTypes` (the SDK
records, `aws.StringValue`, and `ByName`, the "key a list by name, last entry
wins" map the Go code builds in four places), `Differencer`, `Remote` (the
service client), `Batching`, `ParameterGroupUpdate`, `EffectiveParameters`,
`Flatten`, `ParameterGroupRead`, `NameValidation`.

The remote service is the class `Remote.Client`. Every call it receives is
appended to its `log`. Whether the call at log position i fails, and with
which message, is fixed by the constant map `failures`. The groups it can
list are the constant map `listings`. This is the only stand-in for the AWS
SDK: contracts about the update speak of the calls appended to the log.

Go's map iteration order is unspecified. `ParameterChanges` therefore picks
the next key with `:|`, and its contract states membership only. Each output
list has distinct names, and keyed by name it equals a reference map
(`Removals`, `Updates`).

The model follows what the code does, including where it differs from how
the behaviour is usually summarised:

- Group names are commonly described as having no leading hyphen, but the
  pattern `^[a-z0-9-]*[a-z0-9]$` accepts a name that starts with one.
  `NameValidation.LeadingHyphenAccepted` shows that `"-a"` is accepted.
- Dropping nil values and lower-casing names are done by `flattenParameters`
  after the listing, not by the lister. `ParameterGroupRead.ReadParameters`
  composes the two, as `resourceParameterGroupRead` does.
- The reset list carries the old name/value pairs (`om[k]`), not bare names.
  The reset call sends only their names (`Batching.NamesOf`).

## Model

| member | source | states |
|---|---|---|
| `MemoryDbTypes.StringValue` | internal/service/memorydb/parameter_group.go:349-350 | a nil string reads as "", a set one as its value |
| `MemoryDbTypes.ByName` | internal/service/memorydb/parameter_group.go:384-393 | the map keyed by name has exactly the list's names as keys |
| `MemoryDbTypes.ByNameLastWins` | internal/service/memorydb/parameter_group.go:384-393 | the last entry with a name gives that name's value |
| `MemoryDbTypes.ByNameValueFromList` | internal/service/memorydb/parameter_group.go:384-393 | every value in the map comes from an entry of the list with that name |
| `MemoryDbTypes.ByNameSizeOfDistinct` | internal/service/memorydb/parameter_group.go:396-410 | a list with distinct names has as many entries as its map has keys |
| `Differencer.Declared` | internal/service/memorydb/parameter_group.go:374-379 | a nil declared set is the empty map; otherwise the keys are the declared names |
| `Differencer.KeyByName` | internal/service/memorydb/parameter_group.go:384-393 | the loops building `om` and `nm` produce the last-entry-wins map of the list |
| `Differencer.CollectRemovals` | internal/service/memorydb/parameter_group.go:395-401 | the remove loop lists every old name missing from new, once each, with its old value |
| `Differencer.CollectUpdates` | internal/service/memorydb/parameter_group.go:403-410 | the add-or-update loop lists every new name that is absent from old or has another value, once each, with its new value |
| `Differencer.ParameterChanges` | internal/service/memorydb/parameter_group.go:373-413 | both lists have distinct names; keyed by name they equal the reference maps `Removals` and `Updates` of the declared sets (nil read as empty), and their lengths equal those maps' sizes |
| `Differencer.DiffIsDisjoint` | internal/service/memorydb/parameter_group.go:395-410 | no name is both reset and written |
| `Differencer.UnchangedOmitted` | internal/service/memorydb/parameter_group.go:403-410 | a name declared with the same value before and after is in neither list |
| `Differencer.DiffOfSelfIsEmpty` | internal/service/memorydb/parameter_group.go:395-410 | diffing a declared set against itself yields two empty maps |
| `Differencer.ApplyingDiffGivesNew` | internal/service/memorydb/parameter_group.go:395-410 | removing the reset names from the old declaration and writing the updates over it gives exactly the new declaration |
| `Remote.Client.Describe` | internal/service/memorydb/parameter_group.go:313-324 | one DescribeParameters call is logged; the answer is the failure fixed for that position, or the group's listing, or not-found |
| `Remote.Client.Reset` | internal/service/memorydb/parameter_group.go:286 | one ResetParameterGroup call with these names is logged; it fails iff its position is a failing one |
| `Remote.Client.Update` | internal/service/memorydb/parameter_group.go:303 | one UpdateParameterGroup call with these pairs is logged; it fails iff its position is a failing one |
| `Batching.BatchSizes` | internal/service/memorydb/parameter_group.go:155-164 | every batch cut from a list holds between 1 and 20 items |
| `Batching.BatchesConcat` | internal/service/memorydb/parameter_group.go:155-164 | the batches joined in order give back the list |
| `Batching.BatchCount` | internal/service/memorydb/parameter_group.go:152-164 | a list of length L is cut into ceil(L / 20) batches |
| `Batching.NamesOf` | internal/service/memorydb/parameter_group.go:275-278 | the reset request carries the batch's names, one per parameter, in order |
| `Batching.PlanShape` | internal/service/memorydb/parameter_group.go:152-186 | the calls planned are ceil(len(toRemove) / 20) resets of the successive batches of toRemove, then ceil(len(toAdd) / 20) writes of the successive batches of toAdd, each with 1 to 20 parameters |
| `Batching.ResetsBeforeUpdates` | internal/service/memorydb/parameter_group.go:155-186 | in the plan, no reset comes after a write |
| `Batching.ResetParameterGroupParameters` | internal/service/memorydb/parameter_group.go:274-295 | exactly one reset of the batch's names is issued, and its error is returned |
| `Batching.ModifyParameterGroupParameters` | internal/service/memorydb/parameter_group.go:298-305 | exactly one write of the batch is issued, and its error is returned |
| `Batching.RunConcat` | internal/service/memorydb/parameter_group.go:155-186 | running the resets to completion and then the writes until a failure is running the whole plan until its first failure |
| `Batching.RunFailsEarly` | internal/service/memorydb/parameter_group.go:166-170 | a failing reset ends the run of the whole plan; no write is sent |
| `Batching.ResetInBatches` | internal/service/memorydb/parameter_group.go:155-171 | the reset loop sends the reset batches in order until the first failure, which it reports as a reset error |
| `Batching.ModifyInBatches` | internal/service/memorydb/parameter_group.go:173-186 | the write loop sends the write batches in order until the first failure, which it reports as a modify error |
| `Batching.ApplyParameterChanges` | internal/service/memorydb/parameter_group.go:152-186 | the log grows by exactly the plan cut at its first failing call: all of it and no error when nothing fails, otherwise up to and including the failing call, whose error is returned |
| `ParameterGroupUpdate.PlanCarriesLists` | internal/service/memorydb/parameter_group.go:152-186 | sent in full, the plan resets exactly the names of toRemove and writes exactly toAdd, in order |
| `ParameterGroupUpdate.PrefixCarriesPrefix` | internal/service/memorydb/parameter_group.go:166-170 | a partly sent plan has reset and written prefixes of what the full plan would |
| `ParameterGroupUpdate.PlanPrefixCarriesDiff` | internal/service/memorydb/parameter_group.go:144-186 | any sent prefix of the plan resets only removed names and writes only new or changed values; the full plan covers each exactly once |
| `ParameterGroupUpdate.UpdateParameters` | internal/service/memorydb/parameter_group.go:144-186 | the calls issued and the error returned are exactly the batch plan of the two diff lists run until its first failing call (resets before writes, 1 to 20 parameters per call, the failing call's error); whatever fails, only declared-away names are reset and only new or changed values written; when no call fails every such name is reset once and every such value written once; an unchanged declaration issues no call |
| `EffectiveParameters.ReplaceAll` | internal/service/memorydb/parameter_group.go:329 | replacing a character keeps the length and changes exactly the occurrences of that character |
| `EffectiveParameters.DefaultGroupName` | internal/service/memorydb/parameter_group.go:329 | the default group name is "default." followed by the family with every `_` turned into `-` |
| `EffectiveParameters.DefaultGroupNameHasNoUnderscore` | internal/service/memorydb/parameter_group.go:329 | after the prefix, the default group name holds no underscore |
| `EffectiveParameters.DefaultGroupNameExample` | internal/service/memorydb/parameter_group.go:329 | "memorydb_redis6" gives "default.memorydb-redis6" |
| `EffectiveParameters.DefaultFor` | internal/service/memorydb/parameter_group.go:351 | a name missing from the defaults has the default "" |
| `EffectiveParameters.EffectiveMembership` | internal/service/memorydb/parameter_group.go:346-357 | a parameter is kept iff it is listed and its value differs from its default or its name is user-defined |
| `EffectiveParameters.EffectiveIsSubsequence` | internal/service/memorydb/parameter_group.go:346-357 | the kept parameters are a subsequence of the listing, in listing order |
| `EffectiveParameters.FilterExample` | internal/service/memorydb/parameter_group.go:346-357 | defaults {a:1, b:2}, listing a=1, b=3, c=4: with a declared all three are kept, without it only b and c |
| `EffectiveParameters.ValuePairs` | internal/service/memorydb/parameter_group.go:337-339 | each listed default becomes its name and value, nil read as "", in order |
| `EffectiveParameters.DefaultValueByName` | internal/service/memorydb/parameter_group.go:336-339 | the defaults loop builds the last-entry-wins map of the default listing |
| `EffectiveParameters.FilterEffective` | internal/service/memorydb/parameter_group.go:346-359 | the filter loop keeps exactly the effective parameters, as an order-preserving subsequence of the listing |
| `EffectiveParameters.ListParameterGroupParameters` | internal/service/memorydb/parameter_group.go:312-360 | lists the default group, then the group; a failure of the first is wrapped with the default group's name and stops before the second; a failure of the second is returned; otherwise the result is the filter of the listing against the default map |
| `Flatten.LowerChar` | internal/service/memorydb/parameter_group.go:420 | an ASCII upper-case letter becomes its lower-case letter, any other character is kept |
| `Flatten.ToLower` | internal/service/memorydb/parameter_group.go:420 | lower-casing keeps the length and lowers each character |
| `Flatten.ToLowerIdempotent` | internal/service/memorydb/parameter_group.go:420 | a lowered name has no upper-case ASCII letter, and lowering it again changes nothing |
| `Flatten.ToLowerExample` | internal/service/memorydb/parameter_group.go:420 | "Maxmemory-Policy" is stored as "maxmemory-policy" |
| `Flatten.FlattenedProperties` | internal/service/memorydb/parameter_group.go:415-426 | the output is at most as long as the listing, and exactly as long iff no value is nil; it holds exactly the lower-cased entries of the parameters that have a value |
| `Flatten.FlattenParameters` | internal/service/memorydb/parameter_group.go:415-426 | the loop yields the flattening, in listing order, no longer than the listing, with lower-case names |
| `Flatten.UsablePairs` | internal/service/memorydb/parameter_group.go:438-455 | the kept declared elements have a non-empty name and a non-empty value |
| `Flatten.CreateUserDefinedParameterMap` | internal/service/memorydb/parameter_group.go:435-458 | the map of the usable declared elements, last one winning; it has no empty name and no empty value |
| `Flatten.UserDefinedEntriesNonEmpty` | internal/service/memorydb/parameter_group.go:445-452 | a map built from pairs with non-empty names and values has neither an empty key nor an empty value |
| `Flatten.UserDefinedLastWins` | internal/service/memorydb/parameter_group.go:438-455 | the last usable element with a name gives that name's value |
| `Flatten.UserDefinedNames` | internal/service/memorydb/parameter_group.go:438-455 | a name is user-defined iff some usable element carries it |
| `ParameterGroupRead.ReadParameters` | internal/service/memorydb/parameter_group.go:223-232 | the defaults group and then the group are described, the second call skipped when the first fails; a failed listing fails the read, naming the group and carrying the listing's error; otherwise the state gets the flattened effective parameters |
| `ParameterGroupRead.DeclaredParameterStaysVisible` | internal/service/memorydb/parameter_group.go:346-357 | a declared parameter with a value stays in the state under its lower-cased name, even when it equals the default |
| `ParameterGroupRead.UndeclaredDefaultHidden` | internal/service/memorydb/parameter_group.go:354 | an undeclared parameter at its default is not shown |
| `NameValidation.Utf8Length` | internal/service/memorydb/parameter_group.go:62 | the byte length is at least the character count, and equal iff every character is ASCII |
| `NameValidation.HasDoubleHyphen` | internal/service/memorydb/parameter_group.go:64 | the pattern `[-][-]` matches iff two consecutive characters are hyphens |
| `NameValidation.MatchesNamePattern` | internal/service/memorydb/parameter_group.go:68 | the pattern matches iff the name is non-empty, uses only `[a-z0-9-]` and ends in `[a-z0-9]` |
| `NameValidation.ValidateName` | internal/service/memorydb/parameter_group.go:61-70 | each of the three rules is reported iff it is broken: byte length outside 1..255, a double hyphen, a mismatch of the pattern |
| `NameValidation.AcceptedNameShape` | internal/service/memorydb/parameter_group.go:61-70 | an accepted name has 1 to 255 characters from `[a-z0-9-]`, no double hyphen, and does not end with a hyphen |
| `NameValidation.NameOfShapeAccepted` | internal/service/memorydb/parameter_group.go:61-70 | every name of that shape is accepted |
| `NameValidation.LeadingHyphenAccepted` | internal/service/memorydb/parameter_group.go:68 | the pattern accepts a name that starts with a hyphen |
| `NameValidation.AllRulesReported` | internal/service/memorydb/parameter_group.go:61-70 | a name breaking two rules gets both errors, in rule order, not only the first |
| `NameValidation.LongHyphenRunBreaksAllRules` | internal/service/memorydb/parameter_group.go:61-70 | a run of more than 255 hyphens gets all three errors, in rule order |

## Left out

- The AWS SDK calls are not modelled. `Remote.Client` stands in for them: a log of calls, with each call's failure fixed in advance. The requests' other fields, pagination and the SDK's error types are not modelled.
- `Batching.ResetParameterGroupParameters`: the `resource.Retry` loop is left out. It retries for 30 seconds while the error says the group "has pending changes". It is driven by the wall clock and by matching the error text. The model makes one call, whose outcome stands for the loop's final verdict.
- `ParameterGroupUpdate.UpdateParameters`: the `d.HasChange("parameter")` guard is dropped. When nothing changed, the two declarations are equal, and the contract shows that then no call is issued.
- The declared set's elements are modelled as the pairs `expandParameterNameValue` builds. The Go type assertions there would panic on a malformed element, which the schema rules out. The read path sees the same elements as `Flatten.DeclaredParameter`, because `createUserDefinedParameterMap` checks each field; a usable one becomes the update path's pair through `Flatten.AsNameValue`.
- `ParameterHash` is not modelled. It relies on `create.StringHashcode`, which is not part of this model.
- Tags are not modelled: `UpdateTags`, `ListTags`, and the default and ignore tag settings.
- Create, delete (with not-found treated as success) and import are left out. So are the not-found handling of read, `d.Set`/`d.Get`, name generation with `create.Name`, and logging. These are glue to the Terraform runtime and the SDK.
- The `name_prefix` validator is left out. It depends on `resource.UniqueIDSuffixLength`, which is not part of this model.
- `Flatten.ToLower`: only ASCII letters are lower-cased. Go's `strings.ToLower` also folds other Unicode letters.
- `Flatten.LowerChar`: only an ASCII upper-case letter is lowered; other Unicode upper-case letters are kept, the same gap as `Flatten.ToLower`.
- Error messages are modelled as error values (`UpdateError`, `ListError`, `ReadError`) carrying the group name and the cause, not as formatted strings.
