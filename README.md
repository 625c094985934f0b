# Composer group packages.json merge

A Dafny model of the merge step of a Composer group repository in Nexus
Repository: `ComposerGroupPackagesJsonHandler.doGet` and `parseResponse`.
Asked for `packages.json` on a group, the handler collects one response per
member repository, keeps those with status 200 and a non-null payload, answers
not-found when none is kept, parses every kept payload into a map from package
name to URL (a parse failure is fatal for the whole request), unites the key
sets of those maps into one name set, and hands that set to a document builder.

The model lives in two modules:

- `ComposerGroupPackagesJson` (`composer_group_packages_json.dfy`): the data
  model (`Response`, `Payload`, `ParseResult`, `Error`, `Outcome`), the filter,
  `parseResponse`, the parse-all stream, the key-union loop, `doGet` as a
  method proved against the function `GroupOutcome`, and the lemmas about it.
- `Scenarios` (`scenarios.dfy`): concrete groups (a failed member between two
  good ones, all members not-found, a malformed successful payload, all
  listings empty, two malformed payloads in either order).

Collaborators become parameters: the responses gathered by `getAll` are a given
sequence (the values of its member->response map, in any order); the
packages.json parser is a function `parse: Payload -> ParseResult` that either
returns the map or stands for the `IOException` it throws (kept by its
message); the document builder is a function `build: set<string> -> D` whose
document the OK outcome carries. The repository argument of the builder is
fixed for one request and so is folded into `build`.

A group whose kept members all answer with empty listings is not treated as
not-found. The emptiness test at line 64 looks at the list of kept responses,
not at the union, so such a group gives OK with an empty name set
(`AllEmptyIsOk`, `Scenarios.EmptyListingsAreOk`).

## Model

| member | source | states |
|---|---|---|
| `ComposerGroupPackagesJson.IsSuccessful` | src/main/java/org/sonatype/nexus/repository/composer/internal/ComposerGroupPackagesJsonHandler.java:62 | the filter's test: the status code is 200 (`HttpStatus.OK`) and the payload is not null |
| `ComposerGroupPackagesJson.Successful` | src/main/java/org/sonatype/nexus/repository/composer/internal/ComposerGroupPackagesJsonHandler.java:61-63 | a response is kept exactly when it has status 200 and a non-null payload; every other response is dropped without any error |
| `ComposerGroupPackagesJson.SuccessfulCounts` | src/main/java/org/sonatype/nexus/repository/composer/internal/ComposerGroupPackagesJsonHandler.java:61-63 | the filter keeps each successful response as many times as it occurs and no unsuccessful one (the kept list is a sub-multiset of the input) |
| `ComposerGroupPackagesJson.SuccessfulConcat` | src/main/java/org/sonatype/nexus/repository/composer/internal/ComposerGroupPackagesJsonHandler.java:61-63 | the filter preserves order: filtering a concatenation is the concatenation of the filtered parts |
| `ComposerGroupPackagesJson.ParseResponse` | src/main/java/org/sonatype/nexus/repository/composer/internal/ComposerGroupPackagesJsonHandler.java:78-85 | parseResponse: a null payload fails `checkNotNull` (`NullPayload`); otherwise the parser's map, or its IOException wrapped as an unchecked error (`UncheckedIO` with the same message) |
| `ComposerGroupPackagesJson.ParseResponseOfKept` | src/main/java/org/sonatype/nexus/repository/composer/internal/ComposerGroupPackagesJsonHandler.java:78-85 | on a kept response `checkNotNull` never fires; parseResponse fails exactly when the parser throws, with an unchecked exception wrapping that IOException, and otherwise returns the parser's map |
| `ComposerGroupPackagesJson.ParseAll` | src/main/java/org/sonatype/nexus/repository/composer/internal/ComposerGroupPackagesJsonHandler.java:68-69 | the collected list exists exactly when every kept response parses, and then holds their maps position by position; otherwise the error raised is that of the first kept response that fails, all before it having parsed |
| `ComposerGroupPackagesJson.NamesOf` | src/main/java/org/sonatype/nexus/repository/composer/internal/ComposerGroupPackagesJsonHandler.java:70-73 | a name is in the united set exactly when it is a key of one of the parsed maps |
| `ComposerGroupPackagesJson.UnionKeys` | src/main/java/org/sonatype/nexus/repository/composer/internal/ComposerGroupPackagesJsonHandler.java:70-73 | the loop that adds each map's key set to one set ends with the union of all key sets; its invariant is that the set is the union of the maps processed so far |
| `ComposerGroupPackagesJson.GroupOutcome` | src/main/java/org/sonatype/nexus/repository/composer/internal/ComposerGroupPackagesJsonHandler.java:54-76 | doGet as a function: not-found when the filtered list is empty, the first parse error when a kept payload fails, otherwise OK with the union of the parsed key sets and the builder's document for that set; the lemmas below characterise it over the responses |
| `ComposerGroupPackagesJson.DoGet` | src/main/java/org/sonatype/nexus/repository/composer/internal/ComposerGroupPackagesJsonHandler.java:54-76 | doGet's outcome: not-found exactly when no response is successful, fatal exactly when some successful payload fails to parse, and otherwise OK with the keys of every successful payload and the document built from them |
| `ComposerGroupPackagesJson.NotFoundExactly` | src/main/java/org/sonatype/nexus/repository/composer/internal/ComposerGroupPackagesJsonHandler.java:64-66 | the outcome is not-found exactly when no response passes the filter (zero members included), and in that case nothing is thrown |
| `ComposerGroupPackagesJson.FatalExactly` | src/main/java/org/sonatype/nexus/repository/composer/internal/ComposerGroupPackagesJsonHandler.java:68-84 | the call fails exactly when some successful payload fails to parse, even when others parse; the unchecked error carries the IOException of a successful payload |
| `ComposerGroupPackagesJson.ParsedNames` | src/main/java/org/sonatype/nexus/repository/composer/internal/ComposerGroupPackagesJsonHandler.java:68-73 | when every kept payload parses, the united key sets of the parsed list are exactly the keys of the maps parsed from successful responses |
| `ComposerGroupPackagesJson.OkNames` | src/main/java/org/sonatype/nexus/repository/composer/internal/ComposerGroupPackagesJsonHandler.java:68-75 | an OK outcome carries exactly the keys of every successful payload, the values discarded, and the document the builder makes from that set |
| `ComposerGroupPackagesJson.OutcomeCharacterized` | src/main/java/org/sonatype/nexus/repository/composer/internal/ComposerGroupPackagesJsonHandler.java:61-75 | the three cases together: not-found, fatal and OK, each stated over the responses alone |
| `ComposerGroupPackagesJson.UnsuccessfulIgnored` | src/main/java/org/sonatype/nexus/repository/composer/internal/ComposerGroupPackagesJsonHandler.java:61-63 | inserting an unsuccessful response anywhere leaves the outcome unchanged, including which exception a fatal outcome carries |
| `ComposerGroupPackagesJson.ParserSeesOnlyKept` | src/main/java/org/sonatype/nexus/repository/composer/internal/ComposerGroupPackagesJsonHandler.java:61-69 | two parsers that agree on the successful payloads give the same outcome, so an unparsable body on a filtered-out member cannot make the call fatal |
| `ComposerGroupPackagesJson.ValuesDiscarded` | src/main/java/org/sonatype/nexus/repository/composer/internal/ComposerGroupPackagesJsonHandler.java:70-73 | two parsers that fail alike and otherwise return maps with the same keys, whatever their values, give the same outcome |
| `ComposerGroupPackagesJson.OrderIndependent` | src/main/java/org/sonatype/nexus/repository/composer/internal/ComposerGroupPackagesJsonHandler.java:60-73 | two response lists with the same elements, in any order and with any repetition, agree on whether the outcome is not-found or fatal, and an OK outcome is the same for both |
| `ComposerGroupPackagesJson.MergeOfConcatenation` | src/main/java/org/sonatype/nexus/repository/composer/internal/ComposerGroupPackagesJsonHandler.java:70-73 | merging two response lists that each merge to OK gives OK with the union of their name sets, so a name several members list appears once |
| `ComposerGroupPackagesJson.SingleMember` | src/main/java/org/sonatype/nexus/repository/composer/internal/ComposerGroupPackagesJsonHandler.java:61-75 | a group whose only response is successful and parses lists exactly the keys of that response's map |
| `ComposerGroupPackagesJson.RepeatedNamesCollapse` | src/main/java/org/sonatype/nexus/repository/composer/internal/ComposerGroupPackagesJsonHandler.java:70-73 | one more successful member whose names are all already present, with any values, leaves an OK outcome exactly as it was |
| `ComposerGroupPackagesJson.AllEmptyIsOk` | src/main/java/org/sonatype/nexus/repository/composer/internal/ComposerGroupPackagesJsonHandler.java:64-75 | when something is kept and every kept payload parses to an empty map, the outcome is OK with an empty name set, not not-found |
| `Scenarios.UnionSkipsFailedMember` | src/main/java/org/sonatype/nexus/repository/composer/internal/ComposerGroupPackagesJsonHandler.java:61-75 | members listing {foo, bar}, failing with status 500, and listing {bar, baz} merge to OK with {foo, bar, baz} |
| `Scenarios.AllNotFound` | src/main/java/org/sonatype/nexus/repository/composer/internal/ComposerGroupPackagesJsonHandler.java:61-66 | two members answering 404 give not-found |
| `Scenarios.MalformedMemberIsFatal` | src/main/java/org/sonatype/nexus/repository/composer/internal/ComposerGroupPackagesJsonHandler.java:68-84 | a malformed successful payload before a member listing {foo} makes the call fatal with that payload's IOException, not OK with {foo} |
| `Scenarios.EmptyListingsAreOk` | src/main/java/org/sonatype/nexus/repository/composer/internal/ComposerGroupPackagesJsonHandler.java:64-75 | two members answering 200 with empty listings give OK with no names |
| `Scenarios.FatalCauseFollowsOrder` | src/main/java/org/sonatype/nexus/repository/composer/internal/ComposerGroupPackagesJsonHandler.java:68-69 | with two malformed successful payloads the call is fatal in either order, carrying the IOException of whichever comes first |

## Left out

- `getAll` and the member fan-out (line 60): the request replication, authentication and transport live in `GroupHandler`, which is not part of this model; its result is a given sequence of responses.
- `ComposerJsonProcessor.parsePackagesJson` and `buildPackagesJson` (lines 75, 80): JSON parsing and document serialisation are not part of this model; they are the parameters `parse` and `build`.
- Repository and facet lookup, `Context`, and the construction of the OK and not-found HTTP responses (lines 58-59, 65, 75): framework plumbing, represented by the outcome tags `NotFound`, `Ok` and `Fatal`.
- Dependency injection and `checkNotNull` on the constructor argument (lines 48-51): wiring with no behaviour.
- Timeouts, cancellation and parallel dispatch: nothing in the handler implements them.
- Runtime exceptions thrown by the parser itself (anything but an `IOException`) are not modelled: `parse` either returns a map or stands for an `IOException`.
- OrderIndependent: for a fatal outcome it states only that the call is fatal whatever the order, not that the carried IOException is the same, because the stream reports the first failing kept response and that one depends on order (`Scenarios.FatalCauseFollowsOrder`).
- The iteration order of the `HashSet` of names is not modelled: the name set is a mathematical set.
