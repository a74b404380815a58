# DB options and Java index resolution (trivy)

A Dafny model of two small decision procedures of trivy's database handling:

- **DB option validation** (`DBFlagGroup.ToOptions`): the flag values read for the DB
  group are checked for the two mutually exclusive mode pairs (download-only with
  skip-update, first for the vulnerability DB, then for the Java DB), the DB repository
  locator is parsed, and a tag reference without a tag is re-tagged with the schema
  version. Module `DBFlags` (db_flags.dfy), with the decimal rendering of the schema
  version in module `Decimal` (decimal.dfy).
- **Java index client** (`DB` methods): existence check, lookup by SHA-1 digest, lookup
  by artifact ID and version with group-ID disambiguation, and nil-safe close. Module
  `JavaDB` (javadb.dfy); the disambiguator is module `GroupTally` (group_tally.dfy).
  `Option`/`Result` live in module `Outcomes` (outcomes.dfy).

External collaborators are inputs:

- The registry-reference parser is the function parameter `parse` of `ToOptions`. It
  returns `Parsed(Tag(repo, tag))`, `Parsed(Digest(repo, digest))` or `ParseFailed(cause)`.
  Because the source parses with an empty default tag, a locator without a tag parses to
  `Tag(repo, "")`.
- The schema version is the `schemaVersion` parameter. `Decimal.Render` is its
  `fmt.Sprint` form.
- The index store is a `Driver` value. Its three query answers are function-valued
  fields and its close outcome is a field. A nil client is `None`.

The Go map that tallies group IDs is iterated in an unspecified order. `MostFrequent`
models this by enumerating the tally keys with `:|` and then running `ScanInOrder`, the
literal strict-greater scan, over that order. The contract allows every most frequent
group. `AnyMaximalGroupCanWin` shows that every such group is returned by some
iteration order. No lexicographic or other tie-break is imposed, because the code has
none.

## Model

| member | source | states |
|---|---|---|
| DBFlags.ToOptions | pkg/flag/db_flags.go:130-173 | a main-DB mode conflict yields the main-DB conflict error, whatever the other inputs are; otherwise a Java-DB conflict yields the Java-DB error; otherwise a locator that fails to parse yields "invalid db repository" wrapping the parse cause; success holds exactly when none of these happen; on success the six flag values and the auth URL pass through, the Java DB repository is unset, the DB repository is unset exactly when the flag is absent, and otherwise it is the parsed reference with the schema version added |
| DBFlags.WithSchemaVersion | pkg/flag/db_flags.go:154-156 | keeps the kind of reference and the repository; a tag reference with an empty tag gets a canonical decimal tag that reads back as the schema version; explicit tags and digests come back unchanged; every tag reference in the result has a non-empty tag |
| DBFlags.OptionsHaveNoConflict | pkg/flag/db_flags.go:141-146 | successful options never set both download-only and skip-update for either database |
| DBFlags.ConflictIndependentOfRepository | pkg/flag/db_flags.go:141-153 | when a mode conflict is present the result is an error, and it does not depend on the repository locator, the parser or the schema version, because the mode checks run before parsing |
| DBFlags.OptionsRepositoryIsTagged | pkg/flag/db_flags.go:150-159 | a tag reference in successful options always carries a non-empty tag |
| DBFlags.WithSchemaVersionIdempotent | pkg/flag/db_flags.go:155-156 | normalising an already normalised reference changes nothing |
| DBFlags.Message | pkg/flag/db_flags.go:142-152 | reproduces the three error texts: each conflict message names both of its flags in command-line form, and the invalid-repository message is the fixed prefix followed by exactly the parser's message |
| DBFlags.MessageInjective | pkg/flag/db_flags.go:141-153 | different option errors have different messages, so the two conflicts and each invalid-repository cause can be told apart |
| Decimal.Render | pkg/flag/db_flags.go:156 | the schema-version tag is a non-empty string of digits with no leading zero, one character long exactly for versions below ten |
| Decimal.ValueOfRender | pkg/flag/db_flags.go:156 | reading the rendered tag as a decimal gives back the schema version |
| Decimal.RenderInjective | pkg/flag/db_flags.go:156 | different schema versions give different tags |
| GroupTally.Tally | pkg/javadb/client.go:66-73 | the tally has a key for exactly the group IDs that occur, and each key maps to that group's number of occurrences |
| GroupTally.ScanInOrder | pkg/javadb/client.go:74-81 | after the scan, the kept count is at least every scanned key's count; the kept group is the starting one or a scanned key whose count equals the kept count and exceeds the starting count |
| GroupTally.MostFrequent | pkg/javadb/client.go:64-83 | for non-empty input, the result occurs in the input and no group occurs more often |
| GroupTally.AnyMaximalGroupCanWin | pkg/javadb/client.go:76-81 | a most frequent group that the map yields first is the result, whatever order the other keys come in, so on a tie every maximal group is a possible result |
| GroupTally.OrderDoesNotMatter | pkg/javadb/client.go:60-62 | reordering the rows, as the sort by group ID does, does not change which groups are most frequent |
| GroupTally.SingleGroupWins | pkg/javadb/client.go:66-83 | with a single distinct group, that group is the only possible result |
| GroupTally.JstlExample | pkg/javadb/client.go:64-65 | with rows javax.servlet, jstl, javax.servlet, the only possible result is javax.servlet |
| GroupTally.EvenSplitIsOpen | pkg/javadb/client.go:76-81 | with one jstl row and one javax.servlet row, both groups are possible results |
| JavaDB.Exists | pkg/javadb/client.go:31-37 | a store error is returned as it is; otherwise the answer is true exactly when the row's artifact ID is non-empty; the store is queried with artifact ID first and group ID second |
| JavaDB.SearchBySHA1 | pkg/javadb/client.go:39-51 | a store error becomes a select error; an empty artifact ID becomes ArtifactNotFound naming the queried digest; otherwise the result is exactly the row's group ID, artifact ID and version, and a success never carries an empty artifact ID |
| JavaDB.SearchByArtifactID | pkg/javadb/client.go:53-84 | the store is asked for jar rows only; a store error becomes a select error; no rows gives ArtifactNotFound naming the artifact ID; otherwise the result is a most frequent group ID among the rows; a store failure is reported exactly when the query failed, and a miss exactly when it returned no rows |
| JavaDB.SearchResultIsAMatchingRow | pkg/javadb/client.go:66-83 | a returned group ID is the group ID of one of the rows the store returned |
| JavaDB.SentinelAgreement | pkg/javadb/client.go:31-51 | given the same store row, the existence check answers true exactly when the digest search succeeds, and false exactly when the digest search reports ArtifactNotFound, so both read the empty-artifact-ID sentinel the same way |
| JavaDB.SearchBySHA1SeparatesMissFromFailure | pkg/javadb/client.go:39-45 | the digest search reports a store failure exactly when the query failed, and ArtifactNotFound exactly when the query answered with the sentinel row |
| JavaDB.Close | pkg/javadb/client.go:86-91 | closing a nil client reports no error; otherwise the store's close outcome is returned |

## Left out

- `parseFlags` (pkg/flag/db_flags.go:131-133): the flag runtime is not part of this model, and `ToOptions` starts from the values it has read.
- Flag declarations, aliases such as the deprecated `skip-update`, and the removed/deprecated metadata (pkg/flag/db_flags.go:13-128). These are data for the flag runtime.
- The reference parser itself. It is a foreign library, so it is the `parse` parameter.
- The `log.Info` call after re-tagging (pkg/flag/db_flags.go:157-158). It is output only.
- `Init`, the global `config` and `NewClient` (pkg/javadb/client.go:12-29). These are process-wide state and opening a MySQL-backed store.
- The store queries and `driver.Close()`. Their outcomes are fields of `Driver`.
- The `sort.Slice` call (pkg/javadb/client.go:60-62) is not performed. `OrderDoesNotMatter` shows that row order cannot affect the set of possible results.
- The zero value Go returns beside an error (`false`, empty `Properties`, empty string) is not modelled: a `Result` carries either a value or an error.
- The text of the not-found error is not modelled. `ArtifactNotFound` records only the digest or artifact ID its message names.
- DBFlags.WithSchemaVersion: the schema version is a natural number. The source's `int` constant is positive, so negative renderings are not modelled.
