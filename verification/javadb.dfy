/**
  The Java index client (`DB` in pkg/javadb/client.go). The store behind it is outside
  the model: its query answers are the fields of `Driver`, so every operation is a pure
  function of the driver and the query.
 */
module JavaDB {
  import opened Outcomes
  import GroupTally

  /** The archive kind the artifact-ID search asks the store for. */
  datatype FileType = JarType

  /** One row of the index. An empty `artifactID` is the store's "no match" sentinel. */
  datatype Index = Index(groupID: string, artifactID: string, version: string)

  /** The coordinate handed back to the jar analyser. */
  datatype Properties = Properties(groupID: string, artifactID: string, version: string)

  /**
    The store's answers. `Err(cause)` is a failed query; the query functions take their
    arguments in the store's order (artifact ID before group ID).
   */
  datatype Driver = Driver(
    selectIndexByArtifactIDAndGroupID: (string, string) -> Result<Index, string>,
    selectIndexBySha1: string -> Result<Index, string>,
    selectIndexesByArtifactIDAndFileType: (string, string, FileType) -> Result<seq<Index>, string>,
    closeError: Option<string>)

  datatype DB = DB(driver: Driver)

  /** What a lookup missed: the digest or the artifact ID, as the error message names it. */
  datatype Query = ByDigest(sha1: string) | ByArtifactID(artifactID: string)

  datatype LookupError =
    | StoreError(cause: string)        // a store error passed on as it is
    | SelectError(cause: string)       // a store error wrapped as "select error"
    | ArtifactNotFound(query: Query)   // a semantic miss, wrapping the not-found error

  /** Whether the error wraps the not-found error, as `errors.Is` would tell. */
  predicate IsArtifactNotFound(e: LookupError) {
    e.ArtifactNotFound?
  }

  /** Whether the error reports a failed store query rather than a miss. */
  predicate IsStoreFailure(e: LookupError) {
    e.StoreError? || e.SelectError?
  }

  function GroupIDs(indexes: seq<Index>): seq<string> {
    seq(|indexes|, i requires 0 <= i < |indexes| => indexes[i].groupID)
  }

  /** Whether the index holds the package `groupID:artifactID`. */
  function Exists(d: DB, groupID: string, artifactID: string): (r: Result<bool, LookupError>)
    ensures match d.driver.selectIndexByArtifactIDAndGroupID(artifactID, groupID)
            case Err(cause) => r == Err(StoreError(cause))
            case Ok(index) => r.Ok? && (r.value <==> index.artifactID != "")
  {
    match d.driver.selectIndexByArtifactIDAndGroupID(artifactID, groupID)
    case Err(cause) => Err(StoreError(cause))
    case Ok(index) => Ok(index.artifactID != "")
  }

  /** Looks a jar up by its SHA-1 digest. */
  function SearchBySHA1(d: DB, sha1: string): (r: Result<Properties, LookupError>)
    ensures r.Ok? ==> r.value.artifactID != ""
    ensures r.Err? && IsArtifactNotFound(r.error) ==> r.error.query == ByDigest(sha1)
    ensures match d.driver.selectIndexBySha1(sha1)
            case Err(cause) => r == Err(SelectError(cause))
            case Ok(index) =>
              if index.artifactID == "" then r == Err(ArtifactNotFound(ByDigest(sha1)))
              else r == Ok(Properties(index.groupID, index.artifactID, index.version))
  {
    match d.driver.selectIndexBySha1(sha1)
    case Err(cause) => Err(SelectError(cause))
    case Ok(index) =>
      if index.artifactID == "" then Err(ArtifactNotFound(ByDigest(sha1)))
      else Ok(Properties(index.groupID, index.artifactID, index.version))
  }

  /**
    Finds the group ID of a jar from its artifact ID and version. When several groups
    share the artifact ID, one with the most index rows is returned; which one on a tie is
    not fixed.
   */
  method SearchByArtifactID(d: DB, artifactID: string, version: string)
    returns (r: Result<string, LookupError>)
    ensures match d.driver.selectIndexesByArtifactIDAndFileType(artifactID, version, JarType)
            case Err(cause) => r == Err(SelectError(cause))
            case Ok(indexes) =>
              if |indexes| == 0 then r == Err(ArtifactNotFound(ByArtifactID(artifactID)))
              else r.Ok? && GroupTally.IsMostFrequent(GroupIDs(indexes), r.value)
    ensures var answer := d.driver.selectIndexesByArtifactIDAndFileType(artifactID, version, JarType);
            && (r.Err? && IsStoreFailure(r.error) <==> answer.Err?)
            && (r.Err? && IsArtifactNotFound(r.error) <==> answer.Ok? && |answer.value| == 0)
  {
    match d.driver.selectIndexesByArtifactIDAndFileType(artifactID, version, JarType)
    case Err(cause) =>
      r := Err(SelectError(cause));
    case Ok(indexes) =>
      if |indexes| == 0 {
        r := Err(ArtifactNotFound(ByArtifactID(artifactID)));
      } else {
        var groupID := GroupTally.MostFrequent(GroupIDs(indexes));
        r := Ok(groupID);
      }
  }

  /** A returned group always belongs to some matching row. */
  lemma SearchResultIsAMatchingRow(indexes: seq<Index>, g: string)
    requires GroupTally.IsMostFrequent(GroupIDs(indexes), g)
    ensures exists i :: 0 <= i < |indexes| && indexes[i].groupID == g
  {
  }

  /**
    Both lookups read the empty-artifact-ID sentinel the same way: given the same store
    row, the package exists exactly when the digest search succeeds, and it is absent
    exactly when the digest search reports a miss.
   */
  lemma SentinelAgreement(d: DB, groupID: string, artifactID: string, sha1: string)
    requires d.driver.selectIndexByArtifactIDAndGroupID(artifactID, groupID)
             == d.driver.selectIndexBySha1(sha1)
    ensures Exists(d, groupID, artifactID) == Ok(true) <==> SearchBySHA1(d, sha1).Ok?
    ensures Exists(d, groupID, artifactID) == Ok(false) <==>
            SearchBySHA1(d, sha1).Err? && IsArtifactNotFound(SearchBySHA1(d, sha1).error)
  {
  }

  /**
    A failed store query is never reported as a miss, and a miss never hides a failed
    query: the digest search reports a store failure exactly when the query failed, and
    a miss exactly when the query answered with the sentinel row.
   */
  lemma SearchBySHA1SeparatesMissFromFailure(d: DB, sha1: string)
    ensures var r := SearchBySHA1(d, sha1);
            var answer := d.driver.selectIndexBySha1(sha1);
            && (r.Err? && IsStoreFailure(r.error) <==> answer.Err?)
            && (r.Err? && IsArtifactNotFound(r.error) <==> answer.Ok? && answer.value.artifactID == "")
  {
  }

  /** Releases the store; closing a nil client does nothing and reports no error. */
  function Close(d: Option<DB>): (err: Option<string>)
    ensures d.None? ==> err.None?
    ensures d.Some? ==> err == d.value.driver.closeError
  {
    match d
    case None => None
    case Some(db) => db.driver.closeError
  }
}
