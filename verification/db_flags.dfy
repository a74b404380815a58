/**
  Validation of the DB flag group and normalisation of the DB repository reference
  (`DBFlagGroup.ToOptions` in pkg/flag/db_flags.go).
 */
module DBFlags {
  import opened Outcomes
  import Decimal

  /** A parsed OCI reference: a repository qualified by a tag or by a digest. */
  datatype Reference =
    | Tag(repository: string, tag: string)
    | Digest(repository: string, digest: string)

  /**
    The outcome of the registry-reference parser, which lies outside this model. With an
    empty default tag, a locator without an explicit tag parses to `Tag(repo, "")`.
   */
  datatype ParseResult = Parsed(reference: Reference) | ParseFailed(cause: string)

  /**
    The flag values `ToOptions` reads. `dbRepository` is `None` when the group carries
    no DB-repository flag at all (a nil flag pointer).
   */
  datatype DBFlagGroup = DBFlagGroup(
    reset: bool,
    downloadDBOnly: bool,
    skipDBUpdate: bool,
    downloadJavaDBOnly: bool,
    skipJavaDBUpdate: bool,
    noProgress: bool,
    dbRepository: Option<string>,
    javaDBAuthURL: string)

  datatype DBOptions = DBOptions(
    reset: bool,
    downloadDBOnly: bool,
    skipDBUpdate: bool,
    downloadJavaDBOnly: bool,
    skipJavaDBUpdate: bool,
    noProgress: bool,
    dbRepository: Option<Reference>,
    javaDBRepository: Option<Reference>,
    javaDBAuthURL: string)

  datatype OptionsError =
    | ConflictingDBModes
    | ConflictingJavaDBModes
    | InvalidRepository(cause: string)

  const InvalidRepositoryPrefix: string := "invalid db repository: "

  /** `part` occurs in `s` starting at position `i`. */
  predicate OccursAt(s: string, part: string, i: int) {
    0 <= i <= |s| - |part| && s[i..i + |part|] == part
  }

  /** `part` occurs somewhere in `s`. */
  predicate Mentions(s: string, part: string) {
    exists i :: 0 <= i <= |s| && OccursAt(s, part, i)
  }

  /** A mode-conflict message, naming both flags in their command-line spelling. */
  function ConflictMessage(skipFlag: string, downloadFlag: string): (m: string)
    ensures Mentions(m, "--" + skipFlag) && Mentions(m, "--" + downloadFlag)
  {
    var head := "--" + skipFlag + " and ";
    var m := head + "--" + downloadFlag + " options can not be specified both";
    assert OccursAt(m, "--" + skipFlag, 0);
    assert OccursAt(m, "--" + downloadFlag, |head|);
    m
  }

  /**
    The text the user sees for each error: a conflict names both of its flags, and an
    invalid repository wraps the parser's message behind a fixed prefix.
   */
  function Message(e: OptionsError): (m: string)
    ensures e.ConflictingDBModes? ==>
              Mentions(m, "--skip-db-update") && Mentions(m, "--download-db-only")
    ensures e.ConflictingJavaDBModes? ==>
              Mentions(m, "--skip-java-db-update") && Mentions(m, "--download-java-db-only")
    ensures e.InvalidRepository? ==>
              && |InvalidRepositoryPrefix| <= |m|
              && m[..|InvalidRepositoryPrefix|] == InvalidRepositoryPrefix
              && m[|InvalidRepositoryPrefix|..] == e.cause
  {
    match e
    case ConflictingDBModes =>
      assert "--" + "skip-db-update" == "--skip-db-update";
      assert "--" + "download-db-only" == "--download-db-only";
      ConflictMessage("skip-db-update", "download-db-only")
    case ConflictingJavaDBModes =>
      assert "--" + "skip-java-db-update" == "--skip-java-db-update";
      assert "--" + "download-java-db-only" == "--download-java-db-only";
      ConflictMessage("skip-java-db-update", "download-java-db-only")
    case InvalidRepository(cause) => InvalidRepositoryPrefix + cause
  }

  /** Download-only and skip-update exclude each other for one database. */
  predicate Conflicting(downloadOnly: bool, skipUpdate: bool) {
    downloadOnly && skipUpdate
  }

  /**
    Backward compatibility: a tag reference without a tag gets the schema version as
    its tag. Explicit tags and digests are kept as they are.
   */
  function WithSchemaVersion(ref: Reference, schemaVersion: nat): (r: Reference)
    ensures r.Tag? == ref.Tag? && r.repository == ref.repository
    ensures ref.Tag? && ref.tag == "" ==>
              Decimal.IsCanonical(r.tag) && Decimal.Value(r.tag) == schemaVersion
    ensures ref.Digest? || ref.tag != "" ==> r == ref
    ensures r.Tag? ==> r.tag != ""
  {
    if ref.Tag? && ref.tag == "" then
      Decimal.ValueOfRender(schemaVersion);
      Tag(ref.repository, Decimal.Render(schemaVersion))
    else ref
  }

  /**
    Turns the flag values into options: the two mode conflicts are rejected first, main
    DB before Java DB, then the repository is parsed and, if untagged, re-tagged.
   */
  function ToOptions(f: DBFlagGroup, parse: string -> ParseResult, schemaVersion: nat)
    : (r: Result<DBOptions, OptionsError>)
    ensures Conflicting(f.downloadDBOnly, f.skipDBUpdate) ==> r == Err(ConflictingDBModes)
    ensures !Conflicting(f.downloadDBOnly, f.skipDBUpdate)
            && Conflicting(f.downloadJavaDBOnly, f.skipJavaDBUpdate)
            ==> r == Err(ConflictingJavaDBModes)
    ensures !Conflicting(f.downloadDBOnly, f.skipDBUpdate)
            && !Conflicting(f.downloadJavaDBOnly, f.skipJavaDBUpdate)
            && f.dbRepository.Some? && parse(f.dbRepository.value).ParseFailed?
            ==> r == Err(InvalidRepository(parse(f.dbRepository.value).cause))
    ensures r.Ok? <==>
            && !Conflicting(f.downloadDBOnly, f.skipDBUpdate)
            && !Conflicting(f.downloadJavaDBOnly, f.skipJavaDBUpdate)
            && (f.dbRepository.None? || parse(f.dbRepository.value).Parsed?)
    ensures r.Ok? ==>
            && r.value.reset == f.reset
            && r.value.downloadDBOnly == f.downloadDBOnly
            && r.value.skipDBUpdate == f.skipDBUpdate
            && r.value.downloadJavaDBOnly == f.downloadJavaDBOnly
            && r.value.skipJavaDBUpdate == f.skipJavaDBUpdate
            && r.value.noProgress == f.noProgress
            && r.value.javaDBAuthURL == f.javaDBAuthURL
    ensures r.Ok? ==> r.value.javaDBRepository.None?
    ensures r.Ok? ==> (r.value.dbRepository.None? <==> f.dbRepository.None?)
    ensures r.Ok? && f.dbRepository.Some? ==>
            r.value.dbRepository.value
            == WithSchemaVersion(parse(f.dbRepository.value).reference, schemaVersion)
  {
    if Conflicting(f.downloadDBOnly, f.skipDBUpdate) then
      Err(ConflictingDBModes)
    else if Conflicting(f.downloadJavaDBOnly, f.skipJavaDBUpdate) then
      Err(ConflictingJavaDBModes)
    else
      var dbRepository: Result<Option<Reference>, OptionsError> :=
        match f.dbRepository
        case None => Ok(None)
        case Some(locator) =>
          match parse(locator)
          case ParseFailed(cause) => Err(InvalidRepository(cause))
          case Parsed(ref) => Ok(Some(WithSchemaVersion(ref, schemaVersion)));
      if dbRepository.Err? then Err(dbRepository.error)
      else
        Ok(DBOptions(
             reset := f.reset,
             downloadDBOnly := f.downloadDBOnly,
             skipDBUpdate := f.skipDBUpdate,
             downloadJavaDBOnly := f.downloadJavaDBOnly,
             skipJavaDBUpdate := f.skipJavaDBUpdate,
             noProgress := f.noProgress,
             dbRepository := dbRepository.value,
             javaDBRepository := None,
             javaDBAuthURL := f.javaDBAuthURL))
  }

  /** The options that `ToOptions` hands out never ask one database to both download only and skip its update. */
  lemma OptionsHaveNoConflict(f: DBFlagGroup, parse: string -> ParseResult, schemaVersion: nat)
    requires ToOptions(f, parse, schemaVersion).Ok?
    ensures var o := ToOptions(f, parse, schemaVersion).value;
            !Conflicting(o.downloadDBOnly, o.skipDBUpdate)
            && !Conflicting(o.downloadJavaDBOnly, o.skipJavaDBUpdate)
  {
  }

  /**
    The mode checks come before parsing: a mode conflict is reported whatever the
    repository locator and parser, so the parser's outcome cannot change the verdict.
   */
  lemma ConflictIndependentOfRepository(
    f: DBFlagGroup, g: DBFlagGroup,
    parse: string -> ParseResult, parse': string -> ParseResult,
    schemaVersion: nat, schemaVersion': nat)
    requires f.downloadDBOnly == g.downloadDBOnly && f.skipDBUpdate == g.skipDBUpdate
    requires f.downloadJavaDBOnly == g.downloadJavaDBOnly && f.skipJavaDBUpdate == g.skipJavaDBUpdate
    requires Conflicting(f.downloadDBOnly, f.skipDBUpdate)
             || Conflicting(f.downloadJavaDBOnly, f.skipJavaDBUpdate)
    ensures ToOptions(f, parse, schemaVersion) == ToOptions(g, parse', schemaVersion')
    ensures ToOptions(f, parse, schemaVersion).Err?
  {
  }

  /** Every tag reference in successful options carries a tag. */
  lemma OptionsRepositoryIsTagged(f: DBFlagGroup, parse: string -> ParseResult, schemaVersion: nat)
    requires ToOptions(f, parse, schemaVersion).Ok?
    requires ToOptions(f, parse, schemaVersion).value.dbRepository.Some?
    ensures var ref := ToOptions(f, parse, schemaVersion).value.dbRepository.value;
            ref.Tag? ==> ref.tag != ""
  {
  }

  /** Normalising twice is normalising once, whatever schema version the second pass uses. */
  lemma WithSchemaVersionIdempotent(ref: Reference, v: nat, v': nat)
    ensures WithSchemaVersion(WithSchemaVersion(ref, v), v') == WithSchemaVersion(ref, v)
  {
  }

  /** Recovers the error from its message; a proof device for `MessageInjective`. */
  function ErrorOf(m: string): OptionsError {
    if |m| >= |InvalidRepositoryPrefix| && m[..|InvalidRepositoryPrefix|] == InvalidRepositoryPrefix then
      InvalidRepository(m[|InvalidRepositoryPrefix|..])
    else if |m| > 7 && m[7] == 'j' then ConflictingJavaDBModes
    else ConflictingDBModes
  }

  /** `ErrorOf` inverts `Message`. */
  lemma {:induction false} ErrorOfMessage(e: OptionsError)
    ensures ErrorOf(Message(e)) == e
  {
    var n := |InvalidRepositoryPrefix|;
    match e
    case ConflictingDBModes =>
      var m := Message(e);
      assert m[0] == '-' && m[7] == 'd';
      assert m[..n] != InvalidRepositoryPrefix by { assert m[..n][0] != InvalidRepositoryPrefix[0]; }
    case ConflictingJavaDBModes =>
      var m := Message(e);
      assert m[0] == '-' && m[7] == 'j';
      assert m[..n] != InvalidRepositoryPrefix by { assert m[..n][0] != InvalidRepositoryPrefix[0]; }
    case InvalidRepository(cause) =>
      var m := Message(e);
      assert m[..n] == InvalidRepositoryPrefix;
      assert m[n..] == cause;
  }

  /** Different errors have different messages: the user can tell each failure apart. */
  lemma MessageInjective(e: OptionsError, e': OptionsError)
    ensures Message(e) == Message(e') ==> e == e'
  {
    ErrorOfMessage(e);
    ErrorOfMessage(e');
  }
}
