/**
  The decision `AutoUpdate(Updater)` takes before it touches the object store
  or the filesystem: succeed at once when self-updating is switched off,
  otherwise check the five settings of the `Updater` in a fixed order and
  stop at the first one left empty, then check that the local version is a
  positive integer, and only then hand over to the remote step, whose result
  (nil, or a failure with its optional storage error code) is returned
  unchanged.

  The remote step is an input here: what the store answers is not modelled,
  only how its answer reaches the caller.
*/
module S3Update {
  import opened Wrappers
  import Decimal

  /** The caller's settings; Go's zero value has every field empty. */
  datatype Updater = Updater(
    currentVersion: string,
    s3Bucket: string,
    s3Region: string,
    s3ReleaseKey: string,
    s3VersionKey: string)

  /** `Updater{}` */
  const EmptyUpdater := Updater("", "", "", "", "")

  /** The errors `AutoUpdate` can return. */
  datatype Err =
    | NoVersion
    | NoBucket
    | NoRegion
    | NoReleaseKey
    | NoVersionKey
    | InvalidLocalVersion
      /** A failure of the remote step, with the storage client's error code
          when the failure came from the storage client and None otherwise
          (a bad remote version, a write or rename failure). */
    | Transport(code: Option<string>)

  /** What the remote step (fetch, compare, download, replace) ends with;
      a failure carries a storage error code only when it has one. */
  datatype Remote = RemoteOk | RemoteFailed(code: Option<string>)

  /** One validation step: whether it passes, and the error it reports if not. */
  datatype Check = Check(passes: bool, failure: Err)

  /** The text `err.Error()` gives for the errors of the decision itself; the
      text of a remote-step failure is not modelled. */
  function Message(e: Err): Option<string> {
    match e
    case NoVersion => Some("no version set")
    case NoBucket => Some("no bucket set")
    case NoRegion => Some("no s3 region")
    case NoReleaseKey => Some("no s3ReleaseKey set")
    case NoVersionKey => Some("no s3VersionKey set")
    case InvalidLocalVersion => Some("invalid local version")
    case Transport(_) => None
  }

  /** The type assertion `err.(awserr.Error)` followed by `Code()`: only
      errors of the storage client have a code. */
  function AwsCode(e: Err): Option<string> {
    match e
    case Transport(code) => code
    case _ => None
  }

  /** Whether an environment value of `S3UPDATE_DISABLED` switches updating
      off. `os.Getenv` gives "" for an unset variable. */
  predicate FlagDisables(env: string) {
    env == "true"
  }

  /** The settings in the order they are checked. */
  function Fields(u: Updater): seq<string> {
    [u.currentVersion, u.s3Bucket, u.s3Region, u.s3ReleaseKey, u.s3VersionKey]
  }

  /** The error for each position of `Fields`. */
  const FieldErrors: seq<Err> := [NoVersion, NoBucket, NoRegion, NoReleaseKey, NoVersionKey]

  predicate IsFieldError(e: Err) {
    e in FieldErrors
  }

  /** Every setting is non-empty. */
  predicate Complete(u: Updater) {
    forall i :: 0 <= i < |Fields(u)| ==> Fields(u)[i] != ""
  }

  /** The validation of the settings as an ordered list of checks: one per
      setting, in the order of `Fields`, failing when the setting is empty. */
  function Checks(u: Updater): seq<Check> {
    seq(|FieldErrors|, i requires 0 <= i < |FieldErrors| => Check(Fields(u)[i] != "", FieldErrors[i]))
  }

  /** Runs the checks in order and reports the first that fails, if any. */
  function FirstFailure(checks: seq<Check>): (r: Option<Err>)
    ensures r.None? <==> forall i :: 0 <= i < |checks| ==> checks[i].passes
    ensures r.Some? ==>
      exists i :: && 0 <= i < |checks|
                  && !checks[i].passes
                  && r.value == checks[i].failure
                  && forall j :: 0 <= j < i ==> checks[j].passes
  {
    if checks == [] then None
    else if !checks[0].passes then Some(checks[0].failure)
    else
      var rest := FirstFailure(checks[1..]);
      assert rest.Some? ==> exists i :: && 0 <= i < |checks[1..]|
                                        && !checks[1..][i].passes
                                        && rest.value == checks[1..][i].failure
                                        && forall j :: 0 <= j < i ==> checks[1..][j].passes;
      rest
  }

  function Validate(u: Updater): Option<Err> {
    FirstFailure(Checks(u))
  }

  /** The local version must read as a strictly positive integer. */
  predicate ValidLocalVersion(s: string) {
    var parsed := Decimal.Parse(s);
    parsed.Some? && parsed.value > 0
  }

  /** `AutoUpdate(u)` with `S3UPDATE_DISABLED` read into `disabled` and the
      outcome of the remote step given as `remote`; None is a nil error. */
  function AutoUpdate(disabled: bool, u: Updater, remote: Remote): (r: Option<Err>)
    ensures disabled ==> r == None
    ensures r.Some? && r.value.Transport? ==> remote == RemoteFailed(r.value.code)
  {
    if disabled then None
    else if Validate(u).Some? then Validate(u)
    else if !ValidLocalVersion(u.currentVersion) then Some(InvalidLocalVersion)
    else match remote
      case RemoteOk => None
      case RemoteFailed(code) => Some(Transport(code))
  }

  // ---------------------------------------------------------------------
  // The opt-out flag

  /** "true" switches updating off; the cleared value "" does not. */
  lemma FlagValues()
    ensures FlagDisables("true")
    ensures !FlagDisables("")
  {
  }

  // ---------------------------------------------------------------------
  // Validation of the settings

  /** Validation passes exactly when every setting is present. */
  lemma ValidateNoneIffComplete(u: Updater)
    ensures Validate(u).None? <==> Complete(u)
  {
    var checks := Checks(u);
    assert |checks| == |Fields(u)|;
    assert forall i :: 0 <= i < |checks| ==> checks[i].passes == (Fields(u)[i] != "");
  }

  /** The error reported is the one of the first empty setting in the order
      version, bucket, region, release key, version key, and no other. */
  lemma ValidateReportsFirstMissing(u: Updater, i: nat)
    requires i < |Fields(u)| && Fields(u)[i] == ""
    requires forall j :: 0 <= j < i ==> Fields(u)[j] != ""
    ensures Validate(u) == Some(FieldErrors[i])
  {
    var checks := Checks(u);
    var r := FirstFailure(checks);
    assert !checks[i].passes;
    var k :| && 0 <= k < |checks|
             && !checks[k].passes
             && r.value == checks[k].failure
             && forall j :: 0 <= j < k ==> checks[j].passes;
    assert k == i;
  }

  /** Every error validation reports is one of the five setting errors. */
  lemma ValidateReportsFieldError(u: Updater)
    ensures Validate(u).Some? ==> IsFieldError(Validate(u).value)
  {
  }

  /** With the flag off, an empty setting is reported by its own error,
      whatever the version string and whatever the store would answer. */
  lemma FirstMissingFieldWins(u: Updater, i: nat, remote: Remote)
    requires i < |Fields(u)| && Fields(u)[i] == ""
    requires forall j :: 0 <= j < i ==> Fields(u)[j] != ""
    ensures AutoUpdate(false, u, remote) == Some(FieldErrors[i])
  {
    ValidateReportsFirstMissing(u, i);
  }

  /** The setting checks come before the version check and the remote step:
      as long as one setting is empty, neither of those is reported. */
  lemma FieldChecksTakePrecedence(u: Updater, remote: Remote)
    requires !Complete(u)
    ensures AutoUpdate(false, u, remote).Some?
    ensures IsFieldError(AutoUpdate(false, u, remote).value)
  {
    ValidateNoneIffComplete(u);
    ValidateReportsFieldError(u);
  }

  // ---------------------------------------------------------------------
  // The local version

  /** A written integer is a valid local version exactly when it is positive. */
  lemma ValidLocalVersionIffPositive(n: int)
    ensures ValidLocalVersion(Decimal.Show(n)) <==> n > 0
  {
    Decimal.ParseShow(n);
  }

  /** The versions the tests use: "test" and "0" fail, "1" passes. */
  lemma TestVersions()
    ensures !ValidLocalVersion("test")
    ensures !ValidLocalVersion("0")
    ensures ValidLocalVersion("1")
  {
  }

  /** With every setting present, a version that does not read as a
      positive integer is reported before the store is consulted. */
  lemma VersionCheckPrecedesRemote(u: Updater, remote: Remote)
    requires Complete(u) && !ValidLocalVersion(u.currentVersion)
    ensures AutoUpdate(false, u, remote) == Some(InvalidLocalVersion)
  {
    ValidateNoneIffComplete(u);
  }

  // ---------------------------------------------------------------------
  // The hand-over to the remote step

  /** Once the settings and the version pass, the caller gets the remote
      step's own outcome. */
  lemma HandOffReturnsRemote(u: Updater, remote: Remote)
    requires Complete(u) && ValidLocalVersion(u.currentVersion)
    ensures remote.RemoteOk? ==> AutoUpdate(false, u, remote) == None
    ensures remote.RemoteFailed? ==> AutoUpdate(false, u, remote) == Some(Transport(remote.code))
  {
    ValidateNoneIffComplete(u);
  }

  /** A returned error carries a storage code exactly when every local check
      passed and the store failed with that very code. */
  lemma TransportCodeIff(disabled: bool, u: Updater, remote: Remote, code: string)
    ensures (&& AutoUpdate(disabled, u, remote).Some?
             && AwsCode(AutoUpdate(disabled, u, remote).value) == Some(code))
        <==> (&& !disabled && Complete(u) && ValidLocalVersion(u.currentVersion)
              && remote == RemoteFailed(Some(code)))
  {
    ValidateNoneIffComplete(u);
    ValidateReportsFieldError(u);
  }

  /** The decision's own errors have pairwise distinct messages and carry no
      storage code, while only a remote-step failure can carry one: a caller
      tells them from each other by message and from a storage-client
      failure by its code. The model gives no text for any remote-step
      failure, so nothing is said about telling a code-less remote-step
      failure apart by its text. */
  lemma ErrorsAreDistinguishable(e1: Err, e2: Err)
    ensures Message(e1).Some? <==> !e1.Transport?
    ensures AwsCode(e1).Some? ==> e1.Transport?
    ensures Message(e1).Some? && Message(e1) == Message(e2) ==> e1 == e2
  {
  }

  /** Every call ends in exactly one of: success, the error of the first
      empty setting, `invalid local version`, or a transport error. */
  lemma OutcomeCases(disabled: bool, u: Updater, remote: Remote)
    ensures var r := AutoUpdate(disabled, u, remote);
      || r.None?
      || (!Complete(u) && IsFieldError(r.value))
      || (Complete(u) && r.value == InvalidLocalVersion)
      || (Complete(u) && ValidLocalVersion(u.currentVersion) && r.value.Transport?)
  {
    ValidateNoneIffComplete(u);
    ValidateReportsFieldError(u);
  }

  // ---------------------------------------------------------------------
  // The scenarios of the test suite

  /** `TestUpdateDisabled` */
  lemma UpdateDisabledScenario(remote: Remote)
    ensures AutoUpdate(FlagDisables("true"), EmptyUpdater, remote) == None
  {
  }

  /** The `Updater` of `TestEmptyUpdateErrors` after its first `k` settings
      have been set to "test". */
  function FilledUpTo(k: nat): Updater {
    Updater(
      if k > 0 then "test" else "",
      if k > 1 then "test" else "",
      if k > 2 then "test" else "",
      if k > 3 then "test" else "",
      if k > 4 then "test" else "")
  }

  /** The messages `TestEmptyUpdateErrors` expects, one per step. */
  const EmptyUpdateMessages: seq<string> :=
    ["no version set", "no bucket set", "no s3 region", "no s3ReleaseKey set", "no s3VersionKey set"]

  /** `TestEmptyUpdateErrors`: with the flag cleared to "" and the settings
      filled one at a time, step `k` reports the `k`-th message. */
  lemma EmptyUpdateErrorsScenario(k: nat, remote: Remote)
    requires k < 5
    ensures AutoUpdate(FlagDisables(""), FilledUpTo(k), remote).Some?
    ensures Message(AutoUpdate(FlagDisables(""), FilledUpTo(k), remote).value)
            == Some(EmptyUpdateMessages[k])
  {
    var u := FilledUpTo(k);
    assert Fields(u)[k] == "";
    assert forall j :: 0 <= j < k ==> Fields(u)[j] == "test" != "";
    FirstMissingFieldWins(u, k, remote);
  }

  /** `TestUpdateErrors`, run with the flag cleared to "": with every setting
      "test", the versions "test" and
      "0" are invalid; with "1" the storage client's error comes back with
      its code. */
  lemma UpdateErrorsScenario(remote: Remote)
    ensures var u := Updater("test", "test", "test", "test", "test");
      && Message(AutoUpdate(FlagDisables(""), u, remote).value) == Some("invalid local version")
      && Message(AutoUpdate(FlagDisables(""), u.(currentVersion := "0"), remote).value)
         == Some("invalid local version")
    ensures var u := Updater("1", "test", "test", "test", "test");
      AutoUpdate(FlagDisables(""), u, RemoteFailed(Some("RequestError"))).Some? &&
      AwsCode(AutoUpdate(FlagDisables(""), u, RemoteFailed(Some("RequestError"))).value)
      == Some("RequestError")
  {
    var u := Updater("test", "test", "test", "test", "test");
    assert !FlagDisables("");
    assert forall i :: 0 <= i < |Fields(u)| ==> Fields(u)[i] == "test" != "";
    TestVersions();
    VersionCheckPrecedesRemote(u, remote);
    VersionCheckPrecedesRemote(u.(currentVersion := "0"), remote);
    HandOffReturnsRemote(u.(currentVersion := "1"), RemoteFailed(Some("RequestError")));
  }
}
