# s3update: the decision logic of `AutoUpdate`

s3update is a Go library that lets a deployed executable update itself from
an S3 bucket. Its single entry point, `AutoUpdate(Updater)`, first decides
whether to do any work at all. This project models that decision and proves
its properties in Dafny:

- `S3UPDATE_DISABLED` set to `"true"` makes `AutoUpdate` return nil at once,
  even for an empty `Updater`.
- Otherwise the five settings are checked in a fixed order (`CurrentVersion`,
  `S3Bucket`, `S3Region`, `S3ReleaseKey`, `S3VersionKey`). The first empty
  one is reported with its own message: `no version set`, `no bucket set`,
  `no s3 region`, `no s3ReleaseKey set`, `no s3VersionKey set`.
- The local version must then read as a positive integer. If it does not,
  the result is `invalid local version`.
- After these checks the result is whatever the remote step returns: nil,
  or a failure. A failure that comes from the storage client keeps that
  client's error code (`RequestError` when the store cannot be reached).
  Other failures of the remote step, such as a bad remote version or a
  failed write, carry no code.

Files:

- `wrappers.dfy`: module `Wrappers`, the `Option` type. `None` stands for
  Go's nil error.
- `decimal.dfy`: module `Decimal`. It reads a decimal numeral (an optional
  sign, then digits) with `Parse` and writes one with `Show`. Both round
  trips are proved.
- `s3update.dfy`: module `S3Update`. It holds the `Updater` record, the
  `Err` type, the ordered checks (`Checks`, `FirstFailure`, `Validate`) and
  `AutoUpdate`. It also holds the lemmas about ordering and precedence, and
  one lemma per test function that restates what that test asserts.

`AutoUpdate(disabled, u, remote)` takes the environment flag as a boolean.
It takes the outcome of the remote step as the value `remote`
(`RemoteOk`, or `RemoteFailed(code)` with an optional storage error code).
The library source (`s3update.go`) is not part of this model. The behaviour
modelled is the one its test suite asserts. Where the tests leave a choice
open, the model picks one reading; each such choice is named under
"Left out".

## Model

| member | source | states |
|---|---|---|
| `S3Update.AutoUpdate` | s3update_test.go:14-21 | When updating is switched off the result is nil, for every `Updater`, so the flag comes before any validation; a `Transport` error is returned only when the remote step failed, with its optional code unchanged |
| `S3Update.FlagValues` | s3update_test.go:15-16 | `"true"` switches updating off; the cleared value `""` leaves it on |
| `S3Update.FirstFailure` | s3update_test.go:26-69 | Running ordered checks reports nothing exactly when all pass; otherwise it reports the error of a failing check that has only passing checks before it |
| `S3Update.ValidateNoneIffComplete` | s3update_test.go:74-81 | Validation passes if and only if all five settings are non-empty |
| `S3Update.ValidateReportsFirstMissing` | s3update_test.go:26-69 | Validation reports the error of the first empty setting in the fixed order, and no other error |
| `S3Update.ValidateReportsFieldError` | s3update_test.go:26-69 | Every error validation reports is one of the five missing-setting errors |
| `S3Update.FirstMissingFieldWins` | s3update_test.go:26-69 | With the flag off, the result of `AutoUpdate` is exactly the error of the first empty setting, whatever the version string and whatever the store would answer |
| `S3Update.FieldChecksTakePrecedence` | s3update_test.go:35-42 | While any setting is empty, `AutoUpdate` reports a missing-setting error, never `invalid local version` and never a transport error |
| `S3Update.ValidLocalVersionIffPositive` | s3update_test.go:89-96 | A written integer is accepted as local version if and only if it is positive, so `0` is rejected |
| `S3Update.TestVersions` | s3update_test.go:74-99 | `"test"` and `"0"` are not valid local versions; `"1"` is |
| `S3Update.VersionCheckPrecedesRemote` | s3update_test.go:74-96 | With all settings present and an invalid local version, the result is `invalid local version`, whatever the store would answer |
| `S3Update.HandOffReturnsRemote` | s3update_test.go:98-109 | With all settings present and a valid local version, the result is the remote step's outcome: nil for success, a failure with the same optional code for a failure |
| `S3Update.TransportCodeIff` | s3update_test.go:98-109 | The result carries a storage error code if and only if the flag is off, all settings are present, the local version is valid and the store failed with that very code |
| `S3Update.ErrorsAreDistinguishable` | s3update_test.go:100-108 | The decision's own errors have pairwise distinct messages and no storage code, and only a remote-step failure can carry a code: the caller tells them apart from each other by message and from a storage-client failure by its code; nothing is claimed about the text of a code-less remote-step failure |
| `S3Update.OutcomeCases` | s3update_test.go:14-109 | Every call ends in nil, a missing-setting error (only when a setting is empty), `invalid local version` (only when all are present), or a transport error (only after all local checks pass) |
| `S3Update.UpdateDisabledScenario` | s3update_test.go:14-21 | With the flag `"true"`, `AutoUpdate(Updater{})` returns nil |
| `S3Update.EmptyUpdateErrorsScenario` | s3update_test.go:25-69 | With the flag `""`, the `Updater` whose first `k` settings are filled reports the `k`-th of the five messages, for each of the five steps |
| `S3Update.UpdateErrorsScenario` | s3update_test.go:73-109 | With the flag `""` and all settings `"test"`, versions `"test"` and `"0"` give `invalid local version`; version `"1"` returns the store's error with code `RequestError` |
| `Decimal.Parse` | s3update_test.go:74-87 | A string reads as an integer if and only if it is an optional sign followed by at least one digit, so `"test"` does not |
| `Decimal.ParseShow` | s3update_test.go:89-99 | Every integer, written out, reads back as itself |
| `Decimal.ShowParse` | s3update_test.go:89-99 | Every canonical numeral, read and written out again, is unchanged |
| `Decimal.ParseLeadingZero` | s3update_test.go:89-99 | A leading zero does not change the value of a digit string, so `"007"` reads as 7 |
| `Decimal.ParsePlus` | s3update_test.go:89-99 | A leading `+` does not change the value, so `"+1"` reads as 1 |
| `Decimal.ParseMinus` | s3update_test.go:89-99 | A leading `-` negates the value of a digit string, so `"-0"` reads as 0; with the canonical round trip this fixes the value of every numeral |

## Left out

- The S3 client, credentials and region resolution. The remote step is the input `remote`. Its result is either success or a failure. The failure carries the client's error code when it comes from the client, and no code otherwise.
- Fetching the remote version, comparing it with the local one, and the up-to-date path that returns without writing. These are inside the remote step, which the model does not interpret.
- Downloading the release binary, writing a temporary file, setting permissions and renaming it over the running executable. This is filesystem I/O.
- Reading `S3UPDATE_DISABLED`: the process environment is global I/O, so the flag is a parameter.
- FlagDisables: takes the narrow reading that only `"true"` disables. The test's doc comment (s3update_test.go:12-13) says updating is off when the variable "is set", which could mean any non-empty value. The tests set only `"true"` and `""`, so they cannot tell the two readings apart.
- The text of every remote-step failure: for a storage-client error it is the SDK's `Error()` text, and for a code-less failure (bad remote version, write or rename failure) it is the library's own text, which is not part of this model. `Message` gives no text for any `Transport` error.
- Progress messages printed to standard output.
- ValidLocalVersion: the rule that a local version must be a positive integer is an assumption beyond the tests. They show only that `"test"` and `"0"` are rejected and `"1"` is accepted. Negative numbers such as `"-1"` are rejected here; a library that rejects only zero would accept them.
- Decimal.Parse: the numeral syntax (optional `+` or `-`, decimal digits) follows Go's base-10 integer parsing. The 64-bit range limit of that parsing is not modelled: the model accepts arbitrarily long digit strings.
