# gone — untagged container-version cleanup, modelled in Dafny

`gone` deletes the untagged versions of GitHub container packages. For an
owner (a user or an organization) and a list of package names it walks the
package-version listing page by page (page 1, 2, … until a page comes back
empty). For every version without tags it logs an intent record
`Deleting <owner>/<package>:<version name>`, with ` (DRY RUN)` appended in a
dry run. Unless it is a dry run, it then asks the API to delete that version
by its decimal id. A failed delete is only warned about. A failed listing
ends that package with an error, and the first failing package ends the
whole run.

The model is functional:

- The GitHub client is a pair of oracle functions from request URLs to
  responses (`Client.Http`).
- Everything the program does is recorded as a sequence of events: list
  calls, intent records, delete calls and warnings (`Trace.Event`).
- Each loop of the program is a method whose contract ties it to a
  recursive reference definition. Lemmas then state what that definition
  means.

| file | module | models |
|---|---|---|
| wrappers.dfy | Wrappers | `Option`, `Result`, `Outcome` |
| text.dfy | Text | splitting and joining on a separator, used to read URLs back |
| decimal.dfy | Decimal | Rust's decimal `Display` of unsigned integers, and its inverse |
| api.dfy | Api | the package-version records; `u32`/`u64` ranges |
| owner.dfy | Owner | `PackageOwner`: parse, base path, display |
| client.dfy | Client | the list and delete URLs, the list-status split, delete |
| trace.dfy | Trace | the event record, its projections, the intent log line |
| cleanup.dfy | Cleanup | `clean_package_versions`, the per-page policy |
| pagination.dfy | Pagination | `clean_package`, the page loop |
| run.dfy | Runner | `run`, the owner guard and the package loop |
| scenarios.dfy | Scenarios | the unit-test cases of the page policy |

## Model

| member | source | states |
|---|---|---|
| Owner.Parse | src/github/client.rs:17-27 | a present user name wins whatever the organization is; otherwise the organization is used; at least one must be present |
| Owner.Flags | src/github/client.rs:17-27 | every owner comes from exactly one present option, and parsing those options gives the owner back |
| Owner.BaseUrlInjective | src/github/client.rs:29-34 | the base path `users/<n>` / `orgs/<n>` is the kind segment, a slash and the name, and different owners never share one |
| Owner.DisplayForgetsKind | src/github/client.rs:37-44 | the display form is the bare name, so a user and an organization of the same name display alike while their base paths differ |
| Owner.OwnerOfKind | src/github/client.rs:29-34 | the kind segment and the name of a base path read back to the owner |
| Decimal.Show | src/main.rs:155 | the decimal form of an id is non-empty, all digits, with no leading zero except for 0 itself |
| Decimal.ParseShow | src/main.rs:155 | reading the decimal form of an id gives the id back |
| Decimal.ShowOfValue | src/main.rs:155 | every canonical digit string is the decimal form of its value, so the form is onto the canonical strings |
| Decimal.ShowInjective | src/main.rs:155 | distinct ids get distinct decimal forms |
| Client.ListUrlRoundTrip | src/github/client.rs:73-79 | when neither the owner name nor the package name contains '/', the list URL reads back to the owner, package and page it was built from, with page 1 when none is given |
| Client.SlashInNameIsAmbiguous | src/github/client.rs:75-77 | names go into the list URL unescaped: an owner name ending in `/packages/container/<x>` and the package `<p>` give the same URL as the bare owner with the package `<x>/packages/container/<p>`, so the no-'/' condition of the round trip cannot be dropped |
| Client.DeleteUrlRoundTrip | src/github/client.rs:104-110 | when none of the owner name, the package name and the version id contains '/', the delete URL reads back to the owner, package and version id it was built from |
| Client.GetPackageVersion | src/github/client.rs:67-96 | a failed send is a send error; 404 is not-found naming owner and package; any other non-2xx status is a status error carrying the status; 2xx decodes or is a decode error; each exactly when |
| Client.DeletePackageVersion | src/github/client.rs:98-114 | a delete succeeds exactly when the request was sent, whatever the status |
| Trace.DryRunLine | src/main.rs:138-148 | the dry-run intent line is the real-run line with " (DRY RUN)" appended |
| Cleanup.PageEffects | src/main.rs:133-159 | one intent per untagged version in page order whatever the flag; delete calls for exactly the untagged ids in order and in decimal, or none in a dry run; a warning for exactly the failed deletes; every event about the owner and package |
| Cleanup.TaggedVersionIgnored | src/main.rs:133-136 | removing a tagged version from anywhere in a page leaves the page's events unchanged |
| Cleanup.AllTaggedNoEffect | src/main.rs:133-136 | a page of tagged versions makes no call and logs nothing |
| Cleanup.DeleteFailuresAbsorbed | src/main.rs:154-159 | apart from warnings, a page's events do not depend on which deletes fail, so a failure never stops later versions |
| Cleanup.VersionEffects | src/main.rs:133-159 | a tagged version adds nothing; an untagged one adds its intent, and outside a dry run one delete of its decimal id, with a warning exactly when that delete fails; no list calls, and only about the owner and package |
| Cleanup.CleanVersion | src/main.rs:133-159 | one loop iteration: a tagged version gives nothing; an untagged one logs one intent with its name and the run's dry-run flag, and outside a dry run deletes exactly its decimal id, with a warning exactly when that delete fails; no list calls, and only about the owner and package |
| Cleanup.VersionLoop | src/main.rs:133-160 | the loop over a page, one iteration per version in order, gives the reference page events |
| Cleanup.CleanPackageVersions | src/main.rs:126-163 | the page loop produces the reference page events, always ends well, and deletes exactly the untagged ids unless it is a dry run |
| Pagination.PackageFromPaginated | src/main.rs:105-121 | the page loop lists pages first, first+1, …, last in order; every page before last was non-empty; it ends well exactly on an empty page, with the list error exactly when listing failed, and with overflow only past the largest u32 page; without the list calls, its events are the per-page events of those pages concatenated |
| Pagination.PackageFromConforms | src/main.rs:105-121 | every event of a package's cleanup concerns that package, carries the run's dry-run flag, and a dry run never deletes |
| Pagination.PageLoop | src/main.rs:105-123 | the page loop as written, from page 1, equals the reference pagination definition |
| Pagination.CleanPackage | src/main.rs:97-124 | the page loop as written equals the reference definition and has the shape above |
| Runner.FirstFailure | src/main.rs:85-92 | the position of the first package whose cleanup fails: all before it succeed and it fails |
| Runner.FirstFailureUnique | src/main.rs:85-92 | only one position has that property |
| Runner.RunFromShape | src/main.rs:85-94 | the package loop cleans the packages up to and including the first failing one and no further; it ends well exactly when none fails, and otherwise with that package and its error |
| Runner.RunFromConforms | src/main.rs:83-92 | every event of a run concerns the run's owner and one of its packages, and a dry run deletes nothing |
| Runner.CleanAll | src/main.rs:85-94 | the package loop as written equals the reference definition |
| Runner.Run | src/main.rs:67-95 | missing both owners fails before any call; missing credentials fails before any call; otherwise the run has the package-loop shape above and stays within its owner and packages |
| Scenarios.OnlyTaggedScenario | src/main.rs:179-203 | an empty page and a page of one tagged version make no call |
| Scenarios.OneUntaggedScenario | src/main.rs:205-236 | a user's page of a tagged version 1 and an untagged version 2 deletes "2" only, or nothing in a dry run |
| Scenarios.TwoUntaggedScenario | src/main.rs:238-281 | an organization's page of tagged 1, untagged 2 and untagged 3 deletes "2" then "3", or nothing in a dry run |

## Left out

- HTTP transport (sending, TLS, timeouts) is an oracle: `Http.get` and `Http.delete` map a URL to "send failed" or a status and a body.
- The registry is stateless in the model: each URL has one answer for the whole run, and the program's own deletes do not change later listings. A package named twice on the command line (the parser accepts that) therefore repeats its first pass in the model, deletes included, where the real registry would no longer list the versions already deleted.
- JSON decoding of the list reply is not modelled. The body arrives already decoded, or as "not decodable", which gives the decode error.
- Client construction and its default headers (src/github/client.rs:50-65) are not modelled: fixed strings handed to the HTTP library.
- Token loading from a file or from `GITHUB_TOKEN`, and building the client (src/main.rs:72-81), are one input flag, `credentials`. When it is false the run fails with `NoCredentials` before any call.
- Command-line parsing, logger set-up and `main` (src/main.rs:12-65) are not modelled. The clap rules that the two owner options conflict and that at least one package is given are not assumed: `Run` accepts both owners (the user wins, as in the parser) and an empty package list.
- The log output is not modelled beyond the intent record (its fields and `IntentLine`) and the warning for a failed delete. The "Cleaning package" line and the error's debug text are left out.
- Error context strings are not modelled: errors are plain values naming their cause.
- async/await is not modelled: the program is sequential, so the model is too.
- Owner.Parse: the panic on two absent names is a precondition. `Run` only calls it after its own guard, as the program does.
- Pagination.PackageFrom: `page += 1` past the largest `u32` panics in a debug build and wraps to 0 in a release build. The model stops there with `PageOverflow` and does not model the release-build wrap-around.
- Client.ListUrlRoundTrip: owner and package names are inserted into the URL unescaped (src/github/client.rs:76), and the command line accepts any package name (src/main.rs:37-39). A '/', '?', '#' or '%' in a name therefore makes a different request from the one intended. The round trip is proved only for names without '/', and `Client.SlashInNameIsAmbiguous` shows two requests sharing one URL when a name has one. The reader `Client.ParseRequestUrl` splits on '/' only: a package name holding '?' or '#' reads back unchanged in the model, while an HTTP server would take the rest as a query string or a fragment.
- Client.DeleteUrlRoundTrip: the same holds for the delete URL (src/github/client.rs:107), with the version id as a third name. The ids the program passes are decimal digits, so only the owner and package names matter there.
- Client.GetPackageVersion: the status text of the "server returned status" error is not modelled. The error carries the numeric status.
- Runner.Run: the run aborts at the first failing package, because of the `?` at src/main.rs:91. Isolating per-package failures would let later packages be cleaned, but the model follows the code as written.
