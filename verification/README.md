# dotenv search and error model in Dafny

This project models two pieces of the `dotenv` loader (andrewtc/dotenvy):

- the **upward search** for the configuration file: `find(directory, filename)`
  looks at `directory/filename`, returns it when it is a regular file, gives
  up on any metadata error other than `NotFound`, and otherwise repeats in the
  parent directory until the root, where it fails with a synthetic `NotFound`
  io error tagged with the root; together with the `Finder` configuration
  value (`Finder::new`, `Finder::filename`) and `Finder::find` with its I/O
  taken as parameters;
- the **error taxonomy**: `ParseError`, `IoError` and the `Error` sum
  (`Parse | Io | EnvVar`), the `From` conversions, `path()`, `not_found()`,
  `source()` chaining, and the `Display` rules.

Modules, leaves first:

| file | module | contents |
|---|---|---|
| wrappers.dfy | `Wrappers` | `Option` and `Result` |
| paths.dfy | `Paths` | paths as component sequences; `Parent`, `Join`, ancestors, rendering |
| decimal.dfy | `Decimal` | decimal rendering of the column and its inverse |
| errors.dfy | `Errors` | the error taxonomy, accessors, source chaining, display |
| find.dfy | `Find` | the filesystem oracle, `Find`, its ancestor-by-ancestor description, `Finder` |

The filesystem is an oracle `FileSystem = Path -> Lookup`, where a lookup
reports a file type (`RegularFile`, `Directory`, `Special`) or the OS error
the metadata call failed with. A path is a flag for a leading root plus its
components; `Parent` drops the last component and the path with no component
has no parent, so the search terminates on the number of components.

The main result about the search is `Find.FindMatchesNearestOutcome`: on every
oracle, start directory and file name, `Find` equals `NearestOutcome`, a
non-recursive description that takes the nearest ancestor (the start
directory first) whose candidate is a regular file or fails with a
non-`NotFound` error, and otherwise reports `NotFound` at the root.

## Model

| member | source | states |
|---|---|---|
| Paths.Parent | dotenv/src/find.rs:50-51 | the parent drops exactly the last component and keeps absoluteness; only a path without components has no parent |
| Paths.Join | dotenv/src/find.rs:35 | the candidate is the directory's components followed by the relative file name's components |
| Paths.Render | dotenv/src/errors.rs:31 | an absolute path renders with a leading `/`, the root as `/` and the empty relative path as the empty string |
| Paths.RenderJoin | dotenv/src/errors.rs:31 | joining a component onto a directory renders as the directory's text, `/` and the component (just `/` and the component onto the root) |
| Paths.AncestorIsIteratedParent | dotenv/src/find.rs:50-55 | the ancestors the search visits are the iterated parents, starting with the directory itself and ending at the parentless root |
| Decimal.NatToString | dotenv/src/errors.rs:33 | the column renders as a non-empty string of decimal digits with no leading zero |
| Decimal.ParseNatToString | dotenv/src/errors.rs:33 | reading the rendered column back as a decimal number gives the column |
| Decimal.NatToStringInjective | dotenv/src/errors.rs:33 | distinct columns render differently |
| Errors.ParseErrorFromParts | dotenv/src/errors.rs:19-21 | the path, line text and column are stored exactly as given |
| Errors.IoErrorWithoutPath | dotenv/src/errors.rs:44-46 | the io error has no path and keeps the OS error |
| Errors.IoErrorFromParts | dotenv/src/errors.rs:48-50 | the optional path and the OS error are stored exactly as given |
| Errors.FromParse | dotenv/src/errors.rs:76-78 | the wrapped parse error reports the same path, no source, is not "not found", and displays as the parse error |
| Errors.FromIo | dotenv/src/errors.rs:80-82 | the wrapped io error reports the same path, its OS error as source, is "not found" iff the OS error kind is `NotFound`, and displays as the io error |
| Errors.FromVar | dotenv/src/errors.rs:84-86 | the wrapped variable error has no path, is its own source, is not "not found", and displays as its message |
| Errors.FromConversionsLossless | dotenv/src/errors.rs:76-86 | each conversion into `Error` is injective and the three never produce the same value |
| Errors.ErrorPath | dotenv/src/errors.rs:89-96 | `path()` is the inner path for `Parse` and `Io` and always `None` for `EnvVar` |
| Errors.IsNotFound | dotenv/src/errors.rs:98-103 | `not_found()` holds iff the error is `Io` with an OS error of kind `NotFound` |
| Errors.ParseErrorSource | dotenv/src/errors.rs:24-26 | a parse error has no source |
| Errors.IoErrorSource | dotenv/src/errors.rs:53-57 | an io error's source is always its OS error |
| Errors.ErrorSource | dotenv/src/errors.rs:106-113 | `source()` is `None` exactly for `Parse`, the OS error for `Io`, the variable error for `EnvVar` |
| Errors.SourceSkipsWrapper | dotenv/src/errors.rs:106-113 | the source of a wrapped parse or io error is the source that inner error reports |
| Errors.DisplayParseError | dotenv/src/errors.rs:28-35 | with a path `P`: exactly `P: 'L', error at column C`; without: the same string with no prefix |
| Errors.DisplayIoError | dotenv/src/errors.rs:59-66 | with a path `P`: exactly `P: ` followed by the OS error's message; without: the message alone |
| Errors.DisplayError | dotenv/src/errors.rs:116-124 | an `Error` displays as its active inner value; `EnvVar(v)` as `v`'s message |
| Errors.DisplayLeadsWithPath | dotenv/src/errors.rs:89-124 | an error displays as `path(): ` followed by its path-less display exactly when `path()` reports a path, and as the path-less display otherwise |
| Errors.ParseErrorDisplayKeepsColumn | dotenv/src/errors.rs:28-35 | the trailing number of a parse error's display reads back as its column |
| Errors.IoErrorScenarios | dotenv/src/errors.rs:136-188 | a `PermissionDenied` io error on `path/to/.env` has that OS error as source, is not "not found", and displays as `path/to/.env: <message>`; with `NotFound` it is "not found" |
| Errors.VarErrorScenarios | dotenv/src/errors.rs:145-195 | a `NotPresent` variable error is its own source and the `Error` displays as the variable error |
| Errors.ParseErrorScenarios | dotenv/src/errors.rs:156-208 | the test's parse error has no source and displays as `path/to/.env: 'test line', error at column 2` |
| Find.Find | dotenv/src/find.rs:34-56 | a success is a regular file at `a/filename` for an ancestor `a` of the start; every failure is a path-tagged io error, either `NotFound` at the root or the non-`NotFound` lookup error of a candidate |
| Find.FindStopsAtNearest | dotenv/src/find.rs:34-56 | the search ends at the nearest candidate that is a regular file (returned) or fails with a non-`NotFound` error (reported with that candidate) |
| Find.FindWithoutStop | dotenv/src/find.rs:52-55 | when no candidate stops the search it fails at the root with a `NotFound` error tagged with the root |
| Find.FindMatchesNearestOutcome | dotenv/src/find.rs:34-56 | the recursive search equals the non-recursive nearest-ancestor description on every input |
| Find.FindReturnsNearestFile | dotenv/src/find.rs:34-56 | the search succeeds iff the nearest stopping candidate is a regular file, and then returns that candidate, never a farther one |
| Find.FindNotFoundIffNoStop | dotenv/src/find.rs:52-55 | the search's error is "not found" iff no candidate from the start to the root is a regular file or fails with a non-`NotFound` error |
| Find.FindChecksStartFirst | dotenv/src/find.rs:35-41 | a regular file in the start directory is returned, whatever the ancestors hold |
| Find.FindAbortsOnError | dotenv/src/find.rs:43-46 | a non-`NotFound` lookup error on the first candidate is returned with that candidate as path, and no other lookup affects the outcome |
| Find.FindSkipsNonFile | dotenv/src/find.rs:38-51 | a candidate that is missing or exists but is not a regular file is skipped: the outcome is the parent's |
| Find.NewFinder | dotenv/src/find.rs:13-17 | a new finder searches for `.env` |
| Find.WithFilename | dotenv/src/find.rs:19-22 | setting the file name changes the file name and nothing else |
| Find.WithFilenameOverrides | dotenv/src/find.rs:19-22 | the last file name set wins, and setting the current name is the identity |
| Find.FinderFind | dotenv/src/find.rs:24-31 | a current-directory failure is a path-less io error; search errors pass through unchanged; an open failure is an io error carrying the resolved path; when the directory, the search and the open all succeed, the result is `Ok` of the resolved path |
| Find.NearestScenario | dotenv/src/find.rs:34-56 | with `/a/.env` and `/.env` both files, the search from `/a/b/c` returns `/a/.env` |
| Find.DeniedScenario | dotenv/src/find.rs:43-46 | a permission error on `/a/b/.env` is reported even though `/a/.env` exists, and it is not "not found" |
| Find.RootScenario | dotenv/src/find.rs:52-55 | from the root with no file anywhere, the error is "not found" and tagged with the root |

## Left out

- FinderFind: returns the resolved path that the opened file would be tagged with; the open file handle and the `Iter` line producer built from it (`crate::iter`) are not modelled.
- Real I/O: `fs::metadata` is the `FileSystem` oracle, `env::current_dir` is a parameter holding its result, and `File::open` is a parameter giving the error opening a path fails with, if any.
- `Path::join` with an absolute file name, which replaces the base directory: file names are taken to be relative component sequences.
- Path normalisation: components are taken as already normal (no `.`, `..`, empty components or separators inside a component), so `parent` is "drop the last component".
- Only Unix-style paths are modelled: Windows prefixes such as `C:` and the `\` separator change both `parent` and `to_string_lossy`.
- The file name has at least one component: `dir.join("")` yields `dir/` with a trailing separator, which the component model (where joining nothing gives `dir`) does not represent.
- `to_string_lossy`: `Render` separates components with `/` after a leading `/` for absolute paths; lossy UTF-8 replacement is not modelled.
- The message texts of `io::Error` and `env::VarError`: both are opaque records of a kind and a message string, and displaying them yields that string.
- `io::ErrorKind`: only `NotFound` and `PermissionDenied` are named; every other kind is `OtherKind(name)`.
- The column is a `nat` rather than a `usize`; nothing computes with it, so its width does not matter.
- The `std::error::Error` trait machinery, `downcast_ref`, `#[non_exhaustive]` and the `Debug`/`Clone` derives.
