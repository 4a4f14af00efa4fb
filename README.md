# Sharing platform: a verified model of its core

The sharing platform lets people publish front-end prototypes that live in GitHub
repositories. The backend is an Express service. It parses repository URLs and keeps
a table of prototypes and a table of build-history rows. It clones a repository,
detects whether it is a React or a static project, then builds or copies it into an
artifacts directory, which it then serves over HTTP. An authentication middleware
derives the signed-in user from a bearer token. The prototype gallery is a React
front end. It holds mock data, favourites, search and filter state, and a list of
prototypes that it keeps in step with the backend.

This project models that core in Dafny, one module per source file:

- **GitHub URLs.** `GitHubUrl` models `utils/github.ts`. `RepoLink` models the owner and
  repository extraction in the front end's `validateRepository`.
- **Build service.**
  - `BuildService` is a class over a file tree (`FileTree`). Child processes are an
    oracle that returns their output, their exit and the tree they leave.
  - `package.json` parsing is an oracle as well.
  - Each build step is a method proved against a specification function: command
    results, project detection, the React build, the static copy, the recursive
    directory copy, the whole build workflow with its store calls, and file serving.
  - The tree each build step leaves is a specification function as well
    (`ReactTree`, `BuiltTree`, `StepsTree`). Two lemmas show that a successful
    build serves the `index.html` it produced at the prototype's own URL.
- **Store.** `PrototypeStore.PrototypeService` is a class whose two tables are `map`
  fields, one for prototypes and one for build-history rows. Its methods state each
  table's new value and keep a validity invariant.
- **Backend HTTP layer.**
  - `PrototypeController` holds the request checks and the mapping from error
    message to HTTP status.
  - `HostingController` holds the hosting handler and `path.extname`.
  - `Auth` holds the three middlewares. `jwt.verify` is an oracle.
- **Gallery.**
  - `GalleryData` and `GalleryApi` cover the mock data and its lookups.
  - `UseSearch` and `UseFilter` are the list hooks.
  - `Favorites` is the favourites context.
  - `UsePrototypes.PrototypeList` is the prototypes hook's state: the list, the
    loading flag and the error. Its five actions update that state.
- **Shared helpers.** `Results`, `Text` and `Seqs` hold the string and sequence
  helpers. Their lemmas cover `split`/`join`, `trim`, `includes` and `filter`.

## Model

| member | source | states |
|---|---|---|
| GitHubUrl.ParseGitHubUrl | backend/src/utils/github.ts:1-39 | every failure carries "Invalid GitHub repository URL format"; a success needs the SSH or HTTPS prefix on the cleaned URL; owner and repository never hold `/` |
| GitHubUrl.CleanUrl | backend/src/utils/github.ts:7-12 | the trimmed URL with one final `.git` removed: adding `.git` back gives the trimmed URL when it ended so, otherwise the trimmed URL itself; it never starts with white space and is no longer than the input |
| GitHubUrl.ParseOkIff | backend/src/utils/github.ts:7-38 | parsing succeeds iff the trimmed URL minus one `.git` is an SSH URL with exactly two parts or an HTTPS URL with at least two |
| GitHubUrl.ParseSound | backend/src/utils/github.ts:15-35 | an SSH result is exactly prefix/owner/repo; an HTTPS result is a prefix of the URL followed by nothing or by a further `/` segment |
| GitHubUrl.IsValidGitHubUrl | backend/src/utils/github.ts:47-54 | true exactly when the cleaned URL has an accepted form, i.e. when parsing does not fail |
| GitHubUrl.HttpsWithGitSuffix | backend/src/utils/github.ts:7-36 | `https://github.com/<tail>.git` yields the first two `/`-parts of the tail, or the format error with fewer than two |
| GitHubUrl.SshWithGitSuffix | backend/src/utils/github.ts:7-24 | `git@github.com:<tail>.git` yields the two parts of the tail, or the format error unless there are exactly two |
| GitHubUrl.SshRoundTrip | backend/src/utils/github.ts:15-24 | the SSH URL of a slash-free owner and repository parses back to them |
| GitHubUrl.HttpsRoundTrip | backend/src/utils/github.ts:27-36 | the HTTPS URL of a slash-free owner and repository parses back to them |
| GitHubUrl.HttpsExtraSegments | backend/src/utils/github.ts:27-36 | extra HTTPS path segments (`/tree/main`) are ignored |
| GitHubUrl.SshExtraSegments | backend/src/utils/github.ts:15-19 | an SSH URL with a third segment is rejected |
| GitHubUrl.EmptyRepoAccepted | backend/src/utils/github.ts:28-35 | `https://github.com/o/` parses with an empty repository name |
| GitHubUrl.OtherPrefixesRejected | backend/src/utils/github.ts:38 | `http://` and scheme-less URLs are rejected |
| GitHubUrl.CleanRepoName | backend/src/utils/github.ts:43 | same length; every character is in `[a-z0-9-]`; position by position, the lower-cased character when it is in that class and `-` otherwise |
| GitHubUrl.CleanRepoNameFixed | backend/src/utils/github.ts:43 | a name made of `[a-z0-9-]` is left unchanged |
| GitHubUrl.CleanRepoNameIdempotent | backend/src/utils/github.ts:43 | cleaning twice equals cleaning once |
| GitHubUrl.GeneratePrototypeUrl | backend/src/utils/github.ts:41-45 | the URL starts with `/prototype/` and the rest holds only `[a-z0-9-]` |
| GitHubUrl.PrototypeUrlDecodes | backend/src/utils/github.ts:41-45 | the timestamp is the first `-` piece after the prefix and the cleaned name is what follows it |
| RepoLink.MatchAtSound | prototype-gallery/src/services/githubService.ts:56 | a match at `i` is `github.com/`, a non-empty slash-free owner, `/` and a non-empty slash-free repository, followed by `/` or the end |
| RepoLink.MatchAtComplete | prototype-gallery/src/services/githubService.ts:56 | every such occurrence at `i` is the match found at `i` |
| RepoLink.FirstMatch | prototype-gallery/src/services/githubService.ts:56 | the leftmost match at or after `i`, and none before it; none at all when absent |
| RepoLink.CleanRepo | prototype-gallery/src/services/githubService.ts:62 | one trailing `.git` removed, otherwise unchanged |
| RepoLink.ExtractRepo | prototype-gallery/src/services/githubService.ts:56-62 | "Invalid GitHub repository URL" iff no position matches; otherwise the leftmost match with the cleaned repository |
| RepoLink.LookupPath | prototype-gallery/src/services/githubService.ts:56-64 | fails exactly when extraction fails; else `/github/repos/<owner>/<repo>` |
| RepoLink.ExtractAfterPrefix | prototype-gallery/src/services/githubService.ts:56-62 | any scheme or prefix without a `g` before `github.com/o/r` yields `(o, r)` with `.git` removed |
| RepoLink.BareGitSuffix | prototype-gallery/src/services/githubService.ts:62-64 | a repository segment that is only `.git` is cleaned to the empty name |
| BuildService.RunOutcome | backend/src/services/buildService.ts:195-205 | resolves iff the exit code is 0, with the concatenated output; otherwise the message names the command and code, or the start failure |
| BuildService.MergedDependencies | backend/src/services/buildService.ts:100 | keys of both maps; `devDependencies` wins on a clash |
| BuildService.DetectProjectType | backend/src/services/buildService.ts:92-119 | React iff the manifest parses and names react; static iff not React and the directory lists `index.html`; known types need a directory |
| BuildService.BuildOutput | backend/src/services/buildService.ts:139-149 | `build/` is preferred over `dist/`; none iff neither directory exists |
| BuildService.TempApartFromOutput | backend/src/services/buildService.ts:39-40 | the clone directory and the output directory do not overlap for ids other than `temp` |
| BuildService.ResolvePlain | backend/src/services/buildService.ts:240 | joining plain segments appends them |
| BuildService.ResolveUp | backend/src/services/buildService.ts:240 | a `name/..` pair cancels out when joined |
| BuildService.Resolve | backend/src/services/buildService.ts:39-40 | joining never yields more entries than the base and the pieces together; without `..` it succeeds and extends the base |
| BuildService.CopiedFiles | backend/src/services/buildService.ts:218-235 | after the copy, every file under the source is at the same relative path under the destination, with the same bytes |
| BuildService.CopiedElsewhere | backend/src/services/buildService.ts:218-235 | the copy leaves everything outside the destination unchanged |
| BuildService.BuildService.constructor | backend/src/services/buildService.ts:10-14 | the service starts with the given store, artifacts directory, oracles and tree, and an empty trace |
| BuildService.BuildService.RunCommand | backend/src/services/buildService.ts:163-207 | the result is `RunOutcome` of the oracle's run, the tree is the one it leaves, and one run is traced |
| BuildService.BuildService.Show | backend/src/services/buildService.ts:39-42 | a printed place starts with the artifacts directory, and a non-empty place continues with `/` |
| BuildService.BuildService.ShowReadsBack | backend/src/services/buildService.ts:39-40 | the entries of a place are read back by splitting what follows the directory and its `/` |
| BuildService.BuildService.CopyDirectory | backend/src/services/buildService.ts:218-235 | succeeds iff no file blocks a directory on the way; on success the tree is `Copied`; a failure leaves everything outside the destination unchanged |
| BuildService.BuildService.CopyEntry | backend/src/services/buildService.ts:223-234 | one loop step merges one more entry into the destination, or fails on a file/directory clash |
| BuildService.BuildService.ReactSuccess | backend/src/services/buildService.ts:121-155 | success needs both npm runs to exit 0 and an output directory; the logs are header, install output, build output and copy line, in that order |
| BuildService.BuildService.ReactFailures | backend/src/services/buildService.ts:125-148 | a failed install fails with its message before the build runs; no `build/` or `dist/` fails with the not-found message |
| BuildService.BuildService.ReactOutcome | backend/src/services/buildService.ts:121-155 | succeeds iff both commands exit with 0, an output directory exists and its copy is allowed; once the copy is attempted only the copy can fail; the logs start with the React header |
| BuildService.BuildService.BuildReactProject | backend/src/services/buildService.ts:121-155 | the result is `ReactOutcome`; `npm run build` runs only after a successful install; on success the output directory exists and the tree is `ReactTree` (the build output merged into the output directory); a failed command or a missing output directory leaves exactly the tree the commands left, with nothing copied; a failed copy changes nothing outside the output directory |
| BuildService.BuildService.StaticOutcome | backend/src/services/buildService.ts:157-161 | succeeds iff the copy is allowed, and its logs are then exactly the static header followed by the copy line; a failure carries the copy's error |
| BuildService.BuildService.CopyStaticFiles | backend/src/services/buildService.ts:157-161 | the result is `StaticOutcome`; on success the tree is `Copied`; a failure changes nothing outside the output directory; no command runs |
| BuildService.BuildService.StepsLogs | backend/src/services/buildService.ts:42-73 | successful logs start with the React or static header, so clone output is dropped; an unknown type fails with "Unsupported project type: unknown" |
| BuildService.BuildService.StepsOutcome | backend/src/services/buildService.ts:38-68 | succeeds iff the clone exits with 0 and the build or copy of the clone succeeds; the logs start with the React or static header |
| BuildService.BuildService.BuiltOutcome | backend/src/services/buildService.ts:48-65 | an unknown type fails with "Unsupported project type: unknown"; success needs a copy to be attempted, and once it is only the copy can fail; on success the output directory of `BuiltTree` is a directory |
| BuildService.BuildService.BuildSteps | backend/src/services/buildService.ts:39-68 | the result is `StepsOutcome`; the clone runs first; on success the tree is `StepsTree` with the clone removed; a failed clone or a failure before any copy leaves exactly `StepsTree` (the clone kept); any failure leaves everything outside the output directory as `StepsTree` says |
| BuildService.BuildService.BuildClone | backend/src/services/buildService.ts:48-68 | build or copy by project type; on success the tree is `BuiltTree` with the clone removed, so the clone is gone and the output is a directory; on failure the clone is kept, and the tree is `BuiltTree` outside the output directory (exactly, when no copy was attempted) |
| BuildService.BuildService.BuildOrCopy | backend/src/services/buildService.ts:54-65 | the result is `BuiltOutcome` and only a React project runs commands; on success the tree is `BuiltTree`; when no copy is attempted the tree is exactly `BuiltTree`; a failed copy changes nothing outside the output directory |
| BuildService.BuildService.OpenBuild | backend/src/services/buildService.ts:29-36 | a `started` history row with the start log, then the prototype marked building; a missing prototype leaves both tables unchanged |
| BuildService.BuildService.CloseBuild | backend/src/services/buildService.ts:70-88 | the row is completed with the logs or the error message, the prototype's status follows, and the error is passed on |
| BuildService.BuildService.BuildPrototype | backend/src/services/buildService.ts:24-90 | without a history row nothing else happens, the tree included; otherwise the outcome is that of the steps, `completeBuild` is called exactly once, last, and both tables' new values are given; on success the tree is `StepsTree` with the clone removed; on failure the tree outside the output directory is `StepsTree` |
| BuildService.BuildService.RunBuild | backend/src/services/buildService.ts:38-89 | once the row is open: the steps, then the row and the prototype closed with their outcome (logs on success, the error's message on failure) and the error passed on; the tree is as `BuildSteps` states |
| BuildService.BuildService.Serve | backend/src/services/buildService.ts:237-253 | bytes are returned iff the resolved path names a file, and they are the bytes of the file at exactly that path |
| BuildService.BuildService.ServedPath | backend/src/services/buildService.ts:239-245 | the place read lies under a resolvable output directory; an empty path or `/` reads its `index.html`; a path ending in `/` reads nothing else; no directory is read except as that `index.html` |
| BuildService.BuildService.StaticBuildServesIndex | backend/src/services/buildService.ts:39-68 | after a successful build of a cloned static site, the prototype's own URL serves the bytes of the clone's `index.html` |
| BuildService.BuildService.ReactBuildServesIndex | backend/src/services/buildService.ts:121-155 | after a successful React build, the prototype's own URL serves the bytes of the `index.html` the build left in `build/` or `dist/` |
| BuildService.BuildService.ServeIndex | backend/src/services/buildService.ts:243-244 | an empty path or `/` serves the output's `index.html` |
| BuildService.BuildService.ServeFile | backend/src/services/buildService.ts:239-248 | a plain path naming a file serves that file |
| BuildService.BuildService.ServeSubdirectory | backend/src/services/buildService.ts:243-244 | a subdirectory serves the top-level `index.html`, not the subdirectory's own |
| BuildService.BuildService.ServeTrailingSlash | backend/src/services/buildService.ts:240-251 | a file name with a trailing `/` is not served |
| BuildService.BuildService.ServeClimbsOut | backend/src/services/buildService.ts:239-240 | `../<other>/<name>` reads a file outside the prototype's own output |
| BuildService.BuildService.OutputResolves | backend/src/services/buildService.ts:239 | a plain id resolves to its own output directory |
| BuildService.BuildService.ServedPathPlain | backend/src/services/buildService.ts:239-245 | a plain path resolves to the index when it names a directory and to itself otherwise |
| PrototypeStore.ApplyUpdate | backend/src/services/prototypeService.ts:99-104 | only name and description change: the name when the new one is truthy, the description when it is given |
| PrototypeStore.WithBuildStatus | backend/src/services/prototypeService.ts:139-150 | status set; error message set when given; `lastDeployedAt` moves only on success; nothing else changes |
| PrototypeStore.CompletedRecord | backend/src/services/prototypeService.ts:180-191 | success or failed status, completion time, duration = end - start, logs and error when given; ids and start kept |
| PrototypeStore.InsertPos | backend/src/services/prototypeService.ts:58 | the first position whose prototype is older than the new one |
| PrototypeStore.InsertByRecency | backend/src/services/prototypeService.ts:58 | the list gains exactly the new prototype |
| PrototypeStore.InsertKeepsOrder | backend/src/services/prototypeService.ts:58 | insertion keeps the list ordered by `lastUpdated` descending |
| PrototypeStore.InsertKeepsDistinct | backend/src/services/prototypeService.ts:49-59 | insertion of a new prototype keeps the list free of duplicates |
| PrototypeStore.PrototypeService.constructor | backend/src/services/prototypeService.ts:5 | both tables start empty |
| PrototypeStore.PrototypeService.CreatePrototype | backend/src/services/prototypeService.ts:6-44 | a URL that fails to parse gives its error; an active prototype on the same owner/repo gives the duplicate error; otherwise a fresh active row with the parsed owner/repo, the creator and `/prototype/<ts>-<repo>` |
| PrototypeStore.PrototypeService.InsertFresh | backend/src/services/prototypeService.ts:24-41 | a fresh id is added and nothing else changes |
| PrototypeStore.PrototypeService.GetPrototypes | backend/src/services/prototypeService.ts:46-62 | exactly the active prototypes, by creator when given, once each, most recently updated first |
| PrototypeStore.PrototypeService.GetPrototypeById | backend/src/services/prototypeService.ts:64-84 | found iff active and, with a user, created by that user; else "Prototype not found" |
| PrototypeStore.PrototypeService.UpdatePrototype | backend/src/services/prototypeService.ts:86-115 | fails iff the user does not own the active prototype; otherwise only that row becomes `ApplyUpdate` of it |
| PrototypeStore.PrototypeService.DeletePrototype | backend/src/services/prototypeService.ts:117-137 | the same owner check; only `isActive` becomes false |
| PrototypeStore.PrototypeService.UpdateBuildStatus | backend/src/services/prototypeService.ts:139-150 | "Record to update not found." iff the id is absent (inactive rows are updated too); otherwise only that row becomes `WithBuildStatus` of it |
| PrototypeStore.PrototypeService.AddBuildHistory | backend/src/services/prototypeService.ts:152-167 | fails iff the prototype does not exist; otherwise one fresh row with the given status and logs |
| PrototypeStore.PrototypeService.CompleteBuild | backend/src/services/prototypeService.ts:169-201 | "Build history not found" iff the row is absent; otherwise the row is completed and the prototype's status follows the outcome |
| PrototypeStore.DeletedIsHidden | backend/src/services/prototypeService.ts:117-137 | after a delete, the prototype is neither listed nor found |
| PrototypeStore.CompletionKeepsEarlierText | backend/src/services/prototypeService.ts:185-189 | an omitted log or error message leaves the earlier one in place |
| PrototypeStore.DeletedFreesRepo | backend/src/services/prototypeService.ts:10-20 | once its only active prototype is deleted, a repository can be registered again |
| PrototypeController.CreateRejection | backend/src/controllers/prototypeController.ts:14-28 | 400 for a missing field, then 400 for an invalid URL, then 401 without a user; none exactly when all three pass |
| PrototypeController.AcceptedUrlParses | backend/src/controllers/prototypeController.ts:20-33 | a request past the checks carries a URL that the service parses |
| PrototypeController.ListFilter | backend/src/controllers/prototypeController.ts:44-45 | a creator filter iff `my` is `"true"` and a user is present; it is the user's email |
| PrototypeController.ReadErrorStatus | backend/src/controllers/prototypeController.ts:64 | 404 iff the message is exactly "Prototype not found", else 500 |
| PrototypeController.WriteErrorStatus | backend/src/controllers/prototypeController.ts:82 | 404 iff the message contains "not found" or "unauthorized", else 500 |
| PrototypeController.RebuildErrorStatus | backend/src/controllers/prototypeController.ts:127 | 404 iff the message contains "not found", else 500 |
| PrototypeController.OwnershipErrorIs404 | backend/src/controllers/prototypeController.ts:96-100 | the store's ownership error maps to 404 |
| PrototypeController.RebuildErrorsAre404 | backend/src/controllers/prototypeController.ts:113-127 | both store errors a rebuild can raise map to 404 |
| PrototypeController.PrototypeController.constructor | backend/src/controllers/prototypeController.ts:9 | the controller works on the given store |
| PrototypeController.PrototypeController.CreatePrototype | backend/src/controllers/prototypeController.ts:10-40 | a rejection leaves the store alone; a duplicate gives 400 with its message; otherwise 201 with exactly the new row (a fresh id, the request's name, description and URL, the parsed owner and repository, the user's email, both timestamps `now`, public, `pending`, no deployment time, no build error, the `/prototype/<now>-<repo>` URL), added to the table |
| PrototypeController.PrototypeController.GetPrototypes | backend/src/controllers/prototypeController.ts:42-53 | 200 with exactly the listed prototypes for the filter, newest first, no duplicates |
| PrototypeController.PrototypeController.GetPrototype | backend/src/controllers/prototypeController.ts:55-67 | 200 with the row iff it is findable for the signed-in user's email; else 404 "Prototype not found" |
| PrototypeController.PrototypeController.UpdatePrototype | backend/src/controllers/prototypeController.ts:69-85 | 401 without a user; 404 unless owned; else 200 with the updated row, and only that row changes |
| PrototypeController.PrototypeController.DeletePrototype | backend/src/controllers/prototypeController.ts:87-102 | 401 without a user; 404 unless owned; else 204 and the row is deactivated |
| PrototypeController.PrototypeController.RebuildPrototype | backend/src/controllers/prototypeController.ts:104-130 | 401 without a user; 404 unless the user's prototype is found; else 200 "Rebuild triggered successfully" and the row is marked building |
| HostingController.ContentType | backend/src/controllers/prototypeHostingController.ts:29 | the looked-up type when it is truthy, else `application/octet-stream` |
| HostingController.Headers | backend/src/controllers/prototypeHostingController.ts:31-36 | the content type comes first, any origin may `GET` the file, and no header is set twice |
| HostingController.RequestPath | backend/src/controllers/prototypeHostingController.ts:13-17 | the rest after `/prototype/<id>` and one more character, or empty when the prefix is absent |
| HostingController.RequestPathOf | backend/src/controllers/prototypeHostingController.ts:13-17 | `/prototype/<id>` gives `""`; `/prototype/<id>/<rest>` gives `rest` |
| HostingController.StripTrailing | backend/src/controllers/prototypeHostingController.ts:28 | a prefix of the path that does not end in `/` (the trailing separators `extname` ignores) |
| HostingController.LastIndex | backend/src/controllers/prototypeHostingController.ts:28 | the last index of the character, or -1 when there is none |
| HostingController.BaseName | backend/src/controllers/prototypeHostingController.ts:28 | the last slash-free piece of the path without its trailing separators |
| HostingController.BaseExt | backend/src/controllers/prototypeHostingController.ts:28 | a suffix of the base name that is empty or is a `.` followed by no other `.` |
| HostingController.ExtName | backend/src/controllers/prototypeHostingController.ts:28 | empty, or a `.` followed by neither `.` nor `/` |
| HostingController.BaseNameOf | backend/src/controllers/prototypeHostingController.ts:28 | the base name of `dir/name` is `name` |
| HostingController.BaseExtOf | backend/src/controllers/prototypeHostingController.ts:28 | `stem.e` has extension `.e` when the stem is neither empty nor `.` |
| HostingController.ExtNameOf | backend/src/controllers/prototypeHostingController.ts:28 | `dir/stem.e` has extension `.e` |
| HostingController.NoExtension | backend/src/controllers/prototypeHostingController.ts:28 | a name without a dot, `/` and `..` have no extension |
| HostingController.IndexHtmlExt | backend/src/controllers/prototypeHostingController.ts:28 | the extension of `index.html` is `.html` |
| HostingController.Handle | backend/src/controllers/prototypeHostingController.ts:9-43 | 404 "File not found" iff the build service serves nothing; otherwise exactly the served bytes (the content type chosen is stated by `HandleRoot`, `HandleFile` and `DirectorySentAsOctetStream`) |
| HostingController.HandleServedType | backend/src/controllers/prototypeHostingController.ts:21-38 | corrected handler: as `Handle`, but the content type comes from the name of the file actually served |
| HostingController.HandleRoot | backend/src/controllers/prototypeHostingController.ts:13-38 | `/prototype/<id>` sends the output's `index.html` with the type looked up for `.html` |
| HostingController.HandleFile | backend/src/controllers/prototypeHostingController.ts:13-38 | `/prototype/<id>/<path>` naming a file sends it with the type of its own extension |
| HostingController.JoinedExt | backend/src/controllers/prototypeHostingController.ts:28 | the extension of a joined plain path is that of its last segment |
| HostingController.DirectorySentAsOctetStream | backend/src/controllers/prototypeHostingController.ts:28-29 | as written, a directory request sends `index.html` labelled `application/octet-stream` |
| HostingController.DirectorySentAsHtml | backend/src/controllers/prototypeHostingController.ts:21-38 | corrected, the same request sends `index.html` with the `.html` type |
| Auth.Token | backend/src/middleware/auth.ts:6-7 | a token is non-empty and holds no space |
| Auth.TokenAfterScheme | backend/src/middleware/auth.ts:7 | the second space-separated piece is the token, whatever the scheme word is |
| Auth.TokenNeedsSpace | backend/src/middleware/auth.ts:7-11 | a header without a space carries no token |
| Auth.NameOf | backend/src/middleware/auth.ts:23 | a prefix of the email without `@`, ending at the first `@` |
| Auth.NameOfAddress | backend/src/middleware/auth.ts:23 | the name of `local@domain` is `local` |
| Auth.Authenticated | backend/src/middleware/auth.ts:13-24 | a user iff there is a token, a truthy secret and a verified payload; id and email come from the payload, the name from the email |
| Auth.MockEmail | backend/src/middleware/auth.ts:36 | the header when truthy, else `test@microsoft.com`; never empty |
| Auth.Exchange.constructor | backend/src/middleware/auth.ts:5-6 | a request with its two headers and no user, status or error yet |
| Auth.AuthenticateToken | backend/src/middleware/auth.ts:5-31 | passes iff authenticated, setting the user; 401 "Access token required" without a token; 403 "Invalid or expired token" otherwise |
| Auth.MockAuth | backend/src/middleware/auth.ts:34-45 | always passes, with id `mock-user-id`, the mock email and its name |
| Auth.OptionalAuth | backend/src/middleware/auth.ts:47-74 | always passes and never sets a status; sets the user exactly when authenticated |
| Favorites.RemoveFavorite | prototype-gallery/src/contexts/FavoritesContext.tsx:48-50 | the id is gone; the rest keep their order and multiplicity |
| Favorites.AddFavorite | prototype-gallery/src/contexts/FavoritesContext.tsx:44-46 | the id is last and occurs once; before it, the list with the id removed |
| Favorites.AddIdempotent | prototype-gallery/src/contexts/FavoritesContext.tsx:44-46 | adding twice equals adding once |
| Favorites.RemoveTrailing | prototype-gallery/src/contexts/FavoritesContext.tsx:45 | removing an id after appending it equals removing it from the original |
| Favorites.RemoveAbsent | prototype-gallery/src/contexts/FavoritesContext.tsx:48-50 | removing an absent id changes nothing |
| Favorites.AddKeepsNoDuplicates | prototype-gallery/src/contexts/FavoritesContext.tsx:44-46 | adding keeps a duplicate-free list duplicate-free |
| Favorites.FavoriteAfterUpdate | prototype-gallery/src/contexts/FavoritesContext.tsx:44-54 | after adding, the id is a favourite; after removing, it is not; other ids are unaffected |
| GalleryData.MatchIgnoresCase | prototype-gallery/src/data/mockPrototypes.ts:166-171 | lower-casing the query does not change a match |
| GalleryData.EmptyQueryMatches | prototype-gallery/src/data/mockPrototypes.ts:165-173 | the empty query matches every prototype |
| GalleryData.ByAuthor | prototype-gallery/src/data/mockPrototypes.ts:157-159 | an order-preserving sublist holding each prototype by that author as often as the list does, and no other |
| GalleryData.ByProductArea | prototype-gallery/src/data/mockPrototypes.ts:161-163 | an order-preserving sublist holding each prototype in that area as often as the list does, and no other |
| GalleryData.SearchWithTags | prototype-gallery/src/data/mockPrototypes.ts:165-173 | an order-preserving sublist holding each prototype whose title, description, author name or a tag contains the query, ignoring case, as often as the list does, and no other |
| GalleryData.SearchCards | prototype-gallery/src/hooks/useSearch.ts:13-18 | an order-preserving sublist holding each prototype whose title, description, author name or product area contains the query, ignoring case, as often as the list does, and no other |
| GalleryData.TagOnlyMatch | prototype-gallery/src/data/mockPrototypes.ts:172 | a prototype matching only through a tag is found by the data search but not by the card search |
| GalleryData.SearchEverything | prototype-gallery/src/data/mockPrototypes.ts:165-173 | the empty query returns the whole list |
| GalleryData.SearchIgnoresCase | prototype-gallery/src/data/mockPrototypes.ts:165-173 | a query and its lower-case form give the same result |
| GalleryApi.FavoritesIn | prototype-gallery/src/utils/api.ts:22-25 | an order-preserving sublist holding each prototype whose id is a favourite as often as the list does, and no other |
| GalleryApi.FavoritesIgnoreOrder | prototype-gallery/src/utils/api.ts:22-25 | only which ids are favourites matters, not their order or repetition |
| GalleryApi.GetCurrentUser | prototype-gallery/src/utils/api.ts:40-43 | the first mock user, `user-1`, Sarah Chen |
| UseSearch.FilteredPrototypes | prototype-gallery/src/hooks/useSearch.ts:7-19 | a blank query after trimming keeps the list; otherwise an order-preserving sublist holding each card match for the untrimmed query as often as the list does, and no other |
| UseSearch.LeadingSpaceCounts | prototype-gallery/src/hooks/useSearch.ts:12-18 | the query is matched untrimmed, so a leading space must occur in a matched field |
| UseFilter.NarrowIsFilter | prototype-gallery/src/hooks/useFilter.ts:11-22 | one optional narrowing step is a filter by "inactive or kept" |
| UseFilter.ThreeSteps | prototype-gallery/src/hooks/useFilter.ts:7-52 | the three successive narrowings equal one filter by their conjunction |
| UseFilter.FilteredPrototypes | prototype-gallery/src/hooks/useFilter.ts:7-52 | exactly the prototypes passing area, author and recency, in their original order |
| UseFilter.InactiveFiltersShowAll | prototype-gallery/src/hooks/useFilter.ts:11-22 | no filters, or empty strings for area and author, keep the whole list |
| UseFilter.AreaFilterIsLookup | prototype-gallery/src/hooks/useFilter.ts:11-15 | an area filter alone equals the product-area lookup |
| UseFilter.UpdateFilter | prototype-gallery/src/hooks/useFilter.ts:54-59 | sets one key and keeps the other two |
| UseFilter.UpdatesCompose | prototype-gallery/src/hooks/useFilter.ts:54-59 | an update is idempotent and updates of different keys commute |
| UseFilter.ClearFilters | prototype-gallery/src/hooks/useFilter.ts:61-63 | every filter is unset |
| UsePrototypes.MessageOf | prototype-gallery/src/hooks/usePrototypes.ts:42 | an Error's message, else the fallback text |
| UsePrototypes.ReplaceById | prototype-gallery/src/hooks/usePrototypes.ts:52 | same length; each entry with the id is replaced, every other kept |
| UsePrototypes.MarkBuilding | prototype-gallery/src/hooks/usePrototypes.ts:78-80 | same length; each entry with the id gets status building, every other kept |
| UsePrototypes.RemoveById | prototype-gallery/src/hooks/usePrototypes.ts:65 | an order-preserving sublist holding each entry without that id as often as the list does, and no other |
| UsePrototypes.ReplaceAbsent | prototype-gallery/src/hooks/usePrototypes.ts:52 | replacing an absent id changes nothing |
| UsePrototypes.MarkOnlyStatus | prototype-gallery/src/hooks/usePrototypes.ts:78-80 | marking changes only the status field |
| UsePrototypes.RemoveAfterReplace | prototype-gallery/src/hooks/usePrototypes.ts:52-65 | deleting after an update equals deleting alone |
| UsePrototypes.RemoveAfterPrepend | prototype-gallery/src/hooks/usePrototypes.ts:39-65 | deleting a just-created prototype restores the list's other entries |
| UsePrototypes.PrototypeList.constructor | prototype-gallery/src/hooks/usePrototypes.ts:17-19 | empty list, loading, no error |
| UsePrototypes.PrototypeList.FetchPrototypes | prototype-gallery/src/hooks/usePrototypes.ts:21-33 | loading ends; success replaces the list and clears the error; failure keeps the list and sets the message |
| UsePrototypes.PrototypeList.CreatePrototype | prototype-gallery/src/hooks/usePrototypes.ts:35-46 | success prepends the new prototype; failure records the message and rethrows |
| UsePrototypes.PrototypeList.UpdatePrototype | prototype-gallery/src/hooks/usePrototypes.ts:48-59 | success replaces by id; failure records the message and rethrows |
| UsePrototypes.PrototypeList.DeletePrototype | prototype-gallery/src/hooks/usePrototypes.ts:61-71 | success removes by id; failure records the message and rethrows |
| UsePrototypes.PrototypeList.RebuildPrototype | prototype-gallery/src/hooks/usePrototypes.ts:73-86 | success marks the id as building; failure records the message and rethrows |

## Left out

- Child processes, `package.json` parsing, `jwt.verify`, the MIME table and the
  backend calls made by the hooks are oracles passed as parameters. Their behaviour
  is not modelled.
- Clocks are parameters: `Date.now()`, the build start and end times, and the
  recency cutoff of the filter hook. The hook's calendar arithmetic (a week, month,
  quarter or year back) is not modelled; the filter takes the cutoff as given.
- Identifiers come from a counter. Prisma's uuid generation is not modelled.
- The Prisma schema is not part of this model. Its defaults are taken as: a new
  prototype is active with status `pending`, and the time is the creation time.
  `@updatedAt` bookkeeping is not modelled. Related rows included in query results
  (`include`, `take`) are not modelled.
- `fs` errors carry one fixed message; the real message depends on the platform.
- The only failure a copy can hit is a file where a directory is needed. Permission
  errors and partial writes are not modelled.
- BuildService.BuildService.BuildPrototype: requires the prototype id to be a plain
  path segment other than `temp`. Other ids would make the clone directory overlap
  the output directory, and that overlap is not modelled.
- BuildService.BuildService.Serve: a request path that climbs above the artifacts
  directory serves nothing in the model. The real service would read outside it.
- BuildService.BuildService.Show: prints the artifacts directory exactly as it was
  configured, then `/` and the entries. `path.join` would also normalise the
  directory (`./build-artifacts` prints as `build-artifacts`, a trailing `/` or a
  doubled `//` collapses), so the printed paths in logs and in the clone's argument
  differ from the real ones for such a directory.
- Console logging is dropped.
- `toLowerCase` is modelled as ASCII lower-casing (`Text.ToLower`); Unicode case mapping is not modelled.
- GitHubUrl.CleanRepoName: strings are sequences of Unicode scalar values, not UTF-16 code units; a character outside the Basic Multilingual Plane becomes one `-` where the source's regular expression (no `u` flag) writes two.
- PrototypeStore.PrototypeService.AddBuildHistory: the optional `gitCommitSha`, `gitCommitMessage` and `errorMessage` arguments are not taken; `BuildRecord` has no commit fields and the new row's `errorMessage` is `None`. The only caller (backend/src/services/buildService.ts:29) passes just the status and the logs.
- The constructor's `ensureBuildDirectory` is not modelled: the artifacts directory is part of the given tree.
- HostingController.Handle: its own contract states the 404 decision and the bytes sent but not the content type; the type is stated case by case by `HandleRoot`, `HandleFile` and `DirectorySentAsOctetStream`.
- The hosting handler's 500 path is not modelled. The model has no exception that
  could reach it.
- Asynchronous interleaving of concurrent requests is not modelled.
- React rendering and component state outside the hooks are not modelled.
- localStorage persistence of favourites is not modelled.
- The artificial delays in `utils/api.ts` are dropped.
- The wrappers over the fixed mock list have no contract of their own. Their
  contract is stated once, on the list-generic functions they apply:
  - `GalleryData.GetUserPrototypes`, `GalleryData.GetPrototypesByProductArea` and
    `GalleryData.SearchPrototypes`;
  - `GalleryApi.GetAllPrototypes`, `GalleryApi.GetUserPrototypes`,
    `GalleryApi.GetFavoritePrototypes` and `GalleryApi.SearchPrototypes`.
- HostingController.ExtName: states the form of an extension, not that it is a
  suffix of the path. The suffix property is stated on `BaseExt`.
- Where the code and the system's own description disagree, the model follows the
  code:
  - the build copies into an existing output directory and merges with it, rather
    than replacing it;
  - the clone directory is removed only after a successful build;
  - a request for a subdirectory serves the top-level `index.html`;
  - the hosting routes are not mounted by the server entry point, but the
    controller is modelled as written;
  - the store builds the prototype URL from the raw repository name, not through
    `generatePrototypeUrl`.

## Findings

| source | as written | input that shows it | evidently intended | confidence | as-written member | corrected member |
|---|---|---|---|---|---|---|
| backend/src/controllers/prototypeHostingController.ts:28-29 | the content type is taken from the extension of the request path, even when the build service answered a directory request with `index.html` | `/prototype/<id>/assets` where `assets` is a directory and no MIME type exists for the empty extension | the type of the file actually sent, `text/html` for `index.html` | not executed | HostingController.DirectorySentAsOctetStream | HostingController.DirectorySentAsHtml |
