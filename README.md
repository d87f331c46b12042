# Directory upload planning of fairdata-protocol, in Dafny

This project models the path and upload-planning layer of the fairdata-protocol directory module and
proves properties about it:

- **Absolute paths.** `getPathParts` and `getPathFromParts` turn an absolute `/`-separated path into a
  part list (a `"/"` sentinel followed by the segments) and back. `combine` builds a path from loose
  fragments. `assertPartsLength` and `assertDirectoryName` are the validators.
- **Directory planner.** `getDirectoriesToCreate` lists every directory that a set of relative file
  paths needs. The list has no duplicates and keeps first-discovery order.
- **File descriptions.** `FileInfo` is the uniform file description. `browserFilesToFileInfoList`
  normalises a browser file selection. `filterDotFiles` and `filterBrowserRecursiveFiles` filter files.
  `getUploadPath` gives a file's remote path.
- **`Directory.upload`.** This is a sequential method:
  1. Merge the options with the defaults.
  2. Check the environment.
  3. Enumerate and filter the files.
  4. Plan the directories.
  5. Create each directory. An "already listed in the parent directory list" failure counts as done.
  6. Upload each file.

  The remote services and the file readers are collaborators, passed in as functions. The method returns
  the trace of the directory creations and file uploads it issued, together with its outcome.

Modules, one file each:

- `results.dfy` (`Results`): `Option`, `Result` and the pass/fail outcome of the validators.
- `strings.dfy` (`Strings`): JavaScript's `split`, `join`, `startsWith` and `includes`, and the
  repository's own `replaceAll` helper with an empty replacement.
- `seqs.dfy` (`Seqs`): `filter`, order-preserving subsequences, and duplicate-freedom.
- `path_model.dfy` (`PathModel`): part lists, `combine` and the validators.
- `file_info.dfy` (`FileInfos`): `FileInfo`, the browser normaliser, the filters and the upload path.
- `planner.dfy` (`Planner`): `getDirectoriesToCreate`. It is a method with loops, proved against the
  specification function `DirectoriesToCreate`.
- `upload.dfy` (`DirectoryUpload`): `Directory.upload`. It is a method proved against the function
  `UploadRun`. The lemmas about whole runs are stated on `UploadRun` and on its second half, `RunFiles`.

## Model

| member | source | states |
|---|---|---|
| PathModel.GetPathParts | src/directory/utils.ts:65-79 | fails with "Path is empty" on `""` and "Incorrect path" when the path does not start with `/`; succeeds exactly on the other paths, with `"/"` first, a single part exactly for `/`, and no later part holding `/` |
| PathModel.GetPathFromParts | src/directory/utils.ts:87-101 | fails with its three messages on an empty list, on a list not starting with `"/"`, and when `minusParts` is at least the length; succeeds exactly otherwise, always with a path starting with `/`, and dropping all but the root gives `/` |
| PathModel.PathRoundTrip | src/directory/utils.ts:65-101 | every absolute path, including `/` and paths with a trailing `/`, is rebuilt exactly from its parts |
| PathModel.PartsRoundTrip | src/directory/utils.ts:65-101 | a part list of `"/"` followed by `/`-free segments (other than `["/", ""]`, which joins to the root) is what splitting its join gives back |
| PathModel.ParentPath | src/directory/utils.ts:87-101 | rebuilding a non-root path with one part dropped gives its parent directory, or `/` when the parent is the root |
| PathModel.Combine | src/directory/utils.ts:46-58 | never fails; returns `/` followed by the non-empty parts joined by `/`, where every part longer than one character has lost all its `/` and a leading `"/"` part is not repeated; the result starts with `/` |
| PathModel.CombinedPathParts | src/directory/utils.ts:46-58 | when the combined segments are `/`-free names, splitting the combined path gives back the root followed by exactly those segments |
| PathModel.CombineExample | src/directory/utils.ts:46-58 | `combine('/x/', 'y', '/z/') == '/x/y/z'` for any `/`-free names with `y` non-empty |
| PathModel.AssertPartsLength | src/directory/utils.ts:106-112 | accepts exactly the part lists of length at least 2, otherwise fails with "Can not create directory for root" |
| PathModel.AssertDirectoryName | src/directory/utils.ts:117-131 | accepts exactly the non-empty, `/`-free names not longer than the limit; otherwise fails with the first failing check's message, in source order |
| Planner.GetDirectoriesToCreate | src/directory/utils.ts:228-242 | the nested loops produce `DirectoriesToCreate`: each path's directory prefixes, shortest first, inserted in order into an insertion-ordered set |
| Planner.PlanNoDuplicates | src/directory/utils.ts:228-242 | the plan has no duplicates |
| Planner.PlanIsNeededDirectories | src/directory/utils.ts:228-242 | a directory is planned if and only if it is `/d1/…/di` for some input path `d1/…/dk/f` and some `1 <= i <= k` |
| Planner.PlanEntriesAbsolute | src/directory/utils.ts:228-242 | every planned directory starts with `/` |
| Planner.BareFileAddsNothing | src/directory/utils.ts:233-234 | a path without `/` adds nothing to the plan |
| Planner.PathDirectoriesParents | src/directory/utils.ts:233-238 | the parent of each prefix a path contributes is the previous prefix, or the root for the first |
| Planner.PlanParentsFirst | src/directory/utils.ts:232-239 | the parent of every planned directory is the root or an earlier entry of the plan |
| Planner.FileParentPlanned | src/directory/utils.ts:228-242 | the parent directory of every input path, taken under the root, is the root or planned |
| Planner.SinglePathPlan | src/directory/utils.ts:228-242 | the plan for one path is that path's directory prefixes, shortest first |
| Planner.TwoLevelPath | src/directory/utils.ts:228-242 | `d1/d2/name` plans exactly `["/d1", "/d1/d2"]` |
| Planner.LeadingSlashPath | src/directory/utils.ts:228-242 | `/d1/d2/name` plans exactly `["/", "//d1", "//d1/d2"]` |
| FileInfos.BrowserFilesToFileInfoList | src/directory/utils.ts:247-272 | an empty selection gives `[]`; fails with the base-path message exactly when the first file's path has no `/`; otherwise gives one browser-tagged entry per file, in order, with an empty full path, the file's path as `relativePathWithBase`, the file itself, and `relativePath` cut by the first file's base-name length plus one |
| FileInfos.BrowserPathsKeepBase | src/directory/utils.ts:261-263 | for a file under the first file's base folder, `relativePathWithBase` is the base name, `/`, and `relativePath` |
| FileInfos.FilterDotFiles | src/directory/utils.ts:322-328 | keeps exactly the files whose base name is empty or does not start with `.`, as an order-preserving subsequence holding every copy of a kept file |
| FileInfos.FilterDotFilesIdempotent | src/directory/utils.ts:322-328 | filtering dot files twice is filtering once |
| FileInfos.FilterBrowserRecursiveFiles | src/directory/utils.ts:333-335 | keeps exactly the files whose relative path has no `/`, as an order-preserving subsequence holding every copy of a kept file |
| FileInfos.FilterBrowserRecursiveFilesIdempotent | src/directory/utils.ts:333-335 | filtering nested files twice is filtering once |
| FileInfos.GetUploadPath | src/directory/utils.ts:351-353 | the upload path is `/` followed by `relativePathWithBase` when the directory name is included, and by `relativePath` otherwise |
| FileInfos.UploadPathParts | src/directory/utils.ts:351-353 | the upload path is absolute, and its parts are the root followed by the segments of the chosen relative path |
| DirectoryUpload.MergeOptions | src/directory/directory.ts:115 | every option the caller gives overrides the default, and every option left out takes the default |
| DirectoryUpload.EnumeratedFiles | src/directory/directory.ts:117-131 | a path source outside Node.js and a browser list inside Node.js are refused; otherwise the files are the Node.js listing (with the recursion option) or the converted browser list, and the step fails exactly when that does, passing on the listing's error message or the conversion's base-path message |
| DirectoryUpload.PreparedFiles | src/directory/directory.ts:124-139 | passes enumeration errors through; otherwise gives an order-preserving subsequence of the enumerated files that keeps an enumerated file exactly when it passes the active filters (not a dot file when those are excluded, and not nested for a non-recursive browser source), every copy of a kept file and no copy of a dropped one |
| DirectoryUpload.PrepareFiles | src/directory/directory.ts:117-139 | the listing, conversion and filtering steps compute `PreparedFiles` |
| DirectoryUpload.RemotePaths | src/directory/directory.ts:140-142 | the planner's input for each file is that file's upload path without its leading `/` |
| DirectoryUpload.CreatePhaseCalls | src/directory/directory.ts:143-158 | the creation loop issues one call per planned directory, in plan order, and all of them unless it stopped |
| DirectoryUpload.CreatePhaseStops | src/directory/directory.ts:143-158 | the creation loop stops only after a call whose reply was rejected with a message not containing "already listed in the parent directory list", and reports that message; the reply to every earlier call was a success or an "already listed" rejection |
| DirectoryUpload.CreateDirectories | src/directory/directory.ts:143-159 | the creation loop computes `CreatePhase` |
| DirectoryUpload.FileBytes | src/directory/directory.ts:161-171 | a file fails as "not a Node.js file" exactly for a non-Node.js entry of a path source, and as "not correct" exactly for a browser-list entry that is not a browser file with its `File`; the only other failure is a read error |
| DirectoryUpload.FileBytesReads | src/directory/directory.ts:164-168 | a Node.js entry of a path source gives exactly what reading its full path gives, and a browser file of a browser list exactly what reading its `File` gives: the bytes, or the reader's message as a read error |
| DirectoryUpload.ReadFile | src/directory/directory.ts:161-171 | reading a file computes `FileBytes` |
| DirectoryUpload.SendFileCalls | src/directory/directory.ts:161-175 | one turn of the upload loop issues at most one call, which sends the file's content to its upload path; it succeeds exactly when the file is read and the upload is accepted; a read failure issues no call and reports that error, a readable file always issues its call, and a rejected upload reports the rejection's message |
| DirectoryUpload.UploadFile | src/directory/directory.ts:161-175 | one turn of the upload loop computes `SendFile` |
| DirectoryUpload.UploadPhaseCalls | src/directory/directory.ts:161-175 | the upload loop sends the files in list order, each to its upload path with its content, and all of them unless it stopped |
| DirectoryUpload.UploadPhaseStops | src/directory/directory.ts:161-175 | the upload loop stops only with a file error: either the `FileBytes` error of the file right after the last one it sent, or an upload failure carrying the message of the rejected reply to its last call |
| DirectoryUpload.UploadPhaseAccepted | src/directory/directory.ts:161-175 | every upload the loop issued before the one that failed (all of them when it did not fail on an upload) was accepted |
| DirectoryUpload.UploadPhaseCompletes | src/directory/directory.ts:161-175 | when every file reads and every upload is accepted, the upload loop does not fail |
| DirectoryUpload.UploadFiles | src/directory/directory.ts:161-175 | the upload loop computes `UploadPhase` |
| DirectoryUpload.UploadRun | src/directory/directory.ts:111-139 | a rejected account or pod check, a path source outside Node.js (line 120), and a browser list inside Node.js (line 129, refused by `assertBrowserFilesWithPath` at src/directory/utils.ts:299-301) each fail before any directory creation or upload; so does a failed listing or browser conversion, with the error of the preparation step |
| DirectoryUpload.Upload | src/directory/directory.ts:111-176 | the whole upload computes `UploadRun`: its trace of directory creations and uploads, and its outcome |
| DirectoryUpload.GuardsIssueNoCalls | src/directory/directory.ts:111-139 | a failure of the account check, the environment guards, the listing or the browser conversion leaves the trace empty |
| DirectoryUpload.RemoteStageErrors | src/directory/directory.ts:143-175 | once the files are prepared, the upload fails only with a creation error or a file error |
| DirectoryUpload.CreationsPrecedeUploads | src/directory/directory.ts:143-175 | no directory is created after the first file upload |
| DirectoryUpload.CompletedRun | src/directory/directory.ts:140-175 | a successful run creates exactly the planned directories, in plan order, and then sends every file in order, each to its upload path |
| DirectoryUpload.CreationFailureStops | src/directory/directory.ts:143-158 | a creation failure ends the run right after the rejected call: the trace is a prefix of the plan's creations, no file is uploaded, the last reply was rejected with the reported message, and every earlier creation was a success or "already listed" |
| DirectoryUpload.CreatePhaseFromStart | src/directory/directory.ts:143-158 | a creation loop started with no earlier calls stops only on a rejection other than "already listed", after tolerated replies to every earlier call |
| DirectoryUpload.AlreadyListedCountsAsCreated | src/directory/directory.ts:153-157 | a directory service that answers only success or "already listed" gives the same run as one that always succeeds |
| DirectoryUpload.UploadedFilesHaveParents | src/directory/directory.ts:140-175 | in a successful run, every file is uploaded into the root or into a directory created earlier in the trace |
| DirectoryUpload.NothingToUpload | src/directory/directory.ts:140-175 | an empty prepared file list issues no directory creation or upload and ends normally |
| DirectoryUpload.EmptySelection | src/directory/directory.ts:111-175 | with the account check passed, an empty browser selection outside Node.js, and a path whose listing is empty inside Node.js, each end normally with no directory creation or upload |
| DirectoryUpload.RunCompletes | src/directory/directory.ts:140-175 | when every creation is tolerated, every file reads and every upload is accepted, the run ends normally |

## Left out

- `getNodePaths`, `getNodeFileInfoList`, `getNodeFileContent` and `readBrowserFileAsBytes` walk and read the file system or a browser `File`. They are the collaborators `listNodeFiles`, `readNodeFile` and `readBrowserFile`, and each returns a listing, the bytes, or an error message.
- `assertAccount`, `assertPodName` and `getExtendedPodsListByAccountData` are one collaborator reply, `podAccess`. Pod wallets, passwords, postage batches and encryption are not modelled.
- The remote `createDirectory` and `uploadData` are collaborators. Each sees the calls issued before it, so its answer may depend on earlier effects. The pod name, request options and `uploadOptions` passed through to them are not modelled.
- The collaborators are deterministic functions of their arguments. A real service could answer the same request differently at different times.
- Async scheduling and the network: the model is sequential.
- `assertBrowserFilesWithPath` is modelled only by its environment check, which refuses a browser list inside Node.js. Its `instanceof` and `webkitRelativePath` checks are runtime type guards on untyped values. The model's input is typed, so they cannot fail.
- `assertString` in `browserFilesToFileInfoList` and `assertDirectoryName` is a runtime type guard. It cannot fail on typed input.
- `browserFileListToFileInfoList`, `BrowserFileInfo`, `NodeFileInfo`, `assertNodeFileInfo` and `isBrowserFileInfo` are not part of this model.
  - `browserFilesToFileInfoList` and the tagged `FileInfo` stand in for the first three.
  - `assertNodeFileInfo` is taken as "tagged as a Node.js file".
  - `isBrowserFileInfo` is taken as "tagged as a browser file and carrying its `File`".
- `replaceAll` from `src/utils/string.ts` is not part of this model. `combine` calls it as `replaceAll(part, '/', '')`, which is taken as deleting every `/` of the part (`Strings.RemoveAll`).
- `getBaseName` is not part of this model. It is taken as the text after the last `/`.
- `DEFAULT_UPLOAD_DIRECTORY_OPTIONS` is not part of this model. It is taken as recursive, keeping dot files, and including the directory name.
- `MAX_DIRECTORY_NAME_LENGTH` is not part of this model. It is the parameter `maxLength` of `AssertDirectoryName`.
- DirectoryUpload.MergeOptions: an option that the caller sets explicitly to `undefined` is modelled as left out, so it takes the default. The object spread would instead override the default with `undefined`.
- PathModel.GetPathFromParts: `minusParts` is a natural number. A negative count is not modelled.
- Thrown errors are `UploadError` values. The model keeps the messages the code rethrows or builds from input: the account reply, the listing error, the browser base-path message, the creation failure, the read error and the upload error. The errors with fixed texts are tags: `NodeOnlySource` and `BrowserOnlySource` for the two environment checks, `NotNodeFile` for the message of `assertNodeFileInfo`, and `IncorrectFile` for "Directory uploading: one of the files is not correct".
- Strings are sequences of characters. JavaScript's UTF-16 code units and surrogate pairs are not modelled.
- `Directory.read`, `Directory.create`, `Directory.delete`, `splitPath` and the raw-metadata validators are outside the modelled core.

## Notes

- For a path with a leading `/`, the code plans the directories `/`, `//d1`, `//d1/d2`, … and does not plan `/d1`, `/d1/d2`. This happens because `split` yields an empty first segment. The model follows the code, and `Planner.LeadingSlashPath` states it. A reading in which only `/d1` and `/d1/d2` are planned does not match the code.
