/**
 * `Directory.upload`: merges the options, guards the environment, enumerates and filters the
 * files, creates the planned directories one by one (an "already listed" refusal counts as
 * created) and then uploads every file to its remote path. Every remote effect is recorded in a
 * trace of calls; the remote services, the account checks and the file reads are collaborators
 * passed in as functions.
 */
module DirectoryUpload {
  import opened Results
  import opened Strings
  import opened Seqs
  import opened PathModel
  import opened FileInfos
  import opened Planner

  /** The options `upload` acts on once the defaults are merged in. */
  datatype UploadOptions = UploadOptions(
    isRecursive: bool,
    excludeDotFiles: bool,
    isIncludeDirectoryName: bool)

  /** The options a caller passes; a field the caller leaves out is `None`. */
  datatype UploadOptionsOverride = UploadOptionsOverride(
    isRecursive: Option<bool>,
    excludeDotFiles: Option<bool>,
    isIncludeDirectoryName: Option<bool>)

  /** The default options: recursive, dot files kept, the root folder's name kept in remote paths. */
  const DefaultUploadOptions := UploadOptions(true, false, true)

  function Override(given: Option<bool>, default: bool): bool
  {
    match given
    case Some(value) => value
    case None => default
  }

  /** `{ ...defaults, ...given }`: a field the caller gives wins, a field left out takes the default. */
  function MergeOptions(defaults: UploadOptions, given: UploadOptionsOverride): (r: UploadOptions)
    ensures given.isRecursive.Some? ==> r.isRecursive == given.isRecursive.value
    ensures given.isRecursive.None? ==> r.isRecursive == defaults.isRecursive
    ensures given.excludeDotFiles.Some? ==> r.excludeDotFiles == given.excludeDotFiles.value
    ensures given.excludeDotFiles.None? ==> r.excludeDotFiles == defaults.excludeDotFiles
    ensures given.isIncludeDirectoryName.Some? ==> r.isIncludeDirectoryName == given.isIncludeDirectoryName.value
    ensures given.isIncludeDirectoryName.None? ==> r.isIncludeDirectoryName == defaults.isIncludeDirectoryName
  {
    UploadOptions(
      Override(given.isRecursive, defaults.isRecursive),
      Override(given.excludeDotFiles, defaults.excludeDotFiles),
      Override(given.isIncludeDirectoryName, defaults.isIncludeDirectoryName))
  }

  /** Where the files come from: a Node.js directory path or a browser file selection. */
  datatype FilesSource = NodePath(path: string) | BrowserFiles(files: seq<BrowserFile>)

  /** A remote service's answer: done, or an error with its message. */
  datatype Reply = Succeeded | Rejected(message: string)

  /** One call of the upload to the directory or data service; the pod lookup is not one. */
  datatype Call = CreateDirectory(path: string) | UploadData(path: string, bytes: seq<bv8>)

  /** Why an upload stopped. */
  datatype UploadError =
    | AccountRejected(message: string)      // the account, pod-name or pod-lookup check threw
    | NodeOnlySource                        // a path source outside Node.js
    | BrowserOnlySource                     // a browser file list inside Node.js
    | ListingFailed(message: string)        // the Node.js directory listing threw
    | BrowserListRejected(message: string)  // the browser file list has no base-path part
    | DirectoryCreationFailed(message: string)
    | NotNodeFile                           // a listed file is not a Node.js file
    | IncorrectFile                         // "Directory uploading: one of the files is not correct"
    | ReadFailed(message: string)
    | UploadFailed(message: string)

  datatype UploadResult = Uploaded | Failed(error: UploadError)

  /**
   * The code `upload` calls but that is not part of this model. The two remote services see the
   * calls issued before theirs, so their answers may depend on earlier effects.
   */
  datatype Collaborators = Collaborators(
    podAccess: Reply,
    listNodeFiles: (string, bool) -> Result<seq<FileInfo>, string>,
    readNodeFile: string -> Result<seq<bv8>, string>,
    readBrowserFile: BrowserFile -> Result<seq<bv8>, string>,
    createDirectory: (seq<Call>, string) -> Reply,
    uploadData: (seq<Call>, string, seq<bv8>) -> Reply)

  /** The text of the remote error that means the directory exists already. */
  const AlreadyListedMessage := "already listed in the parent directory list"

  predicate AlreadyListed(message: string)
  {
    Includes(message, AlreadyListedMessage)
  }

  /** A creation reply the upload carries on after. */
  predicate Tolerated(reply: Reply)
  {
    reply.Succeeded? || AlreadyListed(reply.message)
  }

  /** The calls one phase issued and, when it stopped early, why. */
  datatype Phase<E> = Phase(issued: seq<Call>, failure: Option<E>)

  /**
   * The creation loop: one call per planned directory, in plan order, stopping at the first
   * reply that is neither a success nor "already listed".
   */
  function CreatePhase(history: seq<Call>, dirs: seq<string>, createDirectory: (seq<Call>, string) -> Reply)
    : Phase<string>
    decreases |dirs|
  {
    if dirs == [] then Phase([], None)
    else
      var call := CreateDirectory(dirs[0]);
      var reply := createDirectory(history, dirs[0]);
      if Tolerated(reply) then
        var rest := CreatePhase(history + [call], dirs[1..], createDirectory);
        Phase([call] + rest.issued, rest.failure)
      else Phase([call], Some(reply.message))
  }

  /**
   * The creation loop asks for the planned directories in plan order, and for all of them unless
   * it stopped early.
   */
  lemma {:induction false} CreatePhaseCalls(history: seq<Call>, dirs: seq<string>,
                                            createDirectory: (seq<Call>, string) -> Reply)
    ensures var p := CreatePhase(history, dirs, createDirectory);
      && |p.issued| <= |dirs|
      && (forall i :: 0 <= i < |p.issued| ==> p.issued[i] == CreateDirectory(dirs[i]))
      && (p.failure.None? ==> |p.issued| == |dirs|)
    decreases |dirs|
  {
    if dirs != [] {
      var call := CreateDirectory(dirs[0]);
      if Tolerated(createDirectory(history, dirs[0])) {
        var rest := CreatePhase(history + [call], dirs[1..], createDirectory);
        CreatePhaseCalls(history + [call], dirs[1..], createDirectory);
        var issued := [call] + rest.issued;
        assert forall i :: 1 <= i < |issued| ==> issued[i] == rest.issued[i - 1] && dirs[i] == dirs[1..][i - 1];
      }
    }
  }

  /**
   * The creation loop stops at the first refusal that is not "already listed": that refusal is
   * the answer to its last call, and every earlier answer was tolerated.
   */
  lemma CreatePhaseStops(history: seq<Call>, dirs: seq<string>, createDirectory: (seq<Call>, string) -> Reply)
    ensures var p := CreatePhase(history, dirs, createDirectory);
      p.failure.Some? ==>
        && 1 <= |p.issued| <= |dirs|
        && !AlreadyListed(p.failure.value)
        && createDirectory(history + p.issued[..|p.issued| - 1], dirs[|p.issued| - 1]) == Rejected(p.failure.value)
    ensures var p := CreatePhase(history, dirs, createDirectory);
      forall i :: 0 <= i < |p.issued| - (if p.failure.Some? then 1 else 0) && i < |dirs| ==>
        Tolerated(createDirectory(history + p.issued[..i], dirs[i]))
  {
    CreatePhaseLastRefused(history, dirs, createDirectory);
    CreatePhaseEarlierTolerated(history, dirs, createDirectory);
  }

  /** When the creation loop stops, its last call was refused with a message that is not "already listed". */
  lemma {:induction false} CreatePhaseLastRefused(history: seq<Call>, dirs: seq<string>,
                                                  createDirectory: (seq<Call>, string) -> Reply)
    ensures var p := CreatePhase(history, dirs, createDirectory);
      p.failure.Some? ==>
        && 1 <= |p.issued| <= |dirs|
        && !AlreadyListed(p.failure.value)
        && createDirectory(history + p.issued[..|p.issued| - 1], dirs[|p.issued| - 1]) == Rejected(p.failure.value)
    decreases |dirs|
  {
    if dirs != [] {
      var call := CreateDirectory(dirs[0]);
      if Tolerated(createDirectory(history, dirs[0])) {
        var rest := CreatePhase(history + [call], dirs[1..], createDirectory);
        CreatePhaseLastRefused(history + [call], dirs[1..], createDirectory);
        if rest.failure.Some? {
          var issued := [call] + rest.issued;
          assert issued[..|issued| - 1] == [call] + rest.issued[..|rest.issued| - 1];
          assert history + issued[..|issued| - 1] == history + [call] + rest.issued[..|rest.issued| - 1];
          assert dirs[|issued| - 1] == dirs[1..][|rest.issued| - 1];
        }
      } else {
        assert history + [call][..0] == history;
      }
    }
  }

  /** Every answer of the creation loop before the stopping one was tolerated. */
  lemma {:induction false} CreatePhaseEarlierTolerated(history: seq<Call>, dirs: seq<string>,
                                                       createDirectory: (seq<Call>, string) -> Reply)
    ensures var p := CreatePhase(history, dirs, createDirectory);
      forall i :: 0 <= i < |p.issued| - (if p.failure.Some? then 1 else 0) && i < |dirs| ==>
        Tolerated(createDirectory(history + p.issued[..i], dirs[i]))
    decreases |dirs|
  {
    if dirs != [] {
      var call := CreateDirectory(dirs[0]);
      if Tolerated(createDirectory(history, dirs[0])) {
        var rest := CreatePhase(history + [call], dirs[1..], createDirectory);
        CreatePhaseEarlierTolerated(history + [call], dirs[1..], createDirectory);
        CreatePhaseToleratedStep(history, call, rest.issued, dirs, rest.failure.Some?, createDirectory);
      }
    }
  }

  /** The step of `CreatePhaseEarlierTolerated`: a tolerated first answer followed by the tolerated later ones. */
  lemma CreatePhaseToleratedStep(history: seq<Call>, call: Call, rest: seq<Call>, dirs: seq<string>, stopped: bool,
                                 createDirectory: (seq<Call>, string) -> Reply)
    requires dirs != [] && Tolerated(createDirectory(history, dirs[0]))
    requires forall i :: 0 <= i < |rest| - (if stopped then 1 else 0) && i < |dirs[1..]| ==>
      Tolerated(createDirectory(history + [call] + rest[..i], dirs[1..][i]))
    ensures forall i :: 0 <= i < |[call] + rest| - (if stopped then 1 else 0) && i < |dirs| ==>
      Tolerated(createDirectory(history + ([call] + rest)[..i], dirs[i]))
  {
    forall i | 0 <= i < |[call] + rest| - (if stopped then 1 else 0) && i < |dirs|
      ensures Tolerated(createDirectory(history + ([call] + rest)[..i], dirs[i]))
    {
      if i == 0 {
        assert history + ([call] + rest)[..0] == history;
      } else {
        assert history + ([call] + rest)[..i] == history + [call] + rest[..i - 1];
        assert dirs[i] == dirs[1..][i - 1];
      }
    }
  }

  /** The content the upload loop reads for a file, or why it cannot. */
  function FileBytes(file: FileInfo, isNodePath: bool, c: Collaborators): (r: Result<seq<bv8>, UploadError>)
    ensures r.Err? ==> r.error.NotNodeFile? || r.error.IncorrectFile? || r.error.ReadFailed?
    ensures r.Err? && r.error.NotNodeFile? <==> isNodePath && file.fileSystemType != Node
    ensures r.Err? && r.error.IncorrectFile? <==>
      !isNodePath && (file.fileSystemType != Browser || file.browserFile.None?)
  {
    if isNodePath then
      if file.fileSystemType != Node then Err(NotNodeFile)
      else
        match c.readNodeFile(file.fullPath)
        case Ok(bytes) => Ok(bytes)
        case Err(message) => Err(ReadFailed(message))
    else if file.fileSystemType == Browser && file.browserFile.Some? then
      match c.readBrowserFile(file.browserFile.value)
      case Ok(bytes) => Ok(bytes)
      case Err(message) => Err(ReadFailed(message))
    else Err(IncorrectFile)
  }

  /**
   * The content of a readable file is what its reader returns, and a read error carries the
   * reader's message.
   */
  lemma FileBytesReads(file: FileInfo, isNodePath: bool, c: Collaborators)
    ensures var r := FileBytes(file, isNodePath, c);
      isNodePath && file.fileSystemType == Node ==>
        var read := c.readNodeFile(file.fullPath);
        && (r.Ok? <==> read.Ok?)
        && (r.Ok? ==> r.value == read.value)
        && (r.Err? ==> r.error == ReadFailed(read.error))
    ensures var r := FileBytes(file, isNodePath, c);
      !isNodePath && file.fileSystemType == Browser && file.browserFile.Some? ==>
        var read := c.readBrowserFile(file.browserFile.value);
        && (r.Ok? <==> read.Ok?)
        && (r.Ok? ==> r.value == read.value)
        && (r.Err? ==> r.error == ReadFailed(read.error))
  {
  }

  /** `call` sends the content of `file` to the file's upload path. */
  predicate Sends(call: Call, file: FileInfo, isNodePath: bool, isIncludeDirectoryName: bool, c: Collaborators)
  {
    && FileBytes(file, isNodePath, c).Ok?
    && call == UploadData(GetUploadPath(file, isIncludeDirectoryName), FileBytes(file, isNodePath, c).value)
  }

  /** The errors the upload loop can stop with. */
  predicate IsFileError(e: UploadError)
  {
    e.NotNodeFile? || e.IncorrectFile? || e.ReadFailed? || e.UploadFailed?
  }

  /**
   * One turn of the upload loop: read the file, then send it to its upload path. A read failure
   * issues no call; a refused upload issues its call and stops.
   */
  function SendFile(history: seq<Call>, file: FileInfo, isNodePath: bool, isIncludeDirectoryName: bool,
                    c: Collaborators): Phase<UploadError>
  {
    match FileBytes(file, isNodePath, c)
    case Err(e) => Phase([], Some(e))
    case Ok(bytes) =>
      var call := UploadData(GetUploadPath(file, isIncludeDirectoryName), bytes);
      var reply := c.uploadData(history, call.path, bytes);
      Phase([call], if reply.Rejected? then Some(UploadFailed(reply.message)) else None)
  }

  /**
   * One turn of the upload loop issues at most one call, which sends the file's content to its
   * upload path; it issues one unless it stops, and it stops only with a file error.
   */
  lemma SendFileCalls(history: seq<Call>, file: FileInfo, isNodePath: bool, isIncludeDirectoryName: bool,
                      c: Collaborators)
    ensures var p := SendFile(history, file, isNodePath, isIncludeDirectoryName, c);
      && |p.issued| <= 1
      && (p.issued != [] ==> Sends(p.issued[0], file, isNodePath, isIncludeDirectoryName, c))
      && (p.failure.None? ==> |p.issued| == 1)
      && (p.failure.Some? ==> IsFileError(p.failure.value))
    ensures var p := SendFile(history, file, isNodePath, isIncludeDirectoryName, c);
      var read := FileBytes(file, isNodePath, c);
      && (p.failure.None? <==>
            read.Ok? && c.uploadData(history, GetUploadPath(file, isIncludeDirectoryName), read.value).Succeeded?)
      && (read.Err? ==> p == Phase([], Some(read.error)))
      && (read.Ok? ==> |p.issued| == 1)
      && (read.Ok? && p.failure.Some? ==>
            p.failure.value == UploadFailed(c.uploadData(history, GetUploadPath(file, isIncludeDirectoryName), read.value).message))
  {
  }

  /** The upload loop: each file in order is read and sent; the first failure stops the loop. */
  function UploadPhase(history: seq<Call>, files: seq<FileInfo>, isNodePath: bool, isIncludeDirectoryName: bool,
                       c: Collaborators): Phase<UploadError>
    decreases |files|
  {
    if files == [] then Phase([], None)
    else
      var step := SendFile(history, files[0], isNodePath, isIncludeDirectoryName, c);
      if step.failure.Some? then step
      else
        var rest := UploadPhase(history + step.issued, files[1..], isNodePath, isIncludeDirectoryName, c);
        Phase(step.issued + rest.issued, rest.failure)
  }

  /**
   * The upload loop sends the files in order, each to its upload path with its content, and all
   * of them unless it stopped early.
   */
  lemma {:induction false} UploadPhaseCalls(history: seq<Call>, files: seq<FileInfo>, isNodePath: bool,
                                            isIncludeDirectoryName: bool, c: Collaborators)
    ensures var p := UploadPhase(history, files, isNodePath, isIncludeDirectoryName, c);
      && |p.issued| <= |files|
      && (forall i :: 0 <= i < |p.issued| ==> Sends(p.issued[i], files[i], isNodePath, isIncludeDirectoryName, c))
      && (p.failure.None? ==> |p.issued| == |files|)
    decreases |files|
  {
    if files != [] {
      var step := SendFile(history, files[0], isNodePath, isIncludeDirectoryName, c);
      SendFileCalls(history, files[0], isNodePath, isIncludeDirectoryName, c);
      if step.failure.None? {
        var rest := UploadPhase(history + step.issued, files[1..], isNodePath, isIncludeDirectoryName, c);
        UploadPhaseCalls(history + step.issued, files[1..], isNodePath, isIncludeDirectoryName, c);
        SendsInOrder(step.issued, rest.issued, files, isNodePath, isIncludeDirectoryName, c);
      }
    }
  }

  /** The call for the first file followed by the calls for the others send the files in order. */
  lemma SendsInOrder(first: seq<Call>, others: seq<Call>, files: seq<FileInfo>, isNodePath: bool,
                     isIncludeDirectoryName: bool, c: Collaborators)
    requires |first| == 1 && files != [] && |others| < |files|
    requires Sends(first[0], files[0], isNodePath, isIncludeDirectoryName, c)
    requires forall i :: 0 <= i < |others| ==> Sends(others[i], files[1..][i], isNodePath, isIncludeDirectoryName, c)
    ensures forall i :: 0 <= i < |first + others| ==>
      Sends((first + others)[i], files[i], isNodePath, isIncludeDirectoryName, c)
  {
    forall i | 0 <= i < |first + others|
      ensures Sends((first + others)[i], files[i], isNodePath, isIncludeDirectoryName, c)
    {
      if i > 0 {
        assert (first + others)[i] == others[i - 1] && files[i] == files[1..][i - 1];
      }
    }
  }

  /**
   * The upload loop stops early only with a file error: the read error of the first file it did
   * not send, or the refusal of its last call.
   */
  lemma UploadPhaseStops(history: seq<Call>, files: seq<FileInfo>, isNodePath: bool,
                         isIncludeDirectoryName: bool, c: Collaborators)
    ensures var p := UploadPhase(history, files, isNodePath, isIncludeDirectoryName, c);
      p.failure.Some? ==> IsFileError(p.failure.value)
    ensures var p := UploadPhase(history, files, isNodePath, isIncludeDirectoryName, c);
      p.failure.Some? ==> StopCause(history, p.issued, files, p.failure.value, isNodePath, c)
  {
    UploadPhaseStopCause(history, files, isNodePath, isIncludeDirectoryName, c);
  }

  /**
   * Why the upload loop stopped after issuing `issued`: the next file could not be read, or the
   * last call was refused with the reported message.
   */
  predicate StopCause(history: seq<Call>, issued: seq<Call>, files: seq<FileInfo>, e: UploadError,
                      isNodePath: bool, c: Collaborators)
  {
    var n := |issued|;
    || (n < |files| && FileBytes(files[n], isNodePath, c).Err? && e == FileBytes(files[n], isNodePath, c).error)
    || (1 <= n <= |files| && issued[n - 1].UploadData? && e.UploadFailed?
        && c.uploadData(history + issued[..n - 1], issued[n - 1].path, issued[n - 1].bytes) == Rejected(e.message))
  }

  /** The induction behind `UploadPhaseStops`. */
  lemma {:induction false} UploadPhaseStopCause(history: seq<Call>, files: seq<FileInfo>, isNodePath: bool,
                                                isIncludeDirectoryName: bool, c: Collaborators)
    ensures var p := UploadPhase(history, files, isNodePath, isIncludeDirectoryName, c);
      p.failure.Some? ==> StopCause(history, p.issued, files, p.failure.value, isNodePath, c)
    decreases |files|
  {
    if files != [] {
      var step := SendFile(history, files[0], isNodePath, isIncludeDirectoryName, c);
      SendFileCalls(history, files[0], isNodePath, isIncludeDirectoryName, c);
      if step.failure.None? {
        var rest := UploadPhase(history + step.issued, files[1..], isNodePath, isIncludeDirectoryName, c);
        UploadPhaseStopCause(history + step.issued, files[1..], isNodePath, isIncludeDirectoryName, c);
        if rest.failure.Some? {
          UploadStopShift(history, step.issued, rest.issued, files, rest.failure.value, isNodePath, c);
        }
      } else {
        assert history + step.issued[..0] == history;
      }
    }
  }

  /** The step of `UploadPhaseStopCause`: a cause found after the first file is a cause for the whole loop. */
  lemma UploadStopShift(history: seq<Call>, first: seq<Call>, rest: seq<Call>, files: seq<FileInfo>, e: UploadError,
                        isNodePath: bool, c: Collaborators)
    requires |first| == 1 && files != []
    requires StopCause(history + first, rest, files[1..], e, isNodePath, c)
    ensures StopCause(history, first + rest, files, e, isNodePath, c)
  {
    var issued := first + rest;
    var n := |issued|;
    if n < |files| {
      assert files[n] == files[1..][|rest|];
    }
    if 1 <= |rest| {
      assert issued[n - 1] == rest[|rest| - 1];
      Associative(history, first, rest[..|rest| - 1]);
      assert issued[..n - 1] == first + rest[..|rest| - 1];
    }
  }

  /** The service accepted call `i` of `issued`, made after `history` and the calls before it. */
  predicate AcceptedAt(history: seq<Call>, issued: seq<Call>, i: nat, c: Collaborators)
    requires i < |issued|
  {
    issued[i].UploadData? ==> c.uploadData(history + issued[..i], issued[i].path, issued[i].bytes) == Succeeded
  }

  /** How many calls of an upload phase the service accepted: all but a refused last one. */
  function AcceptedCount(p: Phase<UploadError>): int
  {
    if p.failure.Some? && p.failure.value.UploadFailed? then |p.issued| - 1 else |p.issued|
  }

  /** Every call of the upload loop before the one that stopped it was accepted. */
  lemma {:induction false} UploadPhaseAccepted(history: seq<Call>, files: seq<FileInfo>, isNodePath: bool,
                                               isIncludeDirectoryName: bool, c: Collaborators)
    ensures var p := UploadPhase(history, files, isNodePath, isIncludeDirectoryName, c);
      AcceptedCount(p) <= |p.issued| &&
      forall i :: 0 <= i < AcceptedCount(p) ==> AcceptedAt(history, p.issued, i, c)
    decreases |files|
  {
    if files != [] {
      var step := SendFile(history, files[0], isNodePath, isIncludeDirectoryName, c);
      SendFileCalls(history, files[0], isNodePath, isIncludeDirectoryName, c);
      if step.failure.None? {
        var rest := UploadPhase(history + step.issued, files[1..], isNodePath, isIncludeDirectoryName, c);
        UploadPhaseAccepted(history + step.issued, files[1..], isNodePath, isIncludeDirectoryName, c);
        assert history + step.issued[..0] == history;
        AcceptedShift(history, step.issued, rest.issued, AcceptedCount(rest), c);
      }
    }
  }

  /** The step of `UploadPhaseAccepted`: an accepted first call followed by the accepted later calls. */
  lemma AcceptedShift(history: seq<Call>, first: seq<Call>, rest: seq<Call>, count: int, c: Collaborators)
    requires |first| == 1 && AcceptedAt(history, first, 0, c)
    requires count <= |rest|
    requires forall i :: 0 <= i < count ==> AcceptedAt(history + first, rest, i, c)
    ensures forall i :: 0 <= i < count + 1 ==> AcceptedAt(history, first + rest, i, c)
  {
    forall i | 0 <= i < count + 1
      ensures AcceptedAt(history, first + rest, i, c)
    {
      if i == 0 {
        assert (first + rest)[..0] == first[..0];
      } else {
        assert AcceptedAt(history + first, rest, i - 1, c);
        assert (first + rest)[i] == rest[i - 1];
        assert (first + rest)[..i] == first + rest[..i - 1];
        Associative(history, first, rest[..i - 1]);
      }
    }
  }

  /** When every file can be read and the service accepts every upload, the loop sends them all. */
  lemma UploadPhaseCompletes(history: seq<Call>, files: seq<FileInfo>, isNodePath: bool,
                             isIncludeDirectoryName: bool, c: Collaborators)
    requires forall k :: 0 <= k < |files| ==> FileBytes(files[k], isNodePath, c).Ok?
    requires forall h, path, bytes :: c.uploadData(h, path, bytes).Succeeded?
    ensures UploadPhase(history, files, isNodePath, isIncludeDirectoryName, c).failure.None?
  {
    UploadPhaseStops(history, files, isNodePath, isIncludeDirectoryName, c);
  }

  /** The files the upload starts from: the Node.js listing or the converted browser selection. */
  function EnumeratedFiles(isNodeEnv: bool, source: FilesSource, options: UploadOptions, c: Collaborators)
    : (r: Result<seq<FileInfo>, UploadError>)
    ensures source.NodePath? && !isNodeEnv ==> r == Err(NodeOnlySource)
    ensures source.BrowserFiles? && isNodeEnv ==> r == Err(BrowserOnlySource)
    ensures source.NodePath? && isNodeEnv ==>
      (r.Ok? <==> c.listNodeFiles(source.path, options.isRecursive).Ok?)
    ensures source.BrowserFiles? && !isNodeEnv ==>
      (r.Ok? <==> BrowserFilesToFileInfoList(source.files).Ok?)
    ensures r.Ok? && source.NodePath? ==> r.value == c.listNodeFiles(source.path, options.isRecursive).value
    ensures r.Ok? && source.BrowserFiles? ==> r.value == BrowserFilesToFileInfoList(source.files).value
    ensures source.NodePath? && isNodeEnv && c.listNodeFiles(source.path, options.isRecursive).Err? ==>
      r == Err(ListingFailed(c.listNodeFiles(source.path, options.isRecursive).error))
    ensures source.BrowserFiles? && !isNodeEnv && BrowserFilesToFileInfoList(source.files).Err? ==>
      r == Err(BrowserListRejected(BrowserFilesToFileInfoList(source.files).error))
  {
    match source
    case NodePath(path) =>
      if !isNodeEnv then Err(NodeOnlySource)
      else
        (match c.listNodeFiles(path, options.isRecursive)
         case Err(message) => Err(ListingFailed(message))
         case Ok(files) => Ok(files))
    case BrowserFiles(selection) =>
      if isNodeEnv then Err(BrowserOnlySource)
      else
        match BrowserFilesToFileInfoList(selection)
        case Err(message) => Err(BrowserListRejected(message))
        case Ok(files) => Ok(files)
  }

  /** Whether a file survives the filters the options switch on for this source. */
  predicate Kept(source: FilesSource, options: UploadOptions, file: FileInfo)
  {
    && (source.BrowserFiles? && !options.isRecursive ==> IsTopLevel(file))
    && (options.excludeDotFiles ==> !IsDotFile(file))
  }

  /**
   * The files the upload works on: the enumerated files, nested browser files dropped unless
   * recursive, dot files dropped when asked; the order of the enumeration is kept.
   */
  function PreparedFiles(isNodeEnv: bool, source: FilesSource, options: UploadOptions, c: Collaborators)
    : (r: Result<seq<FileInfo>, UploadError>)
    ensures EnumeratedFiles(isNodeEnv, source, options, c).Err? ==> r == EnumeratedFiles(isNodeEnv, source, options, c)
    ensures EnumeratedFiles(isNodeEnv, source, options, c).Ok? ==>
      r.Ok? && Subsequence(r.value, EnumeratedFiles(isNodeEnv, source, options, c).value)
    ensures r.Ok? && options.excludeDotFiles ==> forall i :: 0 <= i < |r.value| ==> !IsDotFile(r.value[i])
    ensures r.Ok? && source.BrowserFiles? && !options.isRecursive ==>
      forall i :: 0 <= i < |r.value| ==> '/' !in r.value[i].relativePath
    ensures EnumeratedFiles(isNodeEnv, source, options, c).Ok? ==>
      forall f :: f in EnumeratedFiles(isNodeEnv, source, options, c).value ==> (f in r.value <==> Kept(source, options, f))
    ensures EnumeratedFiles(isNodeEnv, source, options, c).Ok? ==>
      forall f :: multiset(r.value)[f] ==
        if Kept(source, options, f) then multiset(EnumeratedFiles(isNodeEnv, source, options, c).value)[f] else 0
  {
    match EnumeratedFiles(isNodeEnv, source, options, c)
    case Err(e) => Err(e)
    case Ok(all) =>
      var nested := if source.BrowserFiles? && !options.isRecursive then FilterBrowserRecursiveFiles(all) else all;
      var kept := if options.excludeDotFiles then FilterDotFiles(nested) else nested;
      SubsequenceReflexive(all);
      SubsequenceReflexive(nested);
      SubsequenceTransitive(kept, nested, all);
      FilterMembers(all, IsTopLevel);
      FilterMembers(nested, NotDotFile);
      Ok(kept)
  }

  /** The relative paths the planner works on. */
  function RemotePaths(files: seq<FileInfo>, isIncludeDirectoryName: bool): (paths: seq<string>)
    ensures |paths| == |files|
    ensures forall k :: 0 <= k < |files| ==> "/" + paths[k] == GetUploadPath(files[k], isIncludeDirectoryName)
  {
    seq(|files|, k requires 0 <= k < |files| => RemoteRelativePath(files[k], isIncludeDirectoryName))
  }

  /** The calls an upload issues and how it ends. */
  datatype Run = Run(trace: seq<Call>, result: UploadResult)

  /** The directories the upload plans for these files. */
  function Plan(files: seq<FileInfo>, options: UploadOptions): seq<string>
  {
    DirectoriesToCreate(RemotePaths(files, options.isIncludeDirectoryName))
  }

  /** What `upload` does once the files are prepared: create the planned directories, then send the files. */
  function RunFiles(files: seq<FileInfo>, options: UploadOptions, isNodePath: bool, c: Collaborators): Run
  {
    var created := CreatePhase([], Plan(files, options), c.createDirectory);
    if created.failure.Some? then Run(created.issued, Failed(DirectoryCreationFailed(created.failure.value)))
    else
      var uploaded := UploadPhase(created.issued, files, isNodePath, options.isIncludeDirectoryName, c);
      Run(created.issued + uploaded.issued, if uploaded.failure.Some? then Failed(uploaded.failure.value) else Uploaded)
  }

  /** What `upload` does, as a function of the environment, the source, the options and the collaborators. */
  function UploadRun(isNodeEnv: bool, source: FilesSource, given: UploadOptionsOverride, c: Collaborators): (r: Run)
    ensures c.podAccess.Rejected? ==> r == Run([], Failed(AccountRejected(c.podAccess.message)))
    ensures c.podAccess.Succeeded? && source.NodePath? && !isNodeEnv ==> r == Run([], Failed(NodeOnlySource))
    ensures c.podAccess.Succeeded? && source.BrowserFiles? && isNodeEnv ==> r == Run([], Failed(BrowserOnlySource))
    ensures var prepared := PreparedFiles(isNodeEnv, source, MergeOptions(DefaultUploadOptions, given), c);
      c.podAccess.Succeeded? && prepared.Err? ==> r == Run([], Failed(prepared.error))
  {
    if c.podAccess.Rejected? then Run([], Failed(AccountRejected(c.podAccess.message)))
    else
      var options := MergeOptions(DefaultUploadOptions, given);
      match PreparedFiles(isNodeEnv, source, options, c)
      case Err(e) => Run([], Failed(e))
      case Ok(files) => RunFiles(files, options, source.NodePath?, c)
  }

  /** The listing, conversion and filtering steps of `Directory.upload`. */
  method PrepareFiles(isNodeEnv: bool, source: FilesSource, options: UploadOptions, c: Collaborators)
    returns (r: Result<seq<FileInfo>, UploadError>)
    ensures r == PreparedFiles(isNodeEnv, source, options, c)
  {
    var isNodePath := source.NodePath?;
    if !isNodeEnv && isNodePath {
      return Err(NodeOnlySource);
    }
    var files: seq<FileInfo>;
    if isNodePath {
      var listed := c.listNodeFiles(source.path, options.isRecursive);
      if listed.Err? {
        return Err(ListingFailed(listed.error));
      }
      files := listed.value;
    } else {
      if isNodeEnv {
        return Err(BrowserOnlySource);
      }
      var converted := BrowserFilesToFileInfoList(source.files);
      if converted.Err? {
        return Err(BrowserListRejected(converted.error));
      }
      files := converted.value;
      if !options.isRecursive {
        files := FilterBrowserRecursiveFiles(files);
      }
    }
    if options.excludeDotFiles {
      files := FilterDotFiles(files);
    }
    r := Ok(files);
  }

  /** One turn of the creation loop, seen from the position `i` of the plan. */
  lemma CreatePhaseStep(history: seq<Call>, dirs: seq<string>, i: nat, createDirectory: (seq<Call>, string) -> Reply)
    requires i < |dirs|
    ensures var call := CreateDirectory(dirs[i]);
      var reply := createDirectory(history, dirs[i]);
      var rest := CreatePhase(history + [call], dirs[i + 1..], createDirectory);
      CreatePhase(history, dirs[i..], createDirectory)
      == if Tolerated(reply) then Phase([call] + rest.issued, rest.failure) else Phase([call], Some(reply.message))
  {
    assert dirs[i..][1..] == dirs[i + 1..];
  }

  /** The directory-creation loop of `Directory.upload`. */
  method CreateDirectories(directoriesToCreate: seq<string>, createDirectory: (seq<Call>, string) -> Reply)
    returns (created: seq<Call>, failure: Option<string>)
    ensures Phase(created, failure) == CreatePhase([], directoriesToCreate, createDirectory)
  {
    created := [];
    assert directoriesToCreate[0..] == directoriesToCreate;
    for i := 0 to |directoriesToCreate|
      invariant CreatePhase([], directoriesToCreate, createDirectory).issued
        == created + CreatePhase(created, directoriesToCreate[i..], createDirectory).issued
      invariant CreatePhase([], directoriesToCreate, createDirectory).failure
        == CreatePhase(created, directoriesToCreate[i..], createDirectory).failure
    {
      var directory := directoriesToCreate[i];
      var reply := createDirectory(created, directory);
      CreatePhaseStep(created, directoriesToCreate, i, createDirectory);
      if reply.Rejected? && !AlreadyListed(reply.message) {
        return created + [CreateDirectory(directory)], Some(reply.message);
      }
      created := created + [CreateDirectory(directory)];
    }
    failure := None;
  }

  /** The content the upload loop reads for one file: the branch on the file source and the file's kind. */
  method ReadFile(file: FileInfo, isNodePath: bool, c: Collaborators) returns (r: Result<seq<bv8>, UploadError>)
    ensures r == FileBytes(file, isNodePath, c)
  {
    if isNodePath {
      if file.fileSystemType != Node {
        return Err(NotNodeFile);
      }
      var read := c.readNodeFile(file.fullPath);
      if read.Err? {
        return Err(ReadFailed(read.error));
      }
      r := Ok(read.value);
    } else if file.fileSystemType == Browser && file.browserFile.Some? {
      var read := c.readBrowserFile(file.browserFile.value);
      if read.Err? {
        return Err(ReadFailed(read.error));
      }
      r := Ok(read.value);
    } else {
      r := Err(IncorrectFile);
    }
  }

  /** One turn of the upload loop of `Directory.upload`: read one file and send it. */
  method UploadFile(history: seq<Call>, file: FileInfo, isNodePath: bool, isIncludeDirectoryName: bool,
                    c: Collaborators)
    returns (issued: seq<Call>, failure: Option<UploadError>)
    ensures Phase(issued, failure) == SendFile(history, file, isNodePath, isIncludeDirectoryName, c)
  {
    var read := ReadFile(file, isNodePath, c);
    if read.Err? {
      return [], Some(read.error);
    }
    var bytes := read.value;
    var uploadPath := GetUploadPath(file, isIncludeDirectoryName);
    var reply := c.uploadData(history, uploadPath, bytes);
    issued := [UploadData(uploadPath, bytes)];
    failure := if reply.Rejected? then Some(UploadFailed(reply.message)) else None;
  }

  /**
   * The upload loop seen from the position `k` of the file list, after the calls `sent`: the
   * step for file `k` either ends the loop or hands over to the files after it.
   */
  lemma UploadPhaseStep(whole: Phase<UploadError>, history: seq<Call>, sent: seq<Call>, files: seq<FileInfo>, k: nat,
                        isNodePath: bool, isIncludeDirectoryName: bool, c: Collaborators,
                        issued: seq<Call>, stop: Option<UploadError>)
    requires k < |files|
    requires whole.issued == sent + UploadPhase(history, files[k..], isNodePath, isIncludeDirectoryName, c).issued
    requires whole.failure == UploadPhase(history, files[k..], isNodePath, isIncludeDirectoryName, c).failure
    requires Phase(issued, stop) == SendFile(history, files[k], isNodePath, isIncludeDirectoryName, c)
    ensures stop.Some? ==> whole == Phase(sent + issued, stop)
    ensures stop.None? ==>
      && whole.issued == (sent + issued)
         + UploadPhase(history + issued, files[k + 1..], isNodePath, isIncludeDirectoryName, c).issued
      && whole.failure == UploadPhase(history + issued, files[k + 1..], isNodePath, isIncludeDirectoryName, c).failure
  {
    assert files[k..][0] == files[k];
    assert files[k..][1..] == files[k + 1..];
    var rest := UploadPhase(history + issued, files[k + 1..], isNodePath, isIncludeDirectoryName, c);
    if stop.None? {
      assert sent + (issued + rest.issued) == (sent + issued) + rest.issued;
    }
  }

  /** The file-upload loop of `Directory.upload`, run after the calls in `created`. */
  method UploadFiles(created: seq<Call>, files: seq<FileInfo>, isNodePath: bool, isIncludeDirectoryName: bool,
                     c: Collaborators)
    returns (sent: seq<Call>, failure: Option<UploadError>)
    ensures Phase(sent, failure) == UploadPhase(created, files, isNodePath, isIncludeDirectoryName, c)
  {
    sent := [];
    var history := created;
    assert files[0..] == files;
    ghost var whole := UploadPhase(created, files, isNodePath, isIncludeDirectoryName, c);
    for k := 0 to |files|
      invariant history == created + sent
      invariant whole.issued == sent + UploadPhase(history, files[k..], isNodePath, isIncludeDirectoryName, c).issued
      invariant whole.failure == UploadPhase(history, files[k..], isNodePath, isIncludeDirectoryName, c).failure
    {
      var issued, stop := UploadFile(history, files[k], isNodePath, isIncludeDirectoryName, c);
      UploadPhaseStep(whole, history, sent, files, k, isNodePath, isIncludeDirectoryName, c, issued, stop);
      history := history + issued;
      sent := sent + issued;
      if stop.Some? {
        return sent, stop;
      }
    }
    assert files[|files|..] == [];
    failure := None;
  }

  /** `Directory.upload`: the calls it issues, in order, and how it ends. */
  method Upload(isNodeEnv: bool, source: FilesSource, given: UploadOptionsOverride, c: Collaborators)
    returns (trace: seq<Call>, result: UploadResult)
    ensures Run(trace, result) == UploadRun(isNodeEnv, source, given, c)
  {
    if c.podAccess.Rejected? {
      return [], Failed(AccountRejected(c.podAccess.message));
    }
    var options := MergeOptions(DefaultUploadOptions, given);
    var prepared := PrepareFiles(isNodeEnv, source, options, c);
    if prepared.Err? {
      return [], Failed(prepared.error);
    }
    var files := prepared.value;
    var directoriesToCreate := GetDirectoriesToCreate(RemotePaths(files, options.isIncludeDirectoryName));
    var created, creationFailure := CreateDirectories(directoriesToCreate, c.createDirectory);
    if creationFailure.Some? {
      return created, Failed(DirectoryCreationFailed(creationFailure.value));
    }
    var sent, uploadFailure := UploadFiles(created, files, source.NodePath?, options.isIncludeDirectoryName, c);
    trace := created + sent;
    result := if uploadFailure.Some? then Failed(uploadFailure.value) else Uploaded;
  }

  /** An always-succeeding directory service. */
  function AlwaysCreated(history: seq<Call>, path: string): Reply
  {
    Succeeded
  }

  /** The stages of an upload that come before any directory creation or upload. */
  predicate BeforeRemoteCalls(e: UploadError)
  {
    e.AccountRejected? || e.NodeOnlySource? || e.BrowserOnlySource? || e.ListingFailed? || e.BrowserListRejected?
  }

  /**
   * An upload stopped by the account check, the environment guards, the listing or the browser
   * file list issues no directory creation or upload.
   */
  lemma GuardsIssueNoCalls(isNodeEnv: bool, source: FilesSource, given: UploadOptionsOverride, c: Collaborators)
    ensures var run := UploadRun(isNodeEnv, source, given, c);
      run.result.Failed? && BeforeRemoteCalls(run.result.error) ==> run.trace == []
  {
    var options := MergeOptions(DefaultUploadOptions, given);
    if c.podAccess.Succeeded? && PreparedFiles(isNodeEnv, source, options, c).Ok? {
      RemoteStageErrors(PreparedFiles(isNodeEnv, source, options, c).value, options, source.NodePath?, c);
    }
  }

  /** Once the files are prepared, the upload can only fail creating a directory or with a file error. */
  lemma RemoteStageErrors(files: seq<FileInfo>, options: UploadOptions, isNodePath: bool, c: Collaborators)
    ensures var run := RunFiles(files, options, isNodePath, c);
      run.result.Failed? ==> run.result.error.DirectoryCreationFailed? || IsFileError(run.result.error)
  {
    var created := CreatePhase([], Plan(files, options), c.createDirectory);
    if created.failure.None? {
      UploadPhaseStops(created.issued, files, isNodePath, options.isIncludeDirectoryName, c);
    }
  }

  /** Every directory creation comes before every file upload. */
  lemma CreationsPrecedeUploads(isNodeEnv: bool, source: FilesSource, given: UploadOptionsOverride, c: Collaborators)
    ensures var trace := UploadRun(isNodeEnv, source, given, c).trace;
      forall i, j :: 0 <= i < j < |trace| && trace[i].UploadData? ==> trace[j].UploadData?
  {
    var options := MergeOptions(DefaultUploadOptions, given);
    if c.podAccess.Succeeded? && PreparedFiles(isNodeEnv, source, options, c).Ok? {
      var files := PreparedFiles(isNodeEnv, source, options, c).value;
      var created := CreatePhase([], Plan(files, options), c.createDirectory);
      CreatePhaseCalls([], Plan(files, options), c.createDirectory);
      if created.failure.None? {
        var uploaded := UploadPhase(created.issued, files, source.NodePath?, options.isIncludeDirectoryName, c);
        UploadPhaseCalls(created.issued, files, source.NodePath?, options.isIncludeDirectoryName, c);
        var trace := created.issued + uploaded.issued;
        forall i | 0 <= i < |trace| ensures trace[i].UploadData? <==> i >= |created.issued| {
          if i >= |created.issued| {
            assert trace[i] == uploaded.issued[i - |created.issued|];
          }
        }
      }
    }
  }

  /**
   * A completed upload created every planned directory, in plan order, and then sent every
   * prepared file, in order, to its upload path with its content.
   */
  lemma CompletedRun(files: seq<FileInfo>, options: UploadOptions, isNodePath: bool, c: Collaborators)
    ensures var run := RunFiles(files, options, isNodePath, c);
      var plan := Plan(files, options);
      run.result == Uploaded ==>
        && |run.trace| == |plan| + |files|
        && (forall i :: 0 <= i < |plan| ==> run.trace[i] == CreateDirectory(plan[i]))
        && (forall k :: 0 <= k < |files| ==>
              Sends(run.trace[|plan|..][k], files[k], isNodePath, options.isIncludeDirectoryName, c))
  {
    var plan := Plan(files, options);
    var created := CreatePhase([], plan, c.createDirectory);
    CreatePhaseCalls([], plan, c.createDirectory);
    if created.failure.None? {
      var uploaded := UploadPhase(created.issued, files, isNodePath, options.isIncludeDirectoryName, c);
      UploadPhaseCalls(created.issued, files, isNodePath, options.isIncludeDirectoryName, c);
      var trace := created.issued + uploaded.issued;
      assert trace[|plan|..] == uploaded.issued;
      assert forall i :: 0 <= i < |plan| ==> trace[i] == created.issued[i];
    }
  }

  /**
   * A failed directory creation stops the upload before any file is sent: the trace is the plan's
   * first creations, the last of which was refused with an error that does not say "already
   * listed".
   */
  lemma CreationFailureStops(files: seq<FileInfo>, options: UploadOptions, isNodePath: bool, c: Collaborators)
    ensures var run := RunFiles(files, options, isNodePath, c);
      var plan := Plan(files, options);
      run.result.Failed? && run.result.error.DirectoryCreationFailed? ==>
        && 1 <= |run.trace| <= |plan|
        && (forall i :: 0 <= i < |run.trace| ==> run.trace[i] == CreateDirectory(plan[i]))
        && !AlreadyListed(run.result.error.message)
        && c.createDirectory(run.trace[..|run.trace| - 1], plan[|run.trace| - 1]) == Rejected(run.result.error.message)
        && (forall i :: 0 <= i < |run.trace| - 1 ==> Tolerated(c.createDirectory(run.trace[..i], plan[i])))
  {
    var plan := Plan(files, options);
    var created := CreatePhase([], plan, c.createDirectory);
    CreatePhaseCalls([], plan, c.createDirectory);
    CreatePhaseFromStart(plan, c.createDirectory);
    if created.failure.None? {
      UploadPhaseStops(created.issued, files, isNodePath, options.isIncludeDirectoryName, c);
    }
  }

  /** `CreatePhaseStops` for a creation loop that starts with no earlier calls. */
  lemma CreatePhaseFromStart(dirs: seq<string>, createDirectory: (seq<Call>, string) -> Reply)
    ensures var p := CreatePhase([], dirs, createDirectory);
      p.failure.Some? ==>
        && 1 <= |p.issued| <= |dirs|
        && !AlreadyListed(p.failure.value)
        && createDirectory(p.issued[..|p.issued| - 1], dirs[|p.issued| - 1]) == Rejected(p.failure.value)
        && (forall i :: 0 <= i < |p.issued| - 1 ==> Tolerated(createDirectory(p.issued[..i], dirs[i])))
  {
    var p := CreatePhase([], dirs, createDirectory);
    CreatePhaseStops([], dirs, createDirectory);
    if p.failure.Some? {
      assert [] + p.issued[..|p.issued| - 1] == p.issued[..|p.issued| - 1];
      forall i | 0 <= i < |p.issued| - 1
        ensures Tolerated(createDirectory(p.issued[..i], dirs[i]))
      {
        assert [] + p.issued[..i] == p.issued[..i];
      }
    }
  }

  /**
   * When the directory service only succeeds or answers "already listed", every file can be read
   * and the upload service accepts every file, the upload completes.
   */
  lemma RunCompletes(files: seq<FileInfo>, options: UploadOptions, isNodePath: bool, c: Collaborators)
    requires forall h, d :: Tolerated(c.createDirectory(h, d))
    requires forall k :: 0 <= k < |files| ==> FileBytes(files[k], isNodePath, c).Ok?
    requires forall h, path, bytes :: c.uploadData(h, path, bytes).Succeeded?
    ensures RunFiles(files, options, isNodePath, c).result == Uploaded
  {
    var created := CreatePhase([], Plan(files, options), c.createDirectory);
    CreatePhaseStops([], Plan(files, options), c.createDirectory);
    UploadPhaseCompletes(created.issued, files, isNodePath, options.isIncludeDirectoryName, c);
  }

  /** With every creation reply tolerated, the creation loop runs as against an always-succeeding service. */
  lemma {:induction false} TolerantCreation(history: seq<Call>, dirs: seq<string>,
                                            createDirectory: (seq<Call>, string) -> Reply)
    requires forall h, d :: Tolerated(createDirectory(h, d))
    ensures CreatePhase(history, dirs, createDirectory) == CreatePhase(history, dirs, AlwaysCreated)
    decreases |dirs|
  {
    if dirs != [] {
      TolerantCreation(history + [CreateDirectory(dirs[0])], dirs[1..], createDirectory);
    }
  }

  /** The upload loop does not consult the directory service. */
  lemma {:induction false} UploadPhaseIgnoresCreation(history: seq<Call>, files: seq<FileInfo>, isNodePath: bool,
                                                      isIncludeDirectoryName: bool, c: Collaborators,
                                                      createDirectory: (seq<Call>, string) -> Reply)
    ensures UploadPhase(history, files, isNodePath, isIncludeDirectoryName, c)
      == UploadPhase(history, files, isNodePath, isIncludeDirectoryName, c.(createDirectory := createDirectory))
    decreases |files|
  {
    var c' := c.(createDirectory := createDirectory);
    if files != [] {
      assert FileBytes(files[0], isNodePath, c) == FileBytes(files[0], isNodePath, c');
      var step := SendFile(history, files[0], isNodePath, isIncludeDirectoryName, c);
      assert step == SendFile(history, files[0], isNodePath, isIncludeDirectoryName, c');
      UploadPhaseIgnoresCreation(history + step.issued, files[1..], isNodePath, isIncludeDirectoryName, c,
                                 createDirectory);
    }
  }

  /** Preparing the files does not consult the directory service. */
  lemma PreparedIgnoresCreation(isNodeEnv: bool, source: FilesSource, options: UploadOptions, c: Collaborators,
                                createDirectory: (seq<Call>, string) -> Reply)
    ensures PreparedFiles(isNodeEnv, source, options, c)
      == PreparedFiles(isNodeEnv, source, options, c.(createDirectory := createDirectory))
  {
    var c' := c.(createDirectory := createDirectory);
    assert c'.listNodeFiles == c.listNodeFiles;
    assert EnumeratedFiles(isNodeEnv, source, options, c) == EnumeratedFiles(isNodeEnv, source, options, c');
  }

  /** Once the files are prepared, tolerated creation replies change nothing in the run. */
  lemma RunFilesTolerant(files: seq<FileInfo>, options: UploadOptions, isNodePath: bool, c: Collaborators)
    requires forall h, d :: Tolerated(c.createDirectory(h, d))
    ensures RunFiles(files, options, isNodePath, c) == RunFiles(files, options, isNodePath, c.(createDirectory := AlwaysCreated))
  {
    var plan := Plan(files, options);
    TolerantCreation([], plan, c.createDirectory);
    var created := CreatePhase([], plan, c.createDirectory);
    UploadPhaseIgnoresCreation(created.issued, files, isNodePath, options.isIncludeDirectoryName, c, AlwaysCreated);
  }

  /**
   * A directory that is "already listed" counts as created: when the service only ever succeeds
   * or answers "already listed", the upload issues the same calls and ends the same way as
   * against a service that always succeeds.
   */
  lemma AlreadyListedCountsAsCreated(isNodeEnv: bool, source: FilesSource, given: UploadOptionsOverride,
                                     c: Collaborators)
    requires forall h, d :: Tolerated(c.createDirectory(h, d))
    ensures UploadRun(isNodeEnv, source, given, c)
      == UploadRun(isNodeEnv, source, given, c.(createDirectory := AlwaysCreated))
  {
    var options := MergeOptions(DefaultUploadOptions, given);
    PreparedIgnoresCreation(isNodeEnv, source, options, c, AlwaysCreated);
    if c.podAccess.Succeeded? && PreparedFiles(isNodeEnv, source, options, c).Ok? {
      RunFilesTolerant(PreparedFiles(isNodeEnv, source, options, c).value, options, source.NodePath?, c);
    }
  }

  /**
   * In a completed upload, the remote parent directory of every uploaded file is the root or a
   * directory created earlier in the trace.
   */
  lemma UploadedFilesHaveParents(files: seq<FileInfo>, options: UploadOptions, isNodePath: bool, c: Collaborators)
    ensures var run := RunFiles(files, options, isNodePath, c);
      run.result == Uploaded ==>
        forall j :: 0 <= j < |run.trace| && run.trace[j].UploadData? ==>
          ParentDirectory(run.trace[j].path) == "" ||
          CreateDirectory(ParentDirectory(run.trace[j].path)) in run.trace[..j]
  {
    var run := RunFiles(files, options, isNodePath, c);
    CompletedRun(files, options, isNodePath, c);
    if run.result == Uploaded {
      var paths := RemotePaths(files, options.isIncludeDirectoryName);
      var plan := DirectoriesToCreate(paths);
      forall j | 0 <= j < |run.trace| && run.trace[j].UploadData?
        ensures ParentDirectory(run.trace[j].path) == "" ||
          CreateDirectory(ParentDirectory(run.trace[j].path)) in run.trace[..j]
      {
        assert j >= |plan|;
        var k := j - |plan|;
        assert run.trace[j] == run.trace[|plan|..][k];
        assert Sends(run.trace[|plan|..][k], files[k], isNodePath, options.isIncludeDirectoryName, c);
        assert run.trace[j].path == "/" + paths[k];
        FileParentPlanned(paths, k);
        var parent := ParentDirectory("/" + paths[k]);
        if parent != "" {
          var i :| 0 <= i < |plan| && plan[i] == parent;
          assert run.trace[..j][i] == CreateDirectory(parent);
        }
      }
    }
  }

  /** An empty selection issues no call and ends normally. */
  lemma NothingToUpload(options: UploadOptions, isNodePath: bool, c: Collaborators)
    ensures RunFiles([], options, isNodePath, c) == Run([], Uploaded)
  {
    assert Plan([], options) == [];
  }

  /**
   * An upload of an empty selection issues no directory creation or upload and ends normally: a browser file list
   * with no file, or a Node.js folder whose listing is empty.
   */
  lemma EmptySelection(path: string, given: UploadOptionsOverride, c: Collaborators)
    requires c.podAccess.Succeeded?
    ensures UploadRun(false, BrowserFiles([]), given, c) == Run([], Uploaded)
    ensures c.listNodeFiles(path, MergeOptions(DefaultUploadOptions, given).isRecursive) == Ok([]) ==>
      UploadRun(true, NodePath(path), given, c) == Run([], Uploaded)
  {
    var options := MergeOptions(DefaultUploadOptions, given);
    assert PreparedFiles(false, BrowserFiles([]), options, c) == Ok([]) by {
      assert FilterBrowserRecursiveFiles([]) == [];
      assert FilterDotFiles([]) == [];
    }
    if c.listNodeFiles(path, options.isRecursive) == Ok([]) {
      assert PreparedFiles(true, NodePath(path), options, c) == Ok([]) by {
        assert FilterDotFiles([]) == [];
      }
    }
    NothingToUpload(options, false, c);
    NothingToUpload(options, true, c);
  }
}
