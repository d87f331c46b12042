/**
 * The uniform file description the directory upload works on, the browser file-list normaliser,
 * the two file filters and the remote upload path.
 */
module FileInfos {
  import opened Results
  import opened Strings
  import opened Seqs
  import opened PathModel

  /** Where a file was enumerated: the Node.js file system or a browser file selection. */
  datatype FileSystemType = Node | Browser

  /** A browser `File`: an opaque identity and the vendor-provided `webkitRelativePath`. */
  datatype BrowserFile = BrowserFile(handle: nat, webkitRelativePath: string)

  /**
   * One file to upload. `fullPath` is empty for a browser file; `relativePath` omits the upload
   * root's own name and `relativePathWithBase` includes it.
   */
  datatype FileInfo = FileInfo(
    fileSystemType: FileSystemType,
    fullPath: string,
    relativePath: string,
    relativePathWithBase: string,
    browserFile: Option<BrowserFile>)

  /** `s.substring(start)` for a non-negative start: empty once the start is past the end. */
  function Substring(s: string, start: nat): string
  {
    if start <= |s| then s[start..] else ""
  }

  /** The text before the first `/` (the whole string when there is none). */
  function FirstSegment(s: string): string
  {
    Split(s, '/')[0]
  }

  /** A string holding a `/` starts with its first segment followed by that `/`. */
  lemma FirstSegmentPrefix(s: string)
    requires '/' in s
    ensures StartsWith(s, FirstSegment(s) + "/")
  {
    var parts := Split(s, '/');
    JoinSplit(s, '/');
    assert |parts| >= 2;
    assert s == parts[0] + ['/'] + Join(parts[1..], '/');
    assert s[..|parts[0]| + 1] == parts[0] + "/";
  }

  /** The `FileInfo` the normaliser builds for one browser file, cutting `cut` leading characters. */
  function BrowserFileInfo(file: BrowserFile, cut: nat): FileInfo
  {
    FileInfo(Browser, "", Substring(file.webkitRelativePath, cut), file.webkitRelativePath, Some(file))
  }

  /** The message thrown for a first browser file whose path has no base-name part. */
  function MissingBaseMessage(path: string): string
  {
    "\"webkitRelativePath\" does not contain base path part: \"" + path + "\""
  }

  /**
   * `browserFilesToFileInfoList`: converts a browser file selection. The base-name length is taken
   * from the first file and used for every file.
   */
  function BrowserFilesToFileInfoList(files: seq<BrowserFile>): (r: Result<seq<FileInfo>, string>)
    ensures files == [] ==> r == Ok([])
    ensures r.Err? <==> files != [] && '/' !in files[0].webkitRelativePath
    ensures r.Err? ==> r == Err(MissingBaseMessage(files[0].webkitRelativePath))
    ensures r.Ok? ==> |r.value| == |files|
    ensures r.Ok? ==> forall i :: 0 <= i < |files| ==>
      && r.value[i].fileSystemType == Browser
      && r.value[i].fullPath == ""
      && r.value[i].relativePathWithBase == files[i].webkitRelativePath
      && r.value[i].browserFile == Some(files[i])
    ensures r.Ok? && files != [] ==> forall i :: 0 <= i < |files| ==>
      r.value[i].relativePath ==
        Substring(files[i].webkitRelativePath, |FirstSegment(files[0].webkitRelativePath)| + 1)
  {
    if |files| == 0 then Ok([])
    else
      var testFilePath := files[0].webkitRelativePath;
      var parts := Split(testFilePath, '/');
      if |parts| < 2 then
        Err(MissingBaseMessage(testFilePath))
      else
        Ok(seq(|files|, i requires 0 <= i < |files| => BrowserFileInfo(files[i], |parts[0]| + 1)))
  }

  /**
   * Every normalised file whose path starts with the first file's base name and a `/` has
   * `relativePathWithBase == base + "/" + relativePath`; the first file always does.
   */
  lemma BrowserPathsKeepBase(files: seq<BrowserFile>, i: nat)
    requires BrowserFilesToFileInfoList(files).Ok? && i < |files|
    ensures var base := FirstSegment(files[0].webkitRelativePath);
      var info := BrowserFilesToFileInfoList(files).value[i];
      (i == 0 || StartsWith(files[i].webkitRelativePath, base + "/")) ==>
        info.relativePathWithBase == base + "/" + info.relativePath
  {
    var base := FirstSegment(files[0].webkitRelativePath);
    FirstSegmentPrefix(files[0].webkitRelativePath);
    var w := files[i].webkitRelativePath;
    if i == 0 || StartsWith(w, base + "/") {
      assert StartsWith(w, base + "/");
      assert w == w[..|base| + 1] + w[|base| + 1..];
    }
  }

  /**
   * The final `/`-separated segment of a path: the file's own name. (The source delegates this to
   * `getBaseName`, which is not part of this model; this is the behaviour assumed of it.)
   */
  function BaseName(path: string): string
  {
    var parts := Split(path, '/');
    parts[|parts| - 1]
  }

  /** A dot file: its base name is non-empty and starts with `.`. */
  predicate IsDotFile(file: FileInfo)
  {
    var name := BaseName(file.relativePath);
    name != "" && name[0] == '.'
  }

  predicate NotDotFile(file: FileInfo)
  {
    !IsDotFile(file)
  }

  /** `filterDotFiles`: drops dot files, keeping the others in order. */
  function FilterDotFiles(files: seq<FileInfo>): (r: seq<FileInfo>)
    ensures forall i :: 0 <= i < |r| ==> !IsDotFile(r[i])
    ensures forall i :: 0 <= i < |files| ==> (files[i] in r <==> !IsDotFile(files[i]))
    ensures Subsequence(r, files)
    ensures forall x :: multiset(r)[x] == if !IsDotFile(x) then multiset(files)[x] else 0
  {
    FilterCounts(files, NotDotFile);
    Filter(files, NotDotFile)
  }

  /** A file directly inside the upload root: its relative path holds no `/`. */
  predicate IsTopLevel(file: FileInfo)
  {
    '/' !in file.relativePath
  }

  /** `filterBrowserRecursiveFiles`: keeps only the files directly inside the upload root, in order. */
  function FilterBrowserRecursiveFiles(files: seq<FileInfo>): (r: seq<FileInfo>)
    ensures forall i :: 0 <= i < |r| ==> '/' !in r[i].relativePath
    ensures forall i :: 0 <= i < |files| ==> (files[i] in r <==> '/' !in files[i].relativePath)
    ensures Subsequence(r, files)
    ensures forall x :: multiset(r)[x] == if '/' !in x.relativePath then multiset(files)[x] else 0
  {
    FilterCounts(files, IsTopLevel);
    Filter(files, IsTopLevel)
  }

  /** Dropping dot files a second time changes nothing. */
  lemma FilterDotFilesIdempotent(files: seq<FileInfo>)
    ensures FilterDotFiles(FilterDotFiles(files)) == FilterDotFiles(files)
  {
    FilterIdempotent(files, NotDotFile);
  }

  /** Dropping nested browser files a second time changes nothing. */
  lemma FilterBrowserRecursiveFilesIdempotent(files: seq<FileInfo>)
    ensures FilterBrowserRecursiveFiles(FilterBrowserRecursiveFiles(files)) == FilterBrowserRecursiveFiles(files)
  {
    FilterIdempotent(files, IsTopLevel);
  }

  /** The path, relative to the remote root, a file is uploaded under. */
  function RemoteRelativePath(file: FileInfo, isIncludeDirectoryName: bool): string
  {
    if isIncludeDirectoryName then file.relativePathWithBase else file.relativePath
  }

  /** `getUploadPath`: the absolute remote path of a file, the root followed by its chosen relative path. */
  function GetUploadPath(file: FileInfo, isIncludeDirectoryName: bool): (r: string)
    ensures |r| >= 1 && r[0] == '/'
    ensures isIncludeDirectoryName ==> r[1..] == file.relativePathWithBase
    ensures !isIncludeDirectoryName ==> r[1..] == file.relativePath
  {
    "/" + RemoteRelativePath(file, isIncludeDirectoryName)
  }

  /**
   * An upload path is always accepted by `getPathParts`, and its parts are the root followed by
   * the pieces of the chosen relative path.
   */
  lemma UploadPathParts(file: FileInfo, isIncludeDirectoryName: bool)
    ensures var relative := RemoteRelativePath(file, isIncludeDirectoryName);
      GetPathParts(GetUploadPath(file, isIncludeDirectoryName))
      == Ok(if relative == "" then ["/"] else ["/"] + Split(relative, '/'))
  {
    var relative := RemoteRelativePath(file, isIncludeDirectoryName);
    var path := GetUploadPath(file, isIncludeDirectoryName);
    assert path == [] + ['/'] + relative;
    SplitAfterPiece([], relative, '/');
  }
}
