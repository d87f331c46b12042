/**
 * The path model of the directory utilities: absolute `/`-separated paths, their part lists
 * (a `"/"` sentinel followed by the segments), and the validators built on them.
 */
module PathModel {
  import opened Results
  import opened Strings
  import opened Seqs

  /** `getPathParts`: splits an absolute path into `"/"` followed by its segments. */
  function GetPathParts(path: string): (r: Result<seq<string>, string>)
    ensures path == "" ==> r == Err("Path is empty")
    ensures path != "" && path[0] != '/' ==> r == Err("Incorrect path")
    ensures r.Ok? <==> path != "" && path[0] == '/'
    ensures r.Ok? ==> |r.value| >= 1 && r.value[0] == "/"
    ensures r.Ok? ==> (|r.value| == 1 <==> path == "/")
    ensures r.Ok? ==> forall i :: 1 <= i < |r.value| ==> '/' !in r.value[i]
  {
    if |path| == 0 then Err("Path is empty")
    else if path[0] != '/' then Err("Incorrect path")
    else if path == "/" then Ok(["/"])
    else Ok(["/"] + Split(path, '/')[1..])
  }

  /**
   * `getPathFromParts`: rebuilds an absolute path from a part list, leaving out the last
   * `minusParts` segments.
   */
  function GetPathFromParts(parts: seq<string>, minusParts: nat): (r: Result<string, string>)
    ensures parts == [] ==> r == Err("Parts list is empty")
    ensures parts != [] && parts[0] != "/" ==> r == Err("Path parts must start with \"/\"")
    ensures parts != [] && parts[0] == "/" && |parts| <= minusParts ==> r == Err("Incorrect parts count")
    ensures r.Ok? <==> parts != [] && parts[0] == "/" && minusParts < |parts|
    ensures r.Ok? ==> |r.value| >= 1 && r.value[0] == '/'
    ensures r.Ok? && minusParts == |parts| - 1 ==> r.value == "/"
  {
    if |parts| == 0 then Err("Parts list is empty")
    else if parts[0] != "/" then Err("Path parts must start with \"/\"")
    else if |parts| <= minusParts then Err("Incorrect parts count")
    else Ok("/" + Join(parts[1..|parts| - minusParts], '/'))
  }

  /** Every absolute path survives a split followed by a join. */
  lemma PathRoundTrip(path: string)
    requires path != "" && path[0] == '/'
    ensures GetPathParts(path).Ok?
    ensures GetPathFromParts(GetPathParts(path).value, 0) == Ok(path)
  {
    if path != "/" {
      var rest := path[1..];
      assert path == [] + ['/'] + rest;
      SplitAfterPiece([], rest, '/');
      var parts := ["/"] + Split(rest, '/');
      assert Split(path, '/')[1..] == Split(rest, '/');
      assert GetPathParts(path) == Ok(parts);
      assert parts[1..|parts| - 0] == Split(rest, '/');
      JoinSplit(rest, '/');
      assert "/" + rest == path;
    }
  }

  /**
   * A part list whose segments hold no `/` survives a join followed by a split, except the one
   * list `["/", ""]`, whose join is the root.
   */
  lemma PartsRoundTrip(parts: seq<string>)
    requires |parts| >= 1 && parts[0] == "/"
    requires forall i :: 1 <= i < |parts| ==> '/' !in parts[i]
    requires parts != ["/", ""]
    ensures GetPathFromParts(parts, 0).Ok?
    ensures GetPathParts(GetPathFromParts(parts, 0).value) == Ok(parts)
  {
    if |parts| == 1 {
      assert parts == ["/"];
      assert GetPathFromParts(parts, 0) == Ok("/");
    } else {
      var segments := parts[1..];
      var joined := Join(segments, '/');
      assert joined != "" by {
        if |segments| == 1 {
          assert segments != [""];
        }
      }
      var path := "/" + joined;
      assert parts[1..|parts| - 0] == segments;
      assert GetPathFromParts(parts, 0) == Ok(path);
      assert path == [] + ['/'] + joined;
      SplitAfterPiece([], joined, '/');
      SplitJoin(segments, '/');
      assert Split(path, '/')[1..] == segments;
      assert |path| >= 2 && path[0] == '/';
      assert ["/"] + segments == parts;
    }
  }

  /** `Join` of a longer list extends the join of the shorter one by a separator and the new piece. */
  lemma {:induction false} JoinSnoc(pieces: seq<string>, piece: string, sep: char)
    requires pieces != []
    ensures Join(pieces + [piece], sep) == Join(pieces, sep) + [sep] + piece
    decreases |pieces|
  {
    if |pieces| > 1 {
      JoinSnoc(pieces[1..], piece, sep);
      assert (pieces + [piece])[1..] == pieces[1..] + [piece];
    }
  }

  /**
   * The accumulated directory path `"/" + s1 + "/" + s2 ...` for a list of segments: the string the
   * directory planner builds one segment at a time.
   */
  function Rooted(segments: seq<string>): string
  {
    if segments == [] then "" else "/" + segments[0] + Rooted(segments[1..])
  }

  /** Appending a segment appends `"/"` and the segment. */
  lemma {:induction false} RootedSnoc(segments: seq<string>, segment: string)
    ensures Rooted(segments + [segment]) == Rooted(segments) + "/" + segment
  {
    if segments != [] {
      assert (segments + [segment])[1..] == segments[1..] + [segment];
      RootedSnoc(segments[1..], segment);
    }
  }

  /** Prefixing a relative path with `/` is the same as accumulating its segments. */
  lemma {:induction false} RootedSplit(path: string)
    ensures Rooted(Split(path, '/')) == "/" + path
    decreases |path|
  {
    if path != [] {
      RootedSplit(path[1..]);
      if path[0] == '/' {
        RootedSplitSeparator(path);
      } else {
        RootedSplitLetter(path);
      }
    }
  }

  /** The step of `RootedSplit` for a path starting with `/`: an empty segment comes first. */
  lemma RootedSplitSeparator(path: string)
    requires path != [] && path[0] == '/'
    requires Rooted(Split(path[1..], '/')) == "/" + path[1..]
    ensures Rooted(Split(path, '/')) == "/" + path
  {
    var rest := Split(path[1..], '/');
    assert Split(path, '/') == [""] + rest;
    assert ([""] + rest)[1..] == rest;
    assert path == "/" + path[1..];
  }

  /** The step of `RootedSplit` for a path starting with a letter: it joins the first segment. */
  lemma RootedSplitLetter(path: string)
    requires path != [] && path[0] != '/'
    requires Rooted(Split(path[1..], '/')) == "/" + path[1..]
    ensures Rooted(Split(path, '/')) == "/" + path
  {
    var rest := Split(path[1..], '/');
    SplitLetter(path);
    RootedCons([path[0]] + rest[0], rest[1..]);
    assert rest == [rest[0]] + rest[1..];
    RootedCons(rest[0], rest[1..]);
    PrefixShift(path[0], rest[0], Rooted(rest[1..]), path[1..]);
    assert [path[0]] + path[1..] == path;
  }

  /** A letter before the first separator belongs to the first segment. */
  lemma SplitLetter(path: string)
    requires path != [] && path[0] != '/'
    ensures Split(path, '/') == [[path[0]] + Split(path[1..], '/')[0]] + Split(path[1..], '/')[1..]
  {
  }

  /** `Rooted` of a list is its first segment under `/`, followed by the rest. */
  lemma RootedCons(first: string, others: seq<string>)
    ensures Rooted([first] + others) == "/" + first + Rooted(others)
  {
    assert ([first] + others)[1..] == others;
  }

  /** Putting a letter in front of both sides of a rooted equation. */
  lemma PrefixShift(c: char, first: string, below: string, tail: string)
    requires "/" + first + below == "/" + tail
    ensures "/" + ([c] + first) + below == "/" + ([c] + tail)
  {
    assert first + below == tail by {
      assert ("/" + first + below)[1..] == first + below;
      assert ("/" + tail)[1..] == tail;
    }
  }

  /** The path with its last `/` and everything after it removed; `""` when the parent is the root. */
  function ParentDirectory(path: string): string
    decreases |path|
  {
    if path == "" then ""
    else if path[|path| - 1] == '/' then path[..|path| - 1]
    else ParentDirectory(path[..|path| - 1])
  }

  /** The parent of `dir + "/" + name` is `dir` when the name holds no `/`. */
  lemma {:induction false} ParentOfChild(dir: string, name: string)
    requires '/' !in name
    ensures ParentDirectory(dir + "/" + name) == dir
    decreases |name|
  {
    var path := dir + "/" + name;
    if name == "" {
      assert path[..|path| - 1] == dir;
    } else {
      var shorter := name[..|name| - 1];
      assert path[|path| - 1] == name[|name| - 1];
      assert path[..|path| - 1] == dir + "/" + shorter;
      assert forall c :: c in shorter ==> c in name;
      ParentOfChild(dir, shorter);
    }
  }

  /** The parent directory of a joined absolute path is the join without its last segment. */
  lemma {:induction false} ParentOfJoined(segments: seq<string>)
    requires |segments| >= 1
    requires forall i :: 0 <= i < |segments| ==> '/' !in segments[i]
    ensures ParentDirectory("/" + Join(segments, '/')) ==
      if |segments| == 1 then "" else "/" + Join(segments[..|segments| - 1], '/')
  {
    var n := |segments|;
    var init, last := segments[..n - 1], segments[n - 1];
    assert segments == init + [last];
    if n == 1 {
      assert "/" + Join(segments, '/') == "" + "/" + last;
      ParentOfChild("", last);
    } else {
      JoinSnoc(init, last, '/');
      assert "/" + Join(segments, '/') == ("/" + Join(init, '/')) + "/" + last;
      ParentOfChild("/" + Join(init, '/'), last);
    }
  }

  /**
   * Dropping the last part of a non-root path gives its parent directory (the root when the
   * parent is the root).
   */
  lemma ParentPath(path: string)
    requires path != "" && path[0] == '/' && path != "/"
    ensures GetPathParts(path).Ok?
    ensures GetPathFromParts(GetPathParts(path).value, 1) ==
      Ok(if ParentDirectory(path) == "" then "/" else ParentDirectory(path))
  {
    var segments := Split(path[1..], '/');
    AbsoluteParts(path);
    ParentOfJoined(segments);
    DropLastPart(segments);
  }

  /** An absolute path splits into the root and the segments of the rest, and joins back from them. */
  lemma AbsoluteParts(path: string)
    requires path != "" && path[0] == '/' && path != "/"
    ensures GetPathParts(path) == Ok(["/"] + Split(path[1..], '/'))
    ensures path == "/" + Join(Split(path[1..], '/'), '/')
  {
    var rest := path[1..];
    assert path == [] + ['/'] + rest;
    SplitAfterPiece([], rest, '/');
    assert Split(path, '/')[1..] == Split(rest, '/');
    JoinSplit(rest, '/');
  }

  /** Rebuilding all parts but the last of the root followed by `segments`. */
  lemma DropLastPart(segments: seq<string>)
    requires |segments| >= 1
    ensures GetPathFromParts(["/"] + segments, 1) ==
      Ok(if |segments| == 1 then "/" else "/" + Join(segments[..|segments| - 1], '/'))
  {
    var parts := ["/"] + segments;
    assert parts[1..|parts| - 1] == segments[..|segments| - 1];
  }

  /** `combine` drops empty parts; this is the test it filters with. */
  predicate NonEmpty(part: string)
  {
    part != ""
  }

  /** `combine` strips every `/` from a part longer than one character. */
  function NormalizePart(part: string): string
  {
    if |part| > 1 then RemoveAll(part, '/') else part
  }

  /** The non-empty parts, each normalised. */
  function NormalizedParts(parts: seq<string>): seq<string>
  {
    var kept := Filter(parts, NonEmpty);
    seq(|kept|, i requires 0 <= i < |kept| => NormalizePart(kept[i]))
  }

  /** The segments `combine` joins under the root: normalised non-empty parts without a leading `"/"`. */
  function CombinedSegments(parts: seq<string>): (segments: seq<string>)
    ensures forall i :: 0 <= i < |segments| && |segments[i]| > 1 ==> '/' !in segments[i]
  {
    var normalized := NormalizedParts(parts);
    if |normalized| > 0 && normalized[0] == "/" then normalized[1..] else normalized
  }

  /** The path `combine` returns for `parts`. */
  function CombinedPath(parts: seq<string>): string
  {
    "/" + Join(CombinedSegments(parts), '/')
  }

  /** `combine`: joins loose path fragments into one absolute path; it never fails. */
  method Combine(parts: seq<string>) returns (path: string)
    ensures path == CombinedPath(parts)
    ensures |path| >= 1 && path[0] == '/'
  {
    var current := Filter(parts, NonEmpty);
    current := seq(|current|, i requires 0 <= i < |current| => NormalizePart(current[i]));
    assert current == NormalizedParts(parts);
    if |current| == 0 || current[0] != "/" {
      current := ["/"] + current;
    }
    RootedJoin(current, CombinedSegments(parts));
    var joined := GetPathFromParts(current, 0);
    path := joined.value;
  }

  /** A part list starting with the root rebuilds to the root followed by its segments. */
  lemma RootedJoin(parts: seq<string>, segments: seq<string>)
    requires |parts| >= 1 && parts[0] == "/" && parts[1..] == segments
    ensures GetPathFromParts(parts, 0) == Ok("/" + Join(segments, '/'))
  {
    assert parts[1..|parts| - 0] == segments;
  }

  /**
   * When the combined segments are genuine names (no `/`, and not the single empty segment),
   * splitting the combined path gives the root followed by exactly those segments.
   */
  lemma CombinedPathParts(parts: seq<string>)
    requires forall i :: 0 <= i < |CombinedSegments(parts)| ==> '/' !in CombinedSegments(parts)[i]
    requires CombinedSegments(parts) != [""]
    ensures GetPathParts(CombinedPath(parts)) == Ok(["/"] + CombinedSegments(parts))
  {
    var segments := CombinedSegments(parts);
    var full := ["/"] + segments;
    assert full[1..|full| - 0] == segments;
    PartsRoundTrip(full);
  }

  /**
   * The documented example `combine('/a/', 'b', '/c/') == '/a/b/c'`, for any names: slashes
   * around a part are stripped and the parts are joined under the root.
   */
  lemma CombineExample(x: string, y: string, z: string)
    requires '/' !in x && '/' !in y && '/' !in z && y != ""
    ensures CombinedPath(["/" + x + "/", y, "/" + z + "/"]) == "/" + x + "/" + y + "/" + z
  {
    NormalizedExample(x, y, z);
    assert x != "/" by {
      assert "/"[0] == '/';
    }
    RootedJoinThree(x, y, z);
  }

  /** The parts of the documented example, normalised. */
  lemma NormalizedExample(x: string, y: string, z: string)
    requires '/' !in x && '/' !in y && '/' !in z && y != ""
    ensures NormalizedParts(["/" + x + "/", y, "/" + z + "/"]) == [x, y, z]
  {
    NormalizedNonEmpty(["/" + x + "/", y, "/" + z + "/"]);
    StripEnclosingSlashes(x);
    StripEnclosingSlashes(z);
  }

  /** When no part is empty, every part is kept and normalised in place. */
  lemma NormalizedNonEmpty(parts: seq<string>)
    requires forall i :: 0 <= i < |parts| ==> parts[i] != ""
    ensures |NormalizedParts(parts)| == |parts|
    ensures forall i :: 0 <= i < |parts| ==> NormalizedParts(parts)[i] == NormalizePart(parts[i])
  {
    FilterKeepsAll(parts, NonEmpty);
  }

  /** Three segments joined under the root. */
  lemma RootedJoinThree(x: string, y: string, z: string)
    ensures "/" + Join([x, y, z], '/') == "/" + x + "/" + y + "/" + z
  {
    assert Join([y, z], '/') == y + "/" + z by {
      assert [y, z][1..] == [z];
    }
    assert Join([x, y, z], '/') == x + "/" + (y + "/" + z) by {
      assert [x, y, z][1..] == [y, z];
    }
  }

  /** Stripping the slashes of `"/" + name + "/"` leaves the name. */
  lemma StripEnclosingSlashes(name: string)
    requires '/' !in name
    ensures NormalizePart("/" + name + "/") == name
  {
    RemoveAllConcat("/" + name, "/", '/');
    RemoveAllConcat("/", name, '/');
    assert RemoveAll("/", '/') == "";
  }

  /** `assertPartsLength`: only part lists naming something below the root are accepted. */
  function AssertPartsLength(parts: seq<string>): (r: Check)
    ensures r.Pass? <==> |parts| >= 2
    ensures r.Fail? ==> r.message == "Can not create directory for root"
  {
    if |parts| < 2 then Fail("Can not create directory for root") else Pass
  }

  /** Among absolute paths, the part-length check rejects exactly the root. */
  lemma PartsLengthRejectsOnlyRoot(path: string)
    requires GetPathParts(path).Ok?
    ensures AssertPartsLength(GetPathParts(path).value).Pass? <==> path != "/"
  {
  }

  /**
   * `assertDirectoryName`: a name is accepted when it is non-empty, holds no `/` and is at most
   * `maxLength` characters long; the checks run in that order.
   */
  function AssertDirectoryName(name: string, maxLength: nat): (r: Check)
    ensures r.Pass? <==> name != "" && '/' !in name && |name| <= maxLength
    ensures name == "" ==> r == Fail("Name is empty")
    ensures name != "" && '/' in name ==> r == Fail("Name contains \"/\" symbol")
    ensures name != "" && '/' !in name && |name| > maxLength ==> r == Fail("Directory name is too long")
  {
    if |name| == 0 then Fail("Name is empty")
    else if '/' in name then Fail("Name contains \"/\" symbol")
    else if |name| > maxLength then Fail("Directory name is too long")
    else Pass
  }
}
