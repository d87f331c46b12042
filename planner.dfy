/**
 * The directory planner: from the relative paths of the files to upload, the insertion-ordered
 * list of remote directories to create before any file is uploaded.
 */
module Planner {
  import opened Strings
  import opened Seqs
  import opened PathModel

  /** `path.split('/').slice(0, -1)`: the directory segments of a relative file path, file name dropped. */
  function DirSegments(path: string): (segments: seq<string>)
    ensures '/' !in path ==> segments == []
    ensures forall i :: 0 <= i < |segments| ==> '/' !in segments[i]
  {
    var parts := Split(path, '/');
    parts[..|parts| - 1]
  }

  /** The directories one file path needs, shortest first: `/d1`, `/d1/d2`, ... */
  function PathDirectories(path: string): (dirs: seq<string>)
    ensures |dirs| == |DirSegments(path)|
  {
    var segments := DirSegments(path);
    seq(|segments|, i requires 0 <= i < |segments| => Rooted(segments[..i + 1]))
  }

  /** The directories of every path, in input order, duplicates included. */
  function Candidates(paths: seq<string>): seq<string>
    decreases |paths|
  {
    if paths == [] then []
    else Candidates(paths[..|paths| - 1]) + PathDirectories(paths[|paths| - 1])
  }

  /** `Set.add` on an insertion-ordered set held as a sequence. */
  function Insert(dirs: seq<string>, dir: string): seq<string>
  {
    if dir in dirs then dirs else dirs + [dir]
  }

  /** Adds `items` one after another. */
  function InsertAll(dirs: seq<string>, items: seq<string>): seq<string>
    decreases |items|
  {
    if items == [] then dirs
    else Insert(InsertAll(dirs, items[..|items| - 1]), items[|items| - 1])
  }

  /** The plan `getDirectoriesToCreate` returns. */
  function DirectoriesToCreate(paths: seq<string>): seq<string>
  {
    InsertAll([], Candidates(paths))
  }

  /**
   * `getDirectoriesToCreate`: accumulates each path's directories into an insertion-ordered set,
   * extending the current directory one segment at a time.
   */
  method GetDirectoriesToCreate(paths: seq<string>) returns (directories: seq<string>)
    ensures directories == DirectoriesToCreate(paths)
  {
    directories := [];
    for i := 0 to |paths|
      invariant directories == InsertAll([], Candidates(paths[..i]))
    {
      var path := paths[i];
      var pathDirectories := DirSegments(path);
      var currentDirectory := "";
      ghost var done := Candidates(paths[..i]);
      assert done + PathDirectories(path)[..0] == done;
      for j := 0 to |pathDirectories|
        invariant currentDirectory == Rooted(pathDirectories[..j])
        invariant directories == InsertAll([], done + PathDirectories(path)[..j])
      {
        ExtendDirectory(pathDirectories, j);
        currentDirectory := currentDirectory + "/" + pathDirectories[j];
        PlanStep(done, path, j);
        if currentDirectory !in directories {
          directories := directories + [currentDirectory];
        }
      }
      CandidatesStep(paths, i);
    }
    assert paths[..|paths|] == paths;
  }

  /** The planner's current directory gains one segment per turn of its inner loop. */
  lemma ExtendDirectory(segments: seq<string>, j: nat)
    requires j < |segments|
    ensures Rooted(segments[..j + 1]) == Rooted(segments[..j]) + "/" + segments[j]
  {
    RootedSnoc(segments[..j], segments[j]);
    assert segments[..j + 1] == segments[..j] + [segments[j]];
  }

  /** One turn of the inner loop inserts the next directory of the path. */
  lemma PlanStep(done: seq<string>, path: string, j: nat)
    requires j < |DirSegments(path)|
    ensures InsertAll([], done + PathDirectories(path)[..j + 1])
      == Insert(InsertAll([], done + PathDirectories(path)[..j]), Rooted(DirSegments(path)[..j + 1]))
  {
    var before := done + PathDirectories(path)[..j];
    var after := done + PathDirectories(path)[..j + 1];
    assert after == before + [PathDirectories(path)[j]];
    assert after[..|after| - 1] == before;
  }

  /** The outer loop has planned one more path once the inner loop is done. */
  lemma CandidatesStep(paths: seq<string>, i: nat)
    requires i < |paths|
    ensures Candidates(paths[..i + 1]) == Candidates(paths[..i]) + PathDirectories(paths[i])[..|DirSegments(paths[i])|]
  {
    assert PathDirectories(paths[i])[..|DirSegments(paths[i])|] == PathDirectories(paths[i]);
    assert paths[..i + 1][..i] == paths[..i];
  }

  /** Inserting keeps exactly the old entries and the new items. */
  lemma {:induction false} InsertAllMembers(dirs: seq<string>, items: seq<string>)
    ensures forall x :: x in InsertAll(dirs, items) <==> x in dirs || x in items
    decreases |items|
  {
    if items != [] {
      var init := items[..|items| - 1];
      InsertAllMembers(dirs, init);
      assert items == init + [items[|items| - 1]];
    }
  }

  /** Inserting never creates a duplicate. */
  lemma {:induction false} InsertAllNoDuplicates(dirs: seq<string>, items: seq<string>)
    requires NoDuplicates(dirs)
    ensures NoDuplicates(InsertAll(dirs, items))
    decreases |items|
  {
    if items != [] {
      InsertAllNoDuplicates(dirs, items[..|items| - 1]);
    }
  }

  /** `x` is a directory some path needs: a non-empty prefix of that path's directory segments. */
  ghost predicate Needed(paths: seq<string>, x: string)
  {
    exists k, i :: 0 <= k < |paths| && 1 <= i <= |DirSegments(paths[k])| &&
      x == Rooted(DirSegments(paths[k])[..i])
  }

  /** Every candidate is a needed directory. */
  lemma {:induction false} CandidatesNeeded(paths: seq<string>)
    ensures forall x :: x in Candidates(paths) ==> Needed(paths, x)
    decreases |paths|
  {
    if paths != [] {
      var n := |paths| - 1;
      var init, last := paths[..n], paths[n];
      CandidatesNeeded(init);
      forall x | x in Candidates(paths) ensures Needed(paths, x) {
        if x in Candidates(init) {
          var k, i :| 0 <= k < |init| && 1 <= i <= |DirSegments(init[k])| &&
            x == Rooted(DirSegments(init[k])[..i]);
          assert paths[k] == init[k];
        } else {
          var i :| 0 <= i < |PathDirectories(last)| && PathDirectories(last)[i] == x;
          assert x == Rooted(DirSegments(paths[n])[..i + 1]);
        }
      }
    }
  }

  /** Every needed directory is a candidate. */
  lemma {:induction false} NeededAreCandidates(paths: seq<string>)
    ensures forall x :: Needed(paths, x) ==> x in Candidates(paths)
    decreases |paths|
  {
    if paths != [] {
      var n := |paths| - 1;
      var init, last := paths[..n], paths[n];
      NeededAreCandidates(init);
      forall x | Needed(paths, x) ensures x in Candidates(paths) {
        var k, i :| 0 <= k < |paths| && 1 <= i <= |DirSegments(paths[k])| &&
          x == Rooted(DirSegments(paths[k])[..i]);
        if k < n {
          assert init[k] == paths[k];
          assert Needed(init, x);
        } else {
          assert PathDirectories(last)[i - 1] == x;
        }
      }
    }
  }

  /** The plan lists each directory at most once. */
  lemma PlanNoDuplicates(paths: seq<string>)
    ensures NoDuplicates(DirectoriesToCreate(paths))
  {
    InsertAllNoDuplicates([], Candidates(paths));
  }

  /**
   * A directory is in the plan exactly when it is `/d1/.../di` for some input path
   * `d1/.../dk/name` and some `1 <= i <= k`: every prefix is covered, and the file name never
   * contributes.
   */
  lemma PlanIsNeededDirectories(paths: seq<string>)
    ensures forall x :: x in DirectoriesToCreate(paths) <==> Needed(paths, x)
  {
    InsertAllMembers([], Candidates(paths));
    CandidatesNeeded(paths);
    NeededAreCandidates(paths);
  }

  /** Every planned directory is an absolute path. */
  lemma PlanEntriesAbsolute(paths: seq<string>)
    ensures forall x :: x in DirectoriesToCreate(paths) ==> |x| >= 1 && x[0] == '/'
  {
    PlanIsNeededDirectories(paths);
    forall x | x in DirectoriesToCreate(paths) ensures |x| >= 1 && x[0] == '/' {
      var k, i :| 0 <= k < |paths| && 1 <= i <= |DirSegments(paths[k])| &&
        x == Rooted(DirSegments(paths[k])[..i]);
    }
  }

  /** A path without `/` names a file directly in the root and adds no directory to the plan. */
  lemma BareFileAddsNothing(paths: seq<string>, path: string)
    requires '/' !in path
    ensures DirectoriesToCreate(paths + [path]) == DirectoriesToCreate(paths)
  {
    var extended := paths + [path];
    assert extended[..|extended| - 1] == paths;
    assert extended[|extended| - 1] == path;
    assert PathDirectories(path) == [];
    assert Candidates(extended) == Candidates(paths) + [];
    assert Candidates(extended) == Candidates(paths);
  }

  /** Within one path, each directory's parent is the directory listed just before it. */
  lemma PathDirectoriesParents(path: string, i: nat)
    requires i < |PathDirectories(path)|
    ensures ParentDirectory(PathDirectories(path)[i]) ==
      if i == 0 then "" else PathDirectories(path)[i - 1]
  {
    var segments := DirSegments(path);
    RootedSnoc(segments[..i], segments[i]);
    assert segments[..i + 1] == segments[..i] + [segments[i]];
    ParentOfChild(Rooted(segments[..i]), segments[i]);
  }

  /** Every entry whose parent is not the root has its parent listed earlier. */
  ghost predicate ParentsFirst(dirs: seq<string>)
  {
    forall k :: 0 <= k < |dirs| && ParentDirectory(dirs[k]) != "" ==> ParentDirectory(dirs[k]) in dirs[..k]
  }

  /** Every item's parent is the root, already in `dirs`, or an earlier item. */
  ghost predicate ParentsAvailable(dirs: seq<string>, items: seq<string>)
  {
    forall k :: 0 <= k < |items| && ParentDirectory(items[k]) != "" ==>
      ParentDirectory(items[k]) in dirs + items[..k]
  }

  lemma {:induction false} InsertAllParentsFirst(dirs: seq<string>, items: seq<string>)
    requires ParentsFirst(dirs) && ParentsAvailable(dirs, items)
    ensures ParentsFirst(InsertAll(dirs, items))
    decreases |items|
  {
    if items != [] {
      var n := |items| - 1;
      var init, x := items[..n], items[n];
      forall k | 0 <= k < |init| && ParentDirectory(init[k]) != ""
        ensures ParentDirectory(init[k]) in dirs + init[..k]
      {
        assert items[..k] == init[..k];
      }
      InsertAllParentsFirst(dirs, init);
      var before := InsertAll(dirs, init);
      InsertAllMembers(dirs, init);
      if x !in before {
        var after := before + [x];
        forall k | 0 <= k < |after| && ParentDirectory(after[k]) != ""
          ensures ParentDirectory(after[k]) in after[..k]
        {
          if k < |before| {
            assert after[..k] == before[..k];
          } else {
            assert items[..n] == init;
            assert ParentDirectory(x) in dirs + init;
            assert after[..k] == before;
          }
        }
      }
    }
  }

  lemma {:induction false} CandidatesParentsAvailable(paths: seq<string>)
    ensures ParentsAvailable([], Candidates(paths))
    decreases |paths|
  {
    if paths != [] {
      var n := |paths| - 1;
      var init := paths[..n];
      var earlier := Candidates(init);
      var own := PathDirectories(paths[n]);
      var all := earlier + own;
      assert Candidates(paths) == all;
      CandidatesParentsAvailable(init);
      forall k | 0 <= k < |all| && ParentDirectory(all[k]) != ""
        ensures ParentDirectory(all[k]) in [] + all[..k]
      {
        if k < |earlier| {
          assert all[..k] == earlier[..k];
          assert ParentDirectory(earlier[k]) in [] + earlier[..k];
        } else {
          var i := k - |earlier|;
          PathDirectoriesParents(paths[n], i);
          assert i > 0;
          assert all[k - 1] == own[i - 1];
        }
      }
    }
  }

  /** The plan lists every directory after its parent (unless the parent is the root). */
  lemma PlanParentsFirst(paths: seq<string>)
    ensures ParentsFirst(DirectoriesToCreate(paths))
  {
    CandidatesParentsAvailable(paths);
    InsertAllParentsFirst([], Candidates(paths));
  }

  /** The parent directory of every file's absolute path is the root or a planned directory. */
  lemma FileParentPlanned(paths: seq<string>, k: nat)
    requires k < |paths|
    ensures ParentDirectory("/" + paths[k]) == "" ||
      ParentDirectory("/" + paths[k]) in DirectoriesToCreate(paths)
  {
    var parts := Split(paths[k], '/');
    var segments := DirSegments(paths[k]);
    var name := parts[|parts| - 1];
    assert parts == segments + [name];
    RootedSplit(paths[k]);
    RootedSnoc(segments, name);
    ParentOfChild(Rooted(segments), name);
    if segments != [] {
      assert segments[..|segments|] == segments;
      assert Needed(paths, Rooted(segments));
      PlanIsNeededDirectories(paths);
    }
  }

  /** Inserting distinct items into an empty plan lists them as they are. */
  lemma {:induction false} InsertAllDistinct(items: seq<string>)
    requires NoDuplicates(items)
    ensures InsertAll([], items) == items
    decreases |items|
  {
    if items != [] {
      var init := items[..|items| - 1];
      InsertAllDistinct(init);
      assert items[|items| - 1] !in init;
      assert init + [items[|items| - 1]] == items;
    }
  }

  /** The directories of one path grow strictly longer, so none repeats. */
  lemma PathDirectoriesDistinct(path: string)
    ensures NoDuplicates(PathDirectories(path))
  {
    var segments := DirSegments(path);
    var dirs := PathDirectories(path);
    forall i | 0 < i < |dirs| ensures |dirs[i - 1]| < |dirs[i]| {
      RootedSnoc(segments[..i], segments[i]);
      assert segments[..i + 1] == segments[..i] + [segments[i]];
    }
    forall i, j | 0 <= i < j < |dirs| ensures dirs[i] != dirs[j] {
      var k := i + 1;
      while k < j
        invariant i < k <= j
        invariant |dirs[i]| < |dirs[k]|
      {
        k := k + 1;
      }
    }
  }

  /** The plan for a single file is its chain of directories, shortest first. */
  lemma SinglePathPlan(path: string)
    ensures DirectoriesToCreate([path]) == PathDirectories(path)
  {
    assert [path][..0] == [];
    assert Candidates([path]) == PathDirectories(path);
    PathDirectoriesDistinct(path);
    InsertAllDistinct(PathDirectories(path));
  }

  /**
   * A file two directories deep, `d1/d2/name`, needs `/d1` and then `/d1/d2`, and nothing for the
   * file name.
   */
  lemma TwoLevelPath(d1: string, d2: string, name: string)
    requires '/' !in d1 && '/' !in d2 && '/' !in name
    ensures DirectoriesToCreate([d1 + "/" + d2 + "/" + name]) == ["/" + d1, "/" + d1 + "/" + d2]
  {
    var path := d1 + "/" + d2 + "/" + name;
    SplitThree(d1, d2, name);
    var parts := Split(path, '/');
    assert DirSegments(path) == [d1, d2] by {
      assert parts[..|parts| - 1] == [d1, d2];
    }
    TwoSegmentDirectories(path, d1, d2);
    RootedTwo(d1, d2);
    SinglePathPlan(path);
  }

  /**
   * The same file given with a leading `/` also plans the root (as `/`) and doubles the first
   * slash of every directory: the planner expects relative paths.
   */
  lemma LeadingSlashPath(d1: string, d2: string, name: string)
    requires '/' !in d1 && '/' !in d2 && '/' !in name
    ensures DirectoriesToCreate(["/" + d1 + "/" + d2 + "/" + name]) ==
      ["/", "//" + d1, "//" + d1 + "/" + d2]
  {
    var path := "/" + d1 + "/" + d2 + "/" + name;
    LeadingSlashSegments(d1, d2, name);
    ThreeSegmentDirectories(path, "", d1, d2);
    RootedEmptyFirst(d1, d2);
    SinglePathPlan(path);
  }

  /** The directory segments of `/d1/d2/name`: an empty first segment, then `d1` and `d2`. */
  lemma LeadingSlashSegments(d1: string, d2: string, name: string)
    requires '/' !in d1 && '/' !in d2 && '/' !in name
    ensures DirSegments("/" + d1 + "/" + d2 + "/" + name) == ["", d1, d2]
  {
    var rest := d1 + "/" + d2 + "/" + name;
    var path := "/" + d1 + "/" + d2 + "/" + name;
    assert path == [] + ['/'] + rest;
    SplitAfterPiece([], rest, '/');
    SplitThree(d1, d2, name);
    var parts := Split(path, '/');
    assert parts == ["", d1, d2, name];
    assert parts[..|parts| - 1] == ["", d1, d2];
  }

  /** `d1/d2/name` splits into its three pieces. */
  lemma SplitThree(d1: string, d2: string, name: string)
    requires '/' !in d1 && '/' !in d2 && '/' !in name
    ensures Split(d1 + "/" + d2 + "/" + name, '/') == [d1, d2, name]
  {
    assert d1 + "/" + d2 + "/" + name == d1 + ['/'] + (d2 + ['/'] + name);
    SplitAfterPiece(d2, name, '/');
    SplitAfterPiece(d1, d2 + ['/'] + name, '/');
  }

  /** The directories of a path with two directory segments. */
  lemma TwoSegmentDirectories(path: string, a: string, b: string)
    requires DirSegments(path) == [a, b]
    ensures PathDirectories(path) == [Rooted([a]), Rooted([a, b])]
  {
    assert [a, b][..1] == [a] && [a, b][..2] == [a, b];
  }

  /** The directories of a path with three directory segments. */
  lemma ThreeSegmentDirectories(path: string, a: string, b: string, c: string)
    requires DirSegments(path) == [a, b, c]
    ensures PathDirectories(path) == [Rooted([a]), Rooted([a, b]), Rooted([a, b, c])]
  {
    assert [a, b, c][..1] == [a] && [a, b, c][..2] == [a, b] && [a, b, c][..3] == [a, b, c];
  }

  /** Accumulating one and two segments. */
  lemma RootedTwo(a: string, b: string)
    ensures Rooted([a]) == "/" + a
    ensures Rooted([a, b]) == "/" + a + "/" + b
  {
    assert [a][1..] == [] && [b][1..] == [] && [a, b][1..] == [b];
    assert Rooted([b]) == "/" + b + "" == "/" + b;
    assert Rooted([a, b]) == "/" + a + ("/" + b);
    assert "/" + a + ("/" + b) == "/" + a + "/" + b;
  }

  /** Accumulating after an empty first segment doubles the first slash. */
  lemma RootedEmptyFirst(a: string, b: string)
    ensures Rooted([""]) == "/"
    ensures Rooted(["", a]) == "//" + a
    ensures Rooted(["", a, b]) == "//" + a + "/" + b
  {
    assert [""][1..] == [] && ["", a][1..] == [a] && ["", a, b][1..] == [a, b];
    RootedTwo(a, b);
    assert "/" + "" + ("/" + a) == "//" + a;
    assert "/" + "" + ("/" + a + "/" + b) == "//" + a + "/" + b;
  }
}
