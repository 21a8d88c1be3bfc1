/** What the paths of notes look like.

    The program tests the text of a path; here the same is said of its segments, so that both
    the test and the splitting are pinned. */
module FilePaths {
  import opened VaultPaths

  /** A name that has something before its first dot and something behind it. */
  predicate NamesFile(name: string) {
    exists k :: 0 < k < |name| - 1 && name[k] == '.' && '.' !in name[..k]
  }

  /** What a file path is, by its segments: none is empty, a dot name, too long or reserved, none holds a backslash,
      the whole is not too long, and the last one names a file. */
  lemma FilePathIff(path: Path)
    requires path != [] && SlashFree(path)
    ensures IsFilePath(Join(path)) <==>
      && |Join(path)| <= 1024 && (forall i :: 0 <= i < |path| ==> path[i] !in {"", ".", ".."} && |path[i]| <= 255)
      && (forall i :: 0 <= i < |path| ==> path[i] !in {".git", ".gitattributes", ".gitignore", ".gitmodules", ".kb1"})
      && (forall i :: 0 <= i < |path| ==> '\\' !in path[i])
      && NamesFile(path[|path| - 1])
  {
    SplitJoin(path);
    CharInJoin(path, '\\');
    JoinEnds(path);
    var last := path[|path| - 1];
    var dot := IndexOfDot(last);
    assert NamesFile(last) <==> 0 < dot < |last| - 1 by {
      forall k | 0 < k < |last| - 1 && last[k] == '.' && '.' !in last[..k]
        ensures dot == k
      {
        assert forall i :: 0 <= i < k ==> last[..k][i] == last[i] != '.';
        assert forall i :: 0 <= i < dot ==> last[..dot][i] == last[i] && last[i] != '.';
      }
    }
    hide Split, Join;
  }

  lemma {:induction false} CharInJoin(path: Path, c: char)
    requires path != [] && c != '/'
    ensures c in Join(path) <==> exists i :: 0 <= i < |path| && c in path[i]
  {
    if |path| == 1 {
      assert Join(path) == path[0];
    } else {
      CharInJoin(path[1..], c);
      assert forall i :: 0 < i < |path| ==> path[i] == path[1..][i - 1];
      if exists i :: 0 <= i < |path[1..]| && c in path[1..][i] {
        var i :| 0 <= i < |path[1..]| && c in path[1..][i];
        assert c in path[i + 1];
      }
    }
  }

  lemma {:induction false} JoinEnds(path: Path)
    requires path != [] && SlashFree(path)
    ensures (forall i :: 0 <= i < |path| ==> path[i] != "") ==>
      Join(path) != "" && Join(path)[0] != '/' && Join(path)[|Join(path)| - 1] != '/'
  {
    if |path| > 1 {
      JoinEnds(path[1..]);
      assert forall i :: 0 <= i < |path[1..]| ==> path[1..][i] == path[i + 1];
    }
  }
}
