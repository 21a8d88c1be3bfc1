/** Vault-relative paths: the strings the program handles, and the segment sequences the models reason with. */
module VaultPaths {
  import opened Wrappers

  type Path = seq<string>

  const MAX_PATH_LENGTH := 1024
  const MAX_SEGMENT_LENGTH := 255
  const INTERNAL_SEGMENTS: set<string> := {".git", ".gitattributes", ".gitignore", ".gitmodules", ".kb1"}

  /** `join('/')` */
  function Join(path: Path): string {
    if path == [] then ""
    else if |path| == 1 then path[0]
    else path[0] + "/" + Join(path[1..])
  }

  /** `split('/')`, which never returns an empty list */
  function Split(text: string): (path: Path)
    ensures path != []
  {
    if text == "" then [""]
    else
      var rest := Split(text[1..]);
      if text[0] == '/' then [""] + rest
      else [[text[0]] + rest[0]] + rest[1..]
  }

  predicate SlashFree(path: Path) { forall i :: 0 <= i < |path| ==> '/' !in path[i] }

  lemma {:induction false} SplitNoSlash(text: string)
    requires '/' !in text
    ensures Split(text) == [text]
  {
    if text != "" {
      SplitNoSlash(text[1..]);
      assert [text[0]] + text[1..] == text;
    }
  }

  lemma {:induction false} SplitAtSlash(head: string, tail: string)
    requires '/' !in head
    ensures Split(head + "/" + tail) == [head] + Split(tail)
  {
    var text := head + "/" + tail;
    if head == "" {
      assert text[1..] == tail;
    } else {
      SplitAtSlash(head[1..], tail);
      assert text[1..] == head[1..] + "/" + tail;
      assert [text[0]] + head[1..] == head;
    }
  }

  /** Joining and splitting are inverse on paths without a slash inside a segment. */
  lemma {:induction false} SplitJoin(path: Path)
    requires path != [] && SlashFree(path)
    ensures Split(Join(path)) == path
  {
    if |path| == 1 {
      SplitNoSlash(path[0]);
    } else {
      SplitJoin(path[1..]);
      SplitAtSlash(path[0], Join(path[1..]));
    }
  }

  lemma {:induction false} JoinSplit(text: string)
    ensures Join(Split(text)) == text && SlashFree(Split(text))
  {
    if text != "" {
      JoinSplit(text[1..]);
      var rest := Split(text[1..]);
      if text[0] == '/' {
        assert ([""] + rest)[1..] == rest;
      } else {
        var whole := [[text[0]] + rest[0]] + rest[1..];
        assert whole[1..] == rest[1..];
        assert Join(rest) == rest[0] + if |rest| == 1 then "" else "/" + Join(rest[1..]);
        assert Join(whole) == [text[0]] + Join(rest);
      }
    }
  }

  /** `relativeDescendantPath`: "" for the path itself, the rest of the path for a descendant, `null` otherwise. */
  function RelativeDescendantPath(parent: string, child: string): Option<string> {
    if child == parent then Some("")
    else if parent + "/" <= child then Some(child[|parent| + 1..])
    else None
  }

  lemma {:induction false} JoinConcat(front: Path, back: Path)
    requires front != [] && back != []
    ensures Join(front + back) == Join(front) + "/" + Join(back)
  {
    if |front| == 1 {
      assert (front + back)[1..] == back;
    } else {
      JoinConcat(front[1..], back);
      assert (front + back)[1..] == front[1..] + back;
    }
  }

  lemma JoinInjective(left: Path, right: Path)
    requires left != [] && right != [] && SlashFree(left) && SlashFree(right) && Join(left) == Join(right)
    ensures left == right
  {
    SplitJoin(left);
    SplitJoin(right);
  }

  lemma DescendantText(parent: Path, rest: Path)
    requires parent != [] && rest != [] && SlashFree(parent) && SlashFree(rest)
    ensures RelativeDescendantPath(Join(parent), Join(parent + rest)) == Some(Join(rest))
  {
    JoinConcat(parent, rest);
    var text := Join(parent) + "/" + Join(rest);
    assert text[..|Join(parent)| + 1] == Join(parent) + "/";
    assert text[|Join(parent)| + 1..] == Join(rest);
  }

  lemma DescendantPath(parent: Path, child: Path)
    requires parent != [] && child != [] && SlashFree(parent) && SlashFree(child)
    requires Join(parent) + "/" <= Join(child)
    ensures parent < child
  {
    var tail := Join(child)[|Join(parent)| + 1..];
    assert Join(child) == Join(parent) + "/" + tail;
    JoinSplit(tail);
    JoinConcat(parent, Split(tail));
    JoinInjective(child, parent + Split(tail));
  }

  /** The string test is the segment-prefix test: on slash-free paths `relativeDescendantPath` finds exactly
      the path itself and the paths that continue it by whole segments, and returns the joined continuation. */
  lemma RelativeDescendantIsPrefix(parent: Path, child: Path)
    requires parent != [] && child != [] && SlashFree(parent) && SlashFree(child)
    ensures RelativeDescendantPath(Join(parent), Join(child)) ==
      if child == parent then Some("")
      else if parent < child then Some(Join(child[|parent|..]))
      else None
  {
    if parent < child {
      assert child == parent + child[|parent|..];
      DescendantText(parent, child[|parent|..]);
    } else if child != parent {
      if Join(child) == Join(parent) {
        JoinInjective(child, parent);
      }
      if Join(parent) + "/" <= Join(child) {
        DescendantPath(parent, child);
      }
    }
  }

  predicate SafeSegments(path: Path) {
    forall i :: 0 <= i < |path| ==>
      path[i] != "" && path[i] != "." && path[i] != ".." && |path[i]| <= MAX_SEGMENT_LENGTH && path[i] !in INTERNAL_SEGMENTS
  }

  function IndexOfDot(name: string): (r: int)
    ensures -1 <= r < |name|
    ensures r >= 0 ==> name[r] == '.' && '.' !in name[..r]
    ensures r == -1 ==> '.' !in name
  {
    if name == "" then -1
    else if name[0] == '.' then 0
    else var rest := IndexOfDot(name[1..]); if rest == -1 then -1 else rest + 1
  }

  /** What `validateVaultPath(input, 'file')` accepts. */
  predicate IsFilePath(input: string) {
    var segments := Split(input);
    var dot := IndexOfDot(segments[|segments| - 1]);
    && 0 < |input| <= MAX_PATH_LENGTH && '\\' !in input && input[0] != '/' && input[|input| - 1] != '/'
    && SafeSegments(segments)
    && 0 < dot < |segments[|segments| - 1]| - 1
  }
}
