/** Splitting a mount-relative path into its parent directory and its last
    segment, the way `File.__init__` does it: split on every `/`, join all
    segments but the last again with `/`, and keep the last one as the name. */
module Paths {

  /** The pieces of `s` between its `/` separators, in order (`str.split("/")`). */
  function Split(s: string): (parts: seq<string>)
    ensures |parts| >= 1
    ensures forall k :: 0 <= k < |parts| ==> '/' !in parts[k]
    ensures |parts| == 1 <==> '/' !in s
    decreases |s|
  {
    if |s| == 0 then [""]
    else
      var rest := Split(s[1..]);
      assert s == [s[0]] + s[1..];
      if s[0] == '/' then [""] + rest
      else [[s[0]] + rest[0]] + rest[1..]
  }

  /** The pieces glued back together with `/` between them (`"/".join(parts)`). */
  function Join(parts: seq<string>): string {
    if |parts| == 0 then ""
    else if |parts| == 1 then parts[0]
    else parts[0] + "/" + Join(parts[1..])
  }

  /** Splitting and joining again gives back the path. */
  lemma {:induction false} JoinSplit(s: string)
    ensures Join(Split(s)) == s
    decreases |s|
  {
    if |s| > 0 {
      var rest := Split(s[1..]);
      JoinSplit(s[1..]);
      if s[0] == '/' {
        assert ([""] + rest)[1..] == rest;
      } else {
        var parts := [[s[0]] + rest[0]] + rest[1..];
        assert parts[1..] == rest[1..];
        if |rest| > 1 {
          assert Join(rest) == rest[0] + "/" + Join(rest[1..]);
        }
      }
    }
  }

  /** Joining at least two pieces puts one `/` before the last piece. */
  lemma {:induction false} JoinLast(parts: seq<string>)
    requires |parts| >= 2
    ensures Join(parts) == Join(parts[..|parts| - 1]) + "/" + parts[|parts| - 1]
  {
    if |parts| == 2 {
      assert parts[..1] == [parts[0]];
    } else {
      JoinLast(parts[1..]);
      assert parts[1..][..|parts| - 2] == parts[..|parts| - 1][1..];
    }
  }

  /** `parent_dir`: every segment of `path` but the last, joined with `/`. */
  function ParentDir(path: string): (parent: string)
    ensures '/' !in path ==> parent == ""
  {
    var parts := Split(path);
    Join(parts[..|parts| - 1])
  }

  /** `filename`: the last segment of `path`. */
  function FileName(path: string): (name: string)
    ensures '/' !in name
  {
    var parts := Split(path);
    parts[|parts| - 1]
  }

  /** The name holds no `/`; when the path has a `/`, parent, separator and
      name make up the path exactly; without one, the parent is empty and the
      name is the whole path. */
  lemma SplitPath(path: string)
    ensures '/' !in FileName(path)
    ensures '/' in path ==> ParentDir(path) + "/" + FileName(path) == path
    ensures '/' !in path ==> ParentDir(path) == "" && FileName(path) == path
  {
    var parts := Split(path);
    JoinSplit(path);
    if |parts| >= 2 {
      JoinLast(parts);
    }
  }
}
