/** `Directory.contents`: the listing of one remote directory, built from the
    rows of its automatic index page. */
module Listing {
  import opened Common
  import opened Remote

  /** One listed name and whether it is a directory. */
  datatype Entry = Entry(name: string, isDir: bool)

  const ParentDirAlt: string := "[PARENTDIR]"
  const DirAlt: string := "[DIR]"

  /** The synthetic entries every listing starts with. */
  const DotEntries: seq<Entry> := [Entry(".", true), Entry("..", true)]

  /** The URL whose page lists directory `path` under `root`. */
  function ListingUrl(root: string, path: string): (url: string)
    ensures |url| == |root| + |path| + 2 && url[..|root|] == root
    ensures url[|root|] == '/' && url[|url| - 1] == '/'
  {
    root + "/" + path + "/"
  }

  /** `s` without its leading `/` characters. */
  function TrimLeft(s: string): (r: string)
    ensures |r| <= |s| && r == s[|s| - |r|..]
    ensures forall k :: 0 <= k < |s| - |r| ==> s[k] == '/'
    ensures |r| > 0 ==> r[0] != '/'
  {
    if |s| > 0 && s[0] == '/' then TrimLeft(s[1..]) else s
  }

  /** `s` without its trailing `/` characters. */
  function TrimRight(s: string): (r: string)
    ensures |r| <= |s| && r == s[..|r|]
    ensures forall k :: |r| <= k < |s| ==> s[k] == '/'
    ensures |r| > 0 ==> r[|r| - 1] != '/'
  {
    if |s| > 0 && s[|s| - 1] == '/' then TrimRight(s[..|s| - 1]) else s
  }

  /** `s.strip("/")`: the part of `s` left once the `/` characters at both ends
      are removed; only `/` characters are removed, and none is left at either end. */
  function Strip(s: string): (r: string)
    ensures |r| > 0 ==> r[0] != '/' && r[|r| - 1] != '/'
    ensures var i := |s| - |TrimLeft(s)|;
      && i + |r| <= |s|
      && r == s[i..i + |r|]
      && (forall k :: 0 <= k < i ==> s[k] == '/')
      && (forall k :: i + |r| <= k < |s| ==> s[k] == '/')
  {
    TrimRight(TrimLeft(s))
  }

  /** A directory's link text carries a trailing `/`; stripping it gives the
      bare name back, and a bare name is left as it is. */
  lemma StripDirectoryName(name: string)
    requires '/' !in name
    ensures Strip(name + "/") == name
    ensures Strip(name) == name
  {
    var s := name + "/";
    if |name| == 0 {
      assert TrimRight(TrimLeft(s)) == "";
    } else {
      assert name[0] != '/' && name[|name| - 1] != '/';
      assert s[0] == name[0];
      assert TrimLeft(s) == s;
      assert s[..|s| - 1] == name;
      assert TrimRight(name) == name;
      assert TrimLeft(name) == name;
    }
  }

  /** A row becomes an entry when it has a `td` and its icon is not the parent-directory one. */
  predicate Kept(row: Row) {
    row.alt.Some? && row.alt.value != ParentDirAlt
  }

  /** The entry a kept row becomes: its link text stripped of `/`, flagged as a
      directory exactly when its icon says `[DIR]`. */
  function EntryOf(row: Row): Entry {
    Entry(Strip(row.link), row.alt == Some(DirAlt))
  }

  /** The entries the rows give, in row order. */
  function Listed(rows: seq<Row>): (entries: seq<Entry>)
    ensures |entries| <= |rows|
  {
    if |rows| == 0 then []
    else (if Kept(rows[0]) then [EntryOf(rows[0])] else []) + Listed(rows[1..])
  }

  /** The rows that are kept, in order. */
  function KeptRows(rows: seq<Row>): (kept: seq<Row>)
    ensures |kept| <= |rows|
    ensures forall row :: row in kept <==> row in rows && Kept(row)
  {
    if |rows| == 0 then []
    else
      assert rows == [rows[0]] + rows[1..];
      (if Kept(rows[0]) then [rows[0]] else []) + KeptRows(rows[1..])
  }

  /** Listing a concatenation of pages lists the first, then the second: the
      listing keeps the rows' order. */
  lemma {:induction false} ListedConcat(a: seq<Row>, b: seq<Row>)
    ensures Listed(a + b) == Listed(a) + Listed(b)
  {
    if |a| > 0 {
      assert (a + b)[0] == a[0];
      assert (a + b)[1..] == a[1..] + b;
      ListedConcat(a[1..], b);
      assert Listed(a + b) == (if Kept(a[0]) then [EntryOf(a[0])] else []) + Listed(a[1..] + b);
    } else {
      assert a + b == b;
    }
  }

  /** Extending the rows by one row extends the listing by that row's entry, if it is kept. */
  lemma ListedSnoc(rows: seq<Row>, i: nat)
    requires i < |rows|
    ensures Listed(rows[..i + 1]) == Listed(rows[..i]) + (if Kept(rows[i]) then [EntryOf(rows[i])] else [])
  {
    assert rows[..i + 1] == rows[..i] + [rows[i]];
    ListedConcat(rows[..i], [rows[i]]);
    assert Listed([rows[i]]) == if Kept(rows[i]) then [EntryOf(rows[i])] else [];
  }

  /** The listing has one entry per kept row, and the k-th entry is the one
      the k-th kept row becomes. */
  lemma {:induction false} ListedIsKeptRows(rows: seq<Row>)
    ensures |Listed(rows)| == |KeptRows(rows)|
    ensures forall k :: 0 <= k < |Listed(rows)| ==> Listed(rows)[k] == EntryOf(KeptRows(rows)[k])
  {
    if |rows| > 0 {
      ListedIsKeptRows(rows[1..]);
    }
  }

  class Directory {
    const root: string
    const path: string

    constructor (root: string, path: string)
      ensures this.root == root && this.path == path
    {
      this.root := root;
      this.path := path;
    }

    /** The two dot entries followed by the entries of the page served for
        this directory. The page's status is not looked at. */
    method Contents(server: Server) returns (contents: seq<Entry>)
      ensures contents == DotEntries + Listed(server.page(ListingUrl(root, path)))
    {
      contents := DotEntries;
      var rows := server.page(ListingUrl(root, path));
      var i := 0;
      while i < |rows|
        invariant 0 <= i <= |rows|
        invariant contents == DotEntries + Listed(rows[..i])
      {
        var row := rows[i];
        if row.alt.Some? && row.alt.value != ParentDirAlt {
          var isDir := row.alt.value == DirAlt;
          contents := contents + [Entry(Strip(row.link), isDir)];
        }
        ListedSnoc(rows, i);
        i := i + 1;
      }
      assert rows[..i] == rows;
    }
  }
}
