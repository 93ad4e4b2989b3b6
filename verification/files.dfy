/** The `File` handle: how opening a path classifies it and fills in its
    metadata, how reads are served through its block cache, and the attributes
    it reports. */
module Files {
  import opened Common
  import opened Remote
  import opened Paths
  import opened Listing
  import opened Blocks

  /** File-type and permission bits of `st_mode`. */
  const S_IFMT: bv32 := 0xF000
  const S_IFDIR: bv32 := 0x4000
  const S_IFREG: bv32 := 0x8000
  const PermissionBits: bv32 := 0x1FF
  const DirPermissions: bv32 := 0x1FF   // 0o777
  const FilePermissions: bv32 := 0x1B6  // 0o666

  /** The attribute dictionary; `nlink` is `None` when the key is absent. */
  datatype Attrs = Attrs(mode: bv32, nlink: Option<int>, size: int, atime: Option<Stamp>, mtime: Option<Stamp>)

  /** The part of the mounted filesystem this core uses: the listings already
      fetched, by directory path. A listing, once stored, is never replaced. */
  class HttpFs {
    var readdirCache: map<string, seq<Entry>>

    constructor ()
      ensures readdirCache == map[]
    {
      readdirCache := map[];
    }
  }

  /** The names of the entries of a listing that are flagged as directories. */
  function DirNames(listing: seq<Entry>): (names: seq<string>)
    ensures forall n :: n in names <==> exists k :: 0 <= k < |listing| && listing[k].isDir && listing[k].name == n
  {
    if |listing| == 0 then []
    else
      var rest := DirNames(listing[1..]);
      assert forall k :: 1 <= k < |listing| ==> listing[k] == listing[1..][k - 1];
      if listing[0].isDir then [listing[0].name] + rest else rest
  }

  /** Substring test, `sub in s`. */
  predicate Occurs(sub: string, s: string)
    decreases |s|
  {
    |sub| <= |s| && (s[..|sub|] == sub || (|s| > 0 && Occurs(sub, s[1..])))
  }

  /** `sub` sits in `s` at position `i`. */
  predicate OccursAt(sub: string, s: string, i: int) {
    0 <= i && i + |sub| <= |s| && s[i..i + |sub|] == sub
  }

  /** `Occurs` is the substring test: `sub` sits at some position of `s`. */
  lemma {:induction false} OccursIff(sub: string, s: string)
    ensures Occurs(sub, s) <==> exists i :: OccursAt(sub, s, i)
    decreases |s|
  {
    if |sub| <= |s| && s[..|sub|] == sub {
      assert OccursAt(sub, s, 0);
    } else if |sub| <= |s| && |s| > 0 {
      OccursIff(sub, s[1..]);
      if Occurs(sub, s[1..]) {
        var i :| OccursAt(sub, s[1..], i);
        assert s[i + 1..i + 1 + |sub|] == s[1..][i..i + |sub|];
        assert OccursAt(sub, s, i + 1);
      }
      if exists i :: OccursAt(sub, s, i) {
        var i :| OccursAt(sub, s, i);
        assert i != 0;
        assert s[1..][i - 1..i - 1 + |sub|] == s[i..i + |sub|];
        assert OccursAt(sub, s[1..], i - 1);
      }
    }
  }

  /** A listing row that can supply the modification time of `filename`: a
      kept row whose link text contains the name. */
  predicate MtimeRow(row: Row, filename: string) {
    Kept(row) && Occurs(filename, row.link)
  }

  /** `mtime` is what the listing gives for `filename`: none when no row
      matches, otherwise the time of the last matching row. */
  ghost predicate IsListingMtime(rows: seq<Row>, filename: string, mtime: Option<Stamp>) {
    && (mtime.None? <==> forall i :: 0 <= i < |rows| ==> !MtimeRow(rows[i], filename))
    && (mtime.Some? ==>
          exists i :: 0 <= i < |rows| && MtimeRow(rows[i], filename) && rows[i].modified == mtime.value
                      && forall j :: i < j < |rows| ==> !MtimeRow(rows[j], filename))
  }

  /** The fallback scan of the parent directory's page for the modification time of `filename`. */
  method ScanListingMtime(rows: seq<Row>, filename: string) returns (mtime: Option<Stamp>)
    ensures IsListingMtime(rows, filename, mtime)
  {
    mtime := None;
    ghost var at := 0;
    var i := 0;
    while i < |rows|
      invariant 0 <= i <= |rows|
      invariant mtime.None? <==> forall j :: 0 <= j < i ==> !MtimeRow(rows[j], filename)
      invariant mtime.Some? ==> 0 <= at < i && MtimeRow(rows[at], filename) && rows[at].modified == mtime.value
      invariant mtime.Some? ==> forall j :: at < j < i ==> !MtimeRow(rows[j], filename)
    {
      var row := rows[i];
      if row.alt.Some? && row.alt.value != ParentDirAlt {
        if Occurs(filename, row.link) {
          mtime := Some(row.modified);
          at := i;
        }
      }
      i := i + 1;
    }
  }

  class File {
    const root: string
    const path: string
    const dirmtime: bool
    /** Whether the path names a directory. */
    const isDir: bool
    /** The URL probed, with a trailing `/` for a directory. */
    const url: string
    /** The status of the HEAD probe made when the handle was opened. */
    const probeStatus: int
    const size: int
    /** `None` when no time was found; also when the probe failed, in which
        case the source never sets the field at all. */
    const mtime: Option<Stamp>
    /** Cached blocks by block index. A lookup of a missing index stores
        `None` in the source's dictionary; that is the same as absence here. */
    var readbuffer: map<nat, seq<byte>>
    /** Whether opening the handle fetched the parent's listing to fill the cache. */
    ghost const filledCache: bool
    /** Whether opening the handle fetched the parent's page again for the
        fallback scan of the modification time; this GET bypasses the cache. */
    ghost const rescannedParent: bool

    /** Opens `path` under `root`. `now` is the current time the source reads
        from the clock. */
    constructor (root: string, path: string, fs: HttpFs, server: Server, now: Stamp, dirmtime: bool)
      modifies fs
      ensures this.root == root && this.path == path && this.dirmtime == dirmtime
      ensures readbuffer == map[]
      ensures filledCache <==> ParentDir(path) !in old(fs.readdirCache)
      ensures rescannedParent <==>
        probeStatus == 200 && server.head(url).lastModified.None? && isDir && dirmtime
      ensures var parent := ParentDir(path);
        fs.readdirCache ==
          if parent in old(fs.readdirCache) then old(fs.readdirCache)
          else old(fs.readdirCache)[parent := DotEntries + Listed(server.page(ListingUrl(root, parent)))]
      ensures ParentDir(path) in fs.readdirCache
      ensures isDir <==> FileName(path) in DirNames(fs.readdirCache[ParentDir(path)]) || FileName(path) == ""
      ensures url == root + "/" + path + (if isDir then "/" else "")
      ensures probeStatus == server.head(url).status
      ensures size == if probeStatus == 200 then server.head(url).contentLength.GetOr(0) else 0
      ensures probeStatus != 200 ==> mtime == None
      ensures probeStatus == 200 ==>
        var lastModified := server.head(url).lastModified;
        if lastModified.Some? then mtime == lastModified
        else if !(isDir && dirmtime) then mtime == Some(now)
        else IsListingMtime(server.page(ListingUrl(root, ParentDir(path))), FileName(path), mtime)
    {
      var parent := ParentDir(path);
      var filename := FileName(path);
      filledCache := false;
      rescannedParent := false;
      if parent !in fs.readdirCache {
        filledCache := true;
        var directory := new Directory(root, parent);
        var contents := directory.Contents(server);
        fs.readdirCache := fs.readdirCache[parent := contents];
      }
      var dirs := DirNames(fs.readdirCache[parent]);
      var dir := filename in dirs || filename == "";
      var u := root + "/" + path + (if dir then "/" else "");
      var probe := server.head(u);
      var sz := 0;
      var mt: Option<Stamp> := None;
      if probe.status == 200 {
        sz := probe.contentLength.GetOr(0);
        if probe.lastModified.Some? {
          mt := probe.lastModified;
        } else {
          mt := if dir && dirmtime then None else Some(now);
        }
        if mt.None? {
          rescannedParent := true;
          mt := ScanListingMtime(server.page(ListingUrl(root, parent)), filename);
        }
      }
      this.root := root;
      this.path := path;
      this.dirmtime := dirmtime;
      isDir := dir;
      url := u;
      probeStatus := probe.status;
      size := sz;
      mtime := mt;
      readbuffer := map[];
    }

    /** The URL file contents are read from: never with a trailing `/`. */
    function ContentUrl(): string {
      root + "/" + path
    }

    /** Reads `length` bytes at `offset`. A read within one block is served
        from that block, which is fetched and kept first when it is not cached
        yet; a read that spans blocks is fetched on its own and leaves the
        cache alone. `sent` is the range request the read put on the network. */
    method Read(length: nat, offset: nat, server: Server) returns (r: Result<seq<byte>>, sent: Option<RangeRequest>)
      modifies this
      ensures var b, o := BlockIndex(offset), OffsetInBlock(offset);
        WithinOneBlock(offset, length) ==>
          && sent == (if b in old(readbuffer) then None else Some(BlockFetch(ContentUrl(), b)))
          && (b in old(readbuffer) ==>
                readbuffer == old(readbuffer) && r == Ok(Slice(old(readbuffer)[b], o, o + length)))
          && (b !in old(readbuffer) ==>
                var answer := server.get(BlockFetch(ContentUrl(), b));
                if RangeAccepted(answer.status) then
                  readbuffer == old(readbuffer)[b := answer.content] && r == Ok(Slice(answer.content, o, o + length))
                else
                  readbuffer == old(readbuffer) && r == Err(EIO))
      ensures !WithinOneBlock(offset, length) ==>
        var req := SpanFetch(ContentUrl(), offset, length, size);
        var answer := server.get(req);
        && sent == Some(req)
        && readbuffer == old(readbuffer)
        && r == if probeStatus == 200 || answer.status == 206 then Ok(answer.content) else Err(EIO)
      ensures forall k :: k in old(readbuffer) ==> k in readbuffer && readbuffer[k] == old(readbuffer)[k]
      ensures forall k :: k in readbuffer && k !in old(readbuffer) ==> k == BlockIndex(offset)
    {
      var url := root + "/" + path;
      var mbStart := (offset / 1024) / 1024;
      var mbEnd := ((offset + length) / 1024) / 1024;
      var offsetFromMb := ((offset / 1024) % 1024) * 1024 + offset % 1024;
      if mbStart == mbEnd {
        sent := None;
        if mbStart !in readbuffer {
          var req := RangeRequest(url, mbStart * 1024 * 1024, mbStart * 1024 * 1024 + 1023 * 1024);
          var answer := server.get(req);
          sent := Some(req);
          if answer.status == 200 || answer.status == 206 {
            readbuffer := readbuffer[mbStart := answer.content];
          } else {
            return Err(EIO), sent;
          }
        }
        r := Ok(Slice(readbuffer[mbStart], offsetFromMb, offsetFromMb + length));
      } else {
        var req := RangeRequest(url, offset, Min(size, offset + length - 1));
        var answer := server.get(req);
        sent := Some(req);
        if probeStatus == 200 || answer.status == 206 {
          r := Ok(answer.content);
        } else {
          r := Err(EIO);
        }
      }
    }

    /** The attributes reported for the handle: `ENOENT` when the probe
        failed; otherwise a directory or regular-file mode with fixed
        permissions, a link count for directories only, the size, and the
        modification time as both access and modification time. */
    function Attributes(): (r: Result<Attrs>)
      ensures r.Err? <==> probeStatus != 200
      ensures r.Err? ==> r.errno == ENOENT
      ensures r.Ok? ==>
        && r.value.mode & S_IFMT == (if isDir then S_IFDIR else S_IFREG)
        && r.value.mode & PermissionBits == (if isDir then DirPermissions else FilePermissions)
        && r.value.mode & !(S_IFMT | PermissionBits) == 0
        && (r.value.nlink.Some? <==> isDir)
        && (isDir ==> r.value.nlink == Some(2))
        && r.value.size == size
        && r.value.atime == mtime && r.value.mtime == mtime
    {
      if probeStatus != 200 then Err(ENOENT)
      else
        var mode := if isDir then S_IFDIR | DirPermissions else S_IFREG | FilePermissions;
        var attrs := Attrs(mode, None, size, mtime, mtime);
        Ok(if isDir then attrs.(nlink := Some(2)) else attrs)
    }
  }

  /** Two reads of the same region within one block: when the first one
      succeeds, the second puts nothing on the network and returns the same
      bytes. */
  method RereadWithinBlock(f: File, server: Server, length: nat, offset: nat)
    returns (first: Result<seq<byte>>, second: Result<seq<byte>>, firstSent: Option<RangeRequest>, secondSent: Option<RangeRequest>)
    requires WithinOneBlock(offset, length)
    modifies f
    ensures firstSent.Some? <==> BlockIndex(offset) !in old(f.readbuffer)
    ensures first.Ok? ==> secondSent == None && second == first
  {
    first, firstSent := f.Read(length, offset, server);
    second, secondSent := f.Read(length, offset, server);
  }

  /** Opening one path twice, each open answered by its own state of the
      server: the listing cache ends as one open leaves it, the second open
      never fills it, and both handles agree on whether the path is a
      directory and on its URL. The HEAD probe and the fallback page GET are
      sent on every open. */
  method OpenTwice(root: string, path: string, fs: HttpFs, s1: Server, s2: Server, now1: Stamp, now2: Stamp, dirmtime: bool)
    returns (first: File, second: File)
    modifies fs
    ensures var parent := ParentDir(path);
      fs.readdirCache ==
        if parent in old(fs.readdirCache) then old(fs.readdirCache)
        else old(fs.readdirCache)[parent := DotEntries + Listed(s1.page(ListingUrl(root, parent)))]
    ensures first.filledCache <==> ParentDir(path) !in old(fs.readdirCache)
    ensures !second.filledCache
    ensures first.isDir == second.isDir && first.url == second.url
  {
    first := new File(root, path, fs, s1, now1, dirmtime);
    second := new File(root, path, fs, s2, now2, dirmtime);
  }
}
