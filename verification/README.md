# HTTPfs: the HTTP-to-filesystem layer, modelled in Dafny

HTTPfs mounts the automatic index pages of an HTTP server as a read-only
filesystem. This project models its HTTP-to-filesystem layer, `parser.py`.

- `Directory.contents` turns the rows of an index page into a listing. The
  listing starts with `.` and `..`, drops the parent-directory row and rows
  without cells, flags `[DIR]` rows, and strips `/` from names.
- `File.__init__` opens a path. It splits the path into its parent and its
  name, and fills the shared `readdir_cache` for the parent if that listing is
  missing. It decides whether the path is a directory, builds the URL and
  probes it with HEAD. From the probe it takes the size and the modification
  time. In one case it falls back to the parent's index page for the time.
- `File.read` serves a read through a per-handle cache of 1 MiB blocks.
- `File.attributes` reports mode, link count, size and times, or `ENOENT`.

The network is an oracle, the `Server` datatype in `remote.dfy`. It holds the
rows of the page served at a URL, the answer to a HEAD of a URL, and the
answer to a range GET. Each decision the core takes on those answers is
stated exactly.

Modules: `Common` (options, results, `EIO`/`ENOENT`), `Remote` (the oracle),
`Paths` (path splitting), `Listing` (`Directory` and the row filter),
`Blocks` (read arithmetic and slicing), `Files` (`File` and the listing cache).

Where the code and the written design disagree, the model follows the code:

- The listing GET's status is never checked. An error page is parsed like any
  other page.
- The fallback scan of the parent page runs only when the time is still unset.
  That happens only for a directory with `dirmtime` set and no Last-Modified
  header. A file without the header gets the current time, with no scan. A
  directory with `dirmtime` set ends without a time only when no row matches.
- A fallback row matches when its link text CONTAINS the name. The last
  matching row wins.
- A block is requested as bytes `b*2^20` to `b*2^20 + 1023*1024`, both ends
  inclusive. That range is 1047553 bytes, 1023 short of the block. A server
  that honours the range therefore gives a read that reaches past those bytes
  fewer bytes than it asked for (`Blocks.ServedBlockReadIsShort`). This is
  kept as written.
- The first block fetch for offset 0 is therefore bytes `0-1047552`, not
  `0-1047551`.
- A read spanning blocks succeeds when the HEAD probe's status was 200 or the
  range answer's status is 206. It returns the answer's body whatever the
  range status was.

## Model

| member | source | states |
|---|---|---|
| `Paths.Split` | parser.py:53-54 | `path.split("/")` yields at least one piece, no piece holds `/`, and there is exactly one piece iff the path has no `/` |
| `Paths.JoinSplit` | parser.py:53-54 | joining the split pieces with `/` gives back the path |
| `Paths.JoinLast` | parser.py:53 | joining two or more pieces is the join of all but the last, a `/`, and the last |
| `Paths.Join` | parser.py:53 | `"/".join(parts)`: the pieces with one `/` between neighbours; its meaning is pinned by `Paths.JoinSplit` and `Paths.JoinLast` |
| `Paths.ParentDir` | parser.py:53 | `parent_dir` is the join of all pieces but the last, and is empty when the path has no `/` |
| `Paths.FileName` | parser.py:54 | `filename` is the last piece and holds no `/` |
| `Paths.SplitPath` | parser.py:53-54 | `filename` holds no `/`; with a `/` in the path, `parent_dir + "/" + filename == path`; without one, `parent_dir == ""` and `filename == path` |
| `Listing.TrimLeft` | parser.py:37 | removes exactly the leading `/` characters: the result is a suffix, everything cut was `/`, and it does not start with `/` |
| `Listing.TrimRight` | parser.py:37 | removes exactly the trailing `/` characters: the result is a prefix, everything cut was `/`, and it does not end with `/` |
| `Listing.Strip` | parser.py:37 | `strip("/")` leaves a contiguous part of the text, with only `/` cut at both ends and no `/` left at either end |
| `Listing.StripDirectoryName` | parser.py:37 | a directory's link text `name/` becomes `name`, and a bare name is unchanged |
| `Listing.Listed` | parser.py:34-37 | the listing of the rows has at most one entry per row |
| `Listing.ListingUrl` | parser.py:30 | the page for directory `path` is fetched from `root`, a `/`, the path and a closing `/`, so the URL always ends with `/` |
| `Listing.Kept` | parser.py:35 | a row yields an entry iff it has a `td` and its icon's alt text is not `[PARENTDIR]` |
| `Listing.EntryOf` | parser.py:36-37 | a kept row yields its link text stripped of `/`, flagged as a directory iff its alt text is `[DIR]` |
| `Listing.KeptRows` | parser.py:35 | a row is kept iff it is among the rows, has a `td`, and its icon is not `[PARENTDIR]` |
| `Listing.ListedSnoc` | parser.py:34-37 | one more row appends exactly that row's entry to the listing, if the row is kept |
| `Listing.ListedConcat` | parser.py:34-37 | the listing keeps the row order: the listing of two pages in a row is the first listing followed by the second |
| `Listing.ListedIsKeptRows` | parser.py:34-37 | there is one entry per kept row, and the k-th entry has the k-th kept row's stripped link text as name, flagged as a directory iff its icon is `[DIR]` |
| `Listing.Directory.constructor` | parser.py:14-16 | a directory handle keeps its root and path |
| `Listing.Directory.Contents` | parser.py:21-39 | `contents()` is `.` and `..` followed by the listing of the page served at `root/path/` |
| `Blocks.BlockIndex` | parser.py:99 | `mb_start` is the block holding the offset: `mb_start * 2^20 <= offset < (mb_start + 1) * 2^20` |
| `Blocks.OffsetInBlock` | parser.py:101 | `offset_from_mb` is below 2^20 and no larger than the offset |
| `Blocks.WithinOneBlock` | parser.py:100-103 | the single-block test `mb_start == mb_end`, with `mb_end` computed from `offset + length`; characterised by `Blocks.WithinOneBlockIff` |
| `Blocks.BlockDecomposition` | parser.py:99-101 | `mb_start` and `offset_from_mb` are the quotient and remainder of the offset by 2^20, and `mb_start * 2^20 + offset_from_mb == offset` |
| `Blocks.WithinOneBlockIff` | parser.py:99-103 | `mb_start == mb_end` iff `offset_from_mb + length < 2^20` |
| `Blocks.BlockFetch` | parser.py:107 | the block fill request starts at the block's first byte and covers 2^20 - 1023 bytes inclusive |
| `Blocks.SpanFetch` | parser.py:125 | the spanning request starts at the offset and ends at the smaller of the size and `offset + length - 1` |
| `Blocks.Slice` | parser.py:120 | Python slicing: the k-th result byte is byte `lo + k`, the length is at most `hi - lo`, exactly `hi - lo` when the data is long enough, otherwise clamped to the data, and empty when `hi <= lo` |
| `Blocks.ServedBlockReadIsShort` | parser.py:107-120 | when the server returns no more than the requested 2^20 - 1023 bytes, a single-block read reaching past them returns fewer bytes than asked |
| `Blocks.FirstBlockFetch` | parser.py:99-107 | 10 bytes at offset 0 are a single-block read of block 0, fetched as bytes 0 to 1047552 |
| `Blocks.SpanningFetch` | parser.py:99-125 | 20 bytes at offset 1048570 span blocks and, for a 2 MiB file, are fetched as bytes 1048570 to 1048589 |
| `Files.DirNames` | parser.py:58 | a name is among `dirs` iff some entry of the listing carries it and is flagged as a directory |
| `Files.Occurs` | parser.py:82 | Python's substring test `filename in link`, as a recursive search; pinned by `Files.OccursIff` |
| `Files.OccursIff` | parser.py:82 | `Occurs(sub, s)` holds iff `sub` sits at some position `i` of `s`, that is, the run of `s` starting at `i` and as long as `sub` equals `sub` |
| `Files.MtimeRow` | parser.py:80-82 | a row can supply the time iff it is kept and its link text contains the name |
| `Files.IsListingMtime` | parser.py:75-83 | the time the fallback scan must yield: none iff no row matches, otherwise the time of the last matching row |
| `Files.ScanListingMtime` | parser.py:75-83 | the fallback scan yields no time iff no kept row's link text contains the name; otherwise the time of the last such row |
| `Files.HttpFs.constructor` | parser.py:55-56 | the listing cache that `File` consults and fills starts empty |
| `Files.File.constructor` | parser.py:43-86 | the parent's listing is fetched and stored only if absent, other cache keys unchanged; `is_dir` iff the name is a directory of that listing or empty; the URL ends with `/` iff `is_dir`; size is Content-Length or 0, and 0 when the probe is not 200; mtime is Last-Modified, else the current time unless a directory with `dirmtime`, else the listing scan's result; the block cache starts empty; the ghost flag `filledCache` holds iff the parent's listing was fetched to fill the cache, and `rescannedParent` iff the parent's page was fetched again for the fallback scan |
| `Files.File.ContentUrl` | parser.py:96 | reads go to `root/path`, without the trailing `/` that the probe URL of a directory has |
| `Files.File.Read` | parser.py:88-133 | a single-block read on a miss sends one block fetch, stores the body under `mb_start` only on 200/206, else fails with `EIO` and leaves the cache alone; on a hit it sends nothing and leaves the cache alone; it returns the clamped slice at `offset_from_mb`; a spanning read sends one request, never touches the cache and succeeds iff the probe status was 200 or the answer's is 206; cached blocks are never changed and no other key is added |
| `Files.File.Attributes` | parser.py:135-153 | `ENOENT` iff the probe status is not 200; otherwise the mode is the directory type with permissions 0o777 for a directory and the regular-file type with 0o666 for a file, and no other bits, `st_nlink` is present (as 2) iff a directory, `st_size` is the size, and access and modification time are both `mtime` |
| `Files.OpenTwice` | parser.py:55-62 | opening one path twice, with the server free to answer differently each time: the cache ends as one open leaves it, the first open fills it iff the parent was missing, the second never fills it, and both handles agree on the directory flag and the URL. The HEAD probe and any fallback page GET are sent on every open |
| `Files.RereadWithinBlock` | parser.py:103-120 | of two reads of one single-block region, the first fetches iff the block was not cached, and after a successful first read the second fetches nothing and returns the same bytes |

## Left out

- HTML parsing (BeautifulSoup). A page is given as its rows: the first cell's icon alt text, the second cell's link text and the third cell's time.
- Rows whose cells lack the expected image, link or text make the source raise. Such rows cannot be written in the model.
- HTTP transport, sessions and redirects. The server is an oracle of total functions, so two GETs of one URL in a single open see the same page. The source fetches the parent page twice and could see two different pages.
- Parsing of Last-Modified, of the listing's time cells and of Content-Length. They arrive already parsed, and malformed values, which make the source raise, are not modelled.
- The clock. The current time is a parameter of the constructor.
- Logging, `six.text_type` conversions and the FUSE exception classes. Errors are the `Errno` datatype.
- The rest of the mounted filesystem. Only its `readdir_cache` is modelled, as `Files.HttpFs`; the HTTPfs class that owns it is not part of this model.
- Offsets and lengths are non-negative, as the filesystem binding passes them. Python's floor division of negative values is not modelled.
