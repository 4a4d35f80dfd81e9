# Dictionary crawlers: a verified model of their deterministic core

Two crawlers download input-method dictionaries from two web sites.
`BaiduSpider.py` fetches Baidu's category pages and their pages, then each
`.bdict` file. `SougouSpider.py` fetches Sogou's listing pages, then each
`.scel` file. Most of their code is network access, HTML queries and a thread
pool. This project models the deterministic logic between those calls and
proves its properties:

- how a scraped display name becomes a safe file name;
- how the download URL, the category directory name and the category id are built;
- how many page tasks a category gets, taken from its pagination links;
- the idempotent download steps and directory steps over a file store;
- command-line validation, deduplication of categories, and the
  `downloadUrls` dictionary where a later entry overrides an earlier one.

The model has six modules, one per file:

- `Base` (base.dfy): `Option`, `Result`, `Outcome`, and the Python exceptions
  as an `Error` datatype. Also `Bytes` and path joining.
- `Strings` (strings.dfy): single-character `str.replace`, `rpartition`/`split`
  and `partition` taken at `[-1]`, and Python's `int(str)` and `str(int)`.
- `Seqs` (seqs.dfy): Python's `range` and `list(set(...))`.
- `FileStore` (filestore.dfy): class `FileSystem`, a set of directory paths
  plus a map from file path to bytes. It offers `mkdir` and `write_bytes`,
  with Python's error cases.
- `Baidu` (baidu.dfy): the pure name, URL and page functions, and class
  `BaiduSpider`. Its methods update the file store and a log of fetched URLs.
- `Sougou` (sougou.dfy): sanitisation, the insertion-ordered `downloadUrls`
  dictionary, and `DownloadRun`, a function that specifies the `Download`
  loop. Also class `SougouSpider`.

The network is the constant `remote: string -> Option<Bytes>` of each spider
class. `None` stands for a failed fetch. Every fetch appends its URL to the
spider's `requests` log, so "performs no fetch" can be stated. The HTML parser
is not modelled: page titles, the texts of pagination links, category hrefs and
the entries of a page are parameters.

Three behaviours of the source are kept as written.

- In `SougouSpider.Download`, `open(filePath, "wb")` runs before the fetch. A
  failed fetch therefore leaves an empty file behind and ends the loop with an
  error. `Sougou.DownloadRunFailureLeavesEmptyFile` states this. A later run
  skips that file because it exists.
- `BaiduSpider.download_dicts` tests `categories is None`, so an empty list
  crawls nothing. `SougouSpider.DownloadDicts` tests `if not categories`, so an
  empty list crawls every category. The two `Categories` functions keep this
  difference (`Baidu.EmptyGivenDownloadsNothing`, `Sougou.EmptyGivenWalksAll`).
- Baidu reads the page count as `2 if len(pages) < 2 else ...`, so a category
  with fewer than two pagination links gets page 1 alone. Sogou indexes
  `find_all("a")[-2]` unguarded (SougouSpider.py:94), so there it raises
  IndexError. The two `PageNumbers` functions keep this difference.

## Model

| member | source | states |
|---|---|---|
| `Strings.ReplaceChar` | BaiduSpider.py:88 | `s.replace(a, b)` for characters: same length, every `a` becomes `b`, every other character is kept at its place |
| `Base.Join` | BaiduSpider.py:71 | `dir / name` here and `dir + "/" + name` at SougouSpider.py:29: the directory, one `/`, then the name, which can be read back after it |
| `Base.FileIn` | BaiduSpider.py:71 | `category_path / (name + ".bdict")` here and `categoryPath + "/" + key + ".scel"` at SougouSpider.py:29: a path inside the directory whose name ends in the extension |
| `Base.FileInInjective` | BaiduSpider.py:71 | different names with one extension give different paths in one directory, for `.bdict` files here and `.scel` files at SougouSpider.py:29 |
| `Strings.AfterLast` | BaiduSpider.py:107 | `rpartition(c)[-1]` / `split(c)[-1]`: a suffix of the input holding no `c`, preceded by `c` unless it is the whole input |
| `Strings.AfterLastOfSeparated` | BaiduSpider.py:107 | whatever follows the last separator is exactly the separator-free tail |
| `Strings.AfterFirst` | BaiduSpider.py:128 | `partition(c)[-1]`: everything after the first `c`, or the empty string when there is no `c` |
| `Strings.NatToString` | BaiduSpider.py:117 | `str(n)` is a non-empty digit string with no leading zero |
| `Strings.NatToStringValue` | BaiduSpider.py:117 | the digits `str(n)` writes denote `n` |
| `Strings.ParseIntOfDigits` | SougouSpider.py:120 | `int()` of a digit string succeeds with its value, which is never negative |
| `Strings.IntToString` | BaiduSpider.py:117 | `str(i)`: digits with no leading zero, after a `-` exactly when `i` is negative |
| `Strings.ParseInt` | BaiduSpider.py:120 | `int(s)`, also at SougouSpider.py:91: after trimming the six ASCII white-space characters `int()` skips (space, tab, line feed, vertical tab, form feed, carriage return), there is a result iff the rest is an optional sign and one or more digits, and ValueError otherwise; a digit string gives its value; a negative result comes from a leading `-`; blank text raises |
| `Strings.ParseIntRejectsSeparator` | BaiduSpider.py:120 | a text that starts with one of the separators U+001C to U+001F raises ValueError, whatever follows: `int()` does not skip them, although `str.strip()` would |
| `Strings.AfterFirstOfSeparated` | BaiduSpider.py:128 | when no separator comes before the one added, `partition` returns everything after it |
| `Strings.ParseIntSigned` | BaiduSpider.py:120 | a signed literal after trimming: `-` and digits give minus their value, `+` and digits give their value (leading zeros allowed) |
| `Strings.ParseIntRoundTrip` | BaiduSpider.py:117-120 | `int(str(i)) == i` for every integer, signs included |
| `Seqs.Range` | BaiduSpider.py:120 | `range(lo, hi)` has `max(hi - lo, 0)` elements, the i-th being `lo + i` (ascending) |
| `Seqs.RangeMembers` | SougouSpider.py:89-98 | `k` is in `range(lo, hi)` iff `lo <= k < hi` |
| `Seqs.Dedup` | BaiduSpider.py:137 | `list(set(xs))`: no repetition, and exactly the elements of `xs` (none lost, none added); nothing about order is claimed of the source |
| `Seqs.FirstIndex` | SougouSpider.py:105 | the first position at which an element occurs: it is there and not before |
| `Seqs.DedupFirstOccurrenceOrder` | SougouSpider.py:105 | the deduplicated list keeps the order of first appearance, as the keys of a Python dict do |
| `FileStore.FileSystem.MkDir` | BaiduSpider.py:56 | `mkdir`: an existing directory is an error only without `exist_ok`, an existing file always is; otherwise the directory is added and nothing else changes |
| `FileStore.FileSystem.WriteBytes` | BaiduSpider.py:80 | `write_bytes`: a directory raises IsADirectoryError; otherwise exactly that path now maps to exactly the data |
| `Baidu.DownloadName` | BaiduSpider.py:88 | the display name with every `/` replaced by `-`, then `_`, then the inner id; the display part has no `/` |
| `Baidu.InnerIdRecoverable` | BaiduSpider.py:88 | an inner id without `_` is what follows the last `_` of the download name |
| `Baidu.DistinctInnerIdsGiveDistinctNames` | BaiduSpider.py:88 | different inner ids (without `_`) never give the same download name |
| `Baidu.DownloadUrl` | BaiduSpider.py:89-90 | the inner id can be read back from the download URL |
| `Baidu.DownloadUrlRoundTrip` | BaiduSpider.py:89-90 | a URL names an inner id iff it is that fixed prefix plus that id |
| `Baidu.PageDownloads` | BaiduSpider.py:84-101 | one download task per listed entry, in order, with its name, its URL and the category directory |
| `Baidu.PageDownloadPathsDistinct` | BaiduSpider.py:84-101 | entries of a page with distinct inner ids (inner ids without `_`) are written to distinct files |
| `Baidu.CategoryUrl` | BaiduSpider.py:104 | the category id is read back from the category URL exactly as from a category link (`partition("=")` at line 128) |
| `Baidu.CategoryDirName` | BaiduSpider.py:106-108 | the title after its last `-` (the whole title without `-`), then `_`, then the category id |
| `Baidu.CategoryPath` | BaiduSpider.py:106-108 | a directory inside the save path whose name ends in `_` and the category id |
| `Baidu.CategoryIdOfHref` | BaiduSpider.py:128 | everything after the first `=` of the href; empty when it has none |
| `Baidu.Categories` | BaiduSpider.py:126-138 | given categories: deduplicated, none lost; none given: the category id of every root link, in order |
| `Baidu.EmptyGivenDownloadsNothing` | BaiduSpider.py:136-137 | `categories is None` is false for an empty list, so `list(set([]))` downloads no category |
| `Baidu.PageNumbers` | BaiduSpider.py:111-120 | fewer than two links: exactly `[1]`; otherwise `1..n` ascending for `n = int(text of links[-2])`, or ValueError |
| `Baidu.PageUrl` | BaiduSpider.py:117 | the page URL extends the category URL by `&page=`, and the page number can be read back from what follows |
| `Baidu.PageUrlsDistinct` | BaiduSpider.py:117 | different pages have different page URLs |
| `Baidu.PageTasks` | BaiduSpider.py:114-121 | one page task per page number, in order, all for the category directory |
| `Baidu.CategoryTasks` | BaiduSpider.py:111-121 | fewer than two links: one task; an error only for a link text that is no integer, as ValueError; every task is for the category directory |
| `Baidu.SinglePageCategory` | BaiduSpider.py:111-121 | a category with fewer than two pagination links gets one task, for `&page=1` |
| `Baidu.PagedCategory` | BaiduSpider.py:111-121 | otherwise the tasks are pages `1..n` exactly, each once, in ascending order |
| `Baidu.PageTasksOfRange` | BaiduSpider.py:114-121 | for pages `1..n` the k-th task is for page k, and no two tasks are equal |
| `Baidu.BaiduSpider.constructor` | BaiduSpider.py:14-35 | the save path, skip list and network are kept; nothing has been fetched |
| `Baidu.BaiduSpider.Fetch` | BaiduSpider.py:65-68 | one fetch: the remote body or a transport failure, recorded in the request log |
| `Baidu.BaiduSpider.CreateCategoryDir` | BaiduSpider.py:52-57 | false iff the directory exists and the category is in the skip list, store unchanged; otherwise true and the directory exists (already existing is no error); a file in its place raises FileExistsError |
| `Baidu.BaiduSpider.Download` | BaiduSpider.py:70-81 | existing `name.bdict`: no fetch, store unchanged; empty body: no file, store unchanged; a failed fetch raises TransportError and a directory at the path raises IsADirectoryError, both with the store unchanged; otherwise exactly that file is added, holding exactly the body, and no other path changes |
| `Baidu.BaiduSpider.DownloadPage` | BaiduSpider.py:83-101 | fetches the page, then the tasks of `PageDownloads` |
| `Baidu.BaiduSpider.DownloadCategory` | BaiduSpider.py:103-121 | fetches the category page, applies the directory decision, then the page tasks (none when skipped); the directory is created even when the page count then fails |
| `Baidu.BaiduSpider.DownloadDicts` | BaiduSpider.py:123-138 | unless a file is at the save path (FileExistsError, nothing fetched), the save directory exists afterwards; the root page is fetched only when no categories are given; result as `Categories` |
| `Sougou.Sanitize` | SougouSpider.py:110-114 | same length; each slash, comma, vertical bar, backslash and apostrophe becomes `-`, every other character is kept; the result has none of the five |
| `Sougou.SanitizeIdempotent` | SougouSpider.py:110-114 | sanitising twice equals sanitising once |
| `Sougou.SanitizeSafe` | SougouSpider.py:110-114 | a name with no unsafe character is left unchanged |
| `Sougou.KeysOf` | SougouSpider.py:105 | the keys of the dictionary, in insertion order |
| `Sougou.Lookup` | SougouSpider.py:105 | a key is found iff it is one of the keys |
| `Sougou.Assign` | SougouSpider.py:105-115 | `d[k] = v`: a new key is appended, an existing key keeps its place; `k` now maps to `v`, every other key is unchanged |
| `Sougou.SanitizedNames` | SougouSpider.py:106-114 | the sanitised name of each entry, in order |
| `Sougou.BuildTableKeys` | SougouSpider.py:99-115 | the keys are the distinct sanitised names in order of first appearance; no key repeats |
| `Sougou.BuildTableLastWins` | SougouSpider.py:99-115 | each key maps to the href of the last entry with that sanitised name |
| `Sougou.CollectDownloadUrls` | SougouSpider.py:99-115 | the loop builds that dictionary: keys deduplicated, last href wins |
| `Sougou.LookupAt` | SougouSpider.py:105 | with distinct keys, every stored pair is what its key looks up |
| `Sougou.DownloadStep` | SougouSpider.py:28-35 | one iteration: a run that already failed, or a key whose path exists as a file or directory, is left unchanged; at most its own URL is fetched, once |
| `Sougou.DownloadRun` | SougouSpider.py:27-35 | the whole loop: at most one fetch per pair, and a failed run has fetched something |
| `Sougou.MissingUrls` | SougouSpider.py:28-32 | the URLs of the pairs whose path did not exist before the loop, in dictionary order |
| `Sougou.DownloadRunFetchesMissing` | SougouSpider.py:27-35 | with distinct keys and no failure, the loop fetches exactly the URLs of the keys whose path did not exist, in dictionary order, each once; an existing path is never fetched |
| `Sougou.DownloadStepFrame` | SougouSpider.py:28-35 | one iteration touches at most its own key's file |
| `Sougou.DistinctKeyPaths` | SougouSpider.py:28-29 | within one dictionary, any two pairs `i < j` have different paths |
| `Sougou.DownloadRunKeepsExisting` | SougouSpider.py:28-31 | every path that existed before the loop is left exactly as it was (that it is not fetched is `DownloadRunFetchesMissing`) |
| `Sougou.DownloadRunFrame` | SougouSpider.py:27-35 | no path other than the keys' `.scel` paths changes |
| `Sougou.DownloadRunWritesLast` | SougouSpider.py:32-35 | with no failure, the last key, if new, holds exactly its fetched body |
| `Sougou.DownloadRunWritesEarlier` | SougouSpider.py:32-35 | with no failure, a key before the last, if new, holds exactly its fetched body: the later steps leave it alone |
| `Sougou.DownloadRunWritesMissing` | SougouSpider.py:32-35 | with no failure, every key whose path did not exist holds exactly its fetched body, empty bodies included |
| `Sougou.DownloadRunFailureLeavesEmptyFile` | SougouSpider.py:32-34 | after a failed fetch, that key's file exists and is empty |
| `Sougou.DownloadRunStopsAfterFailure` | SougouSpider.py:28-35 | after a failed fetch the remaining keys change nothing |
| `Sougou.DownloadRunAllPresent` | SougouSpider.py:28-31 | when every key's path exists, nothing is fetched and nothing changes |
| `Sougou.DownloadRunIdempotent` | SougouSpider.py:27-35 | repeating a successful loop over its own result fetches nothing and changes nothing |
| `Sougou.PageDownloadLastWins` | SougouSpider.py:99-116 | for one page, each new distinct sanitised name gets one file, holding what the last such entry's href returned |
| `Sougou.Categories` | SougouSpider.py:43-49 | given categories are kept as they are; with none, or an empty list, the last `/` segment of each root link, in order |
| `Sougou.EmptyGivenWalksAll` | SougouSpider.py:43 | `if not categories` treats an empty list as no list: both walk every root link |
| `Sougou.PageNumbers` | SougouSpider.py:89-98 | fewer than two links: IndexError; otherwise `1..n` ascending for `n = int(text of links[-2])`, or ValueError |
| `Sougou.CategoryPath` | SougouSpider.py:51 | `savePath + "/" + category`: the category's directory inside the save path |
| `Sougou.PageNumbersExact` | SougouSpider.py:89-98 | the pages are exactly those `k` with `1 <= k <= n` |
| `Sougou.PageUrl` | SougouSpider.py:101 | the page URL extends the category URL by `/default/`, and the page number can be read back from what follows |
| `Sougou.PageUrlsDistinct` | SougouSpider.py:101 | different pages are fetched from different URLs |
| `Sougou.CheckValidCategoryIndex` | SougouSpider.py:119-124 | returns its argument unchanged iff it is a non-empty string of digits, ArgumentTypeError otherwise; the `< 0` branch never fires |
| `Sougou.SougouSpider.constructor` | SougouSpider.py:10-17 | the network is kept; nothing has been fetched |
| `Sougou.SougouSpider.Fetch` | SougouSpider.py:19-25 | one fetch: the remote body or a failure, recorded in the request log |
| `Sougou.SougouSpider.DownloadOne` | SougouSpider.py:29-35 | one iteration of the loop changes the files and the request log exactly as `DownloadStep` says, and reports whether the fetch failed; directories unchanged |
| `Sougou.SougouSpider.Download` | SougouSpider.py:27-35 | the new files and request log are those of `DownloadRun` over the old store; the result fails iff a fetch failed; directories unchanged |
| `Sougou.SougouSpider.DownloadPage` | SougouSpider.py:99-116 | fetches the listing page, builds the dictionary, then downloads it as `Download` does |
| `Sougou.SougouSpider.MakeDirIfAbsent` | SougouSpider.py:38-42 | afterwards the path exists; it is added as a directory only if it did not exist; no file changes |
| `Sougou.SougouSpider.CreateCategoryDir` | SougouSpider.py:51-56 | the path `savePath + "/" + category` exists afterwards (as a file, if a file was there); it is added as a directory only if it was absent; no other path changes |

## Left out

- HTTP sessions, retry adapters, headers and timeouts (BaiduSpider.py:65-68,
  SougouSpider.py:19-25). These are network I/O. A fetch is the abstract
  `remote` function, and `None` stands for any failure after the transport
  retries. HTTP status codes are not seen: whatever body comes back is used,
  as in the source.
- BeautifulSoup queries (`find_all`, `find`, `.string`, `["href"]`). This is a
  foreign library. Their results are parameters. A missing tag or a `.string`
  of `None` (AttributeError or TypeError in the source) is not modelled.
- The thread pool, `submit` and `__recursive_as_completed`
  (BaiduSpider.py:39, 59-63, 139-142). Their purpose is concurrency. The model
  returns the tasks a step would submit, in order, but does not model the order
  in which tasks run.
- `os._exit` and the keep-going policy (BaiduSpider.py:143-146). This is
  process control. Errors are returned as values.
- `unquote` and the `name=(.*)` regular expression (SougouSpider.py:106-108).
  These are library calls. The decoded name is the input to `Sanitize`.
- The special categories `0` and `167` (SougouSpider.py:57-87). They are
  site-specific fetch plumbing.
- The outer loops of `SougouSpider.DownloadDicts` over categories, category
  URLs and pages (SougouSpider.py:50, 88-98). Their parts are modelled: the
  page numbers, the page URL, `DownloadPage` and `CreateCategoryDir`. Their
  composition is not.
- argparse and CLI wiring, logging and `print`. The `Status` result of
  `Baidu.BaiduSpider.Download` stands for its log messages.
- The float `timeout`.
- Path semantics. A path is `dir + "/" + name`, with no normalisation, and an
  absolute name does not replace the directory. Parent directories are not
  modelled, so `mkdir(parents=True)` is a plain `mkdir`. Creating a file or
  directory under a missing parent is not an error in the model.
- `FileStore.FileSystem.MkDir`: `os.mkdir` can also fail for reasons the store
  does not model (permissions, a missing parent). SougouSpider.py:39-42 and
  53-56 print such errors and ignore them.
- `Seqs.Dedup`: `list(set(xs))` returns the elements in an arbitrary order.
  Only "no repetition, same elements" is claimed of the source. The model
  keeps the order of first appearance, which is what the Sogou dictionary's
  keys have (`Seqs.DedupFirstOccurrenceOrder`).
- `Strings.ParseInt`: the model skips exactly the six ASCII white-space
  characters `int()` skips, and not U+001C to U+001F, which `str.strip()` would
  remove. Python's `int()` also accepts `_` between digits, non-ASCII decimal
  digits and non-ASCII white space; the model rejects all three.
- `Sougou.CheckValidCategoryIndex`: `str.isnumeric()` is also true of non-ASCII
  numeric characters, for which `int()` may raise ValueError. The model treats
  only ASCII digits as numeric.
