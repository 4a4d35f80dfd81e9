/** The deterministic core of the Baidu dictionary crawler (BaiduSpider.py):
    download names and URLs, category directory names, the page-range rule,
    category lists, and the idempotent steps that create a category directory
    and download one dictionary file. */
module Baidu {
  import opened Base
  import opened Strings
  import opened Seqs
  import opened FileStore

  const RootUrl := "https://shurufa.baidu.com/dict"
  const CategoryQuery := "https://shurufa.baidu.com/dict_list?cid"
  const CategoryUrlPrefix := CategoryQuery + "="
  const PageParameter := "&page="
  const DownloadUrlPrefix := "https://shurufa.baidu.com/dict_innerid_download?innerid="
  const Extension := ".bdict"

  /** What one download step did; the crawler reports each in its log. */
  datatype Status = Skipped | Empty | Written

  /** The `dict-name` and `dict-innerid` attributes of one download link on a page. */
  datatype DictEntry = DictEntry(name: string, innerId: string)

  /** The arguments of one submitted `__download` call. */
  datatype DownloadTask = DownloadTask(name: string, url: string, categoryPath: string)

  /** The arguments of one submitted `__download_page` call. */
  datatype PageTask = PageTask(url: string, categoryPath: string)

  // ---------------------------------------------------------------------------
  // Names and URLs

  /** The file name of a dictionary: its display name with every `/` replaced
      by `-`, then `_`, then its inner id. */
  function DownloadName(dictName: string, innerId: string): (r: string)
    ensures |r| == |dictName| + 1 + |innerId|
    ensures forall i :: 0 <= i < |dictName| ==> r[i] == if dictName[i] == '/' then '-' else dictName[i]
    ensures '/' !in r[..|dictName|]
    ensures r[|dictName|] == '_' && r[|dictName| + 1..] == innerId
  {
    ReplaceChar(dictName, '/', '-') + "_" + innerId
  }

  /** An inner id without `_` is exactly the part of the download name after its last `_`. */
  lemma InnerIdRecoverable(dictName: string, innerId: string)
    requires '_' !in innerId
    ensures AfterLast(DownloadName(dictName, innerId), '_') == innerId
  {
    var x := ReplaceChar(dictName, '/', '-');
    assert DownloadName(dictName, innerId) == x + ['_'] + innerId;
    AfterLastOfSeparated(x, '_', innerId);
  }

  /** Dictionaries whose inner ids differ (and contain no `_`) never share a file name,
      whatever their display names are. */
  lemma DistinctInnerIdsGiveDistinctNames(name1: string, id1: string, name2: string, id2: string)
    requires '_' !in id1 && '_' !in id2 && id1 != id2
    ensures DownloadName(name1, id1) != DownloadName(name2, id2)
  {
    InnerIdRecoverable(name1, id1);
    InnerIdRecoverable(name2, id2);
  }

  /** The download URL of a dictionary: the fixed prefix followed by its inner id,
      which can be read back from it. */
  function DownloadUrl(innerId: string): (url: string)
    ensures InnerIdOfUrl(url) == Some(innerId)
  {
    var url := DownloadUrlPrefix + innerId;
    assert url[..|DownloadUrlPrefix|] == DownloadUrlPrefix && url[|DownloadUrlPrefix|..] == innerId;
    url
  }

  /** The inner id a download URL names, if it has the download prefix. */
  function InnerIdOfUrl(url: string): Option<string>
  {
    if |DownloadUrlPrefix| <= |url| && url[..|DownloadUrlPrefix|] == DownloadUrlPrefix
    then Some(url[|DownloadUrlPrefix|..]) else None
  }

  /** A URL names inner id `innerId` exactly when it is that id's download URL. */
  lemma DownloadUrlRoundTrip(innerId: string, url: string)
    ensures InnerIdOfUrl(DownloadUrl(innerId)) == Some(innerId)
    ensures InnerIdOfUrl(url) == Some(innerId) <==> url == DownloadUrl(innerId)
  {
    assert DownloadUrl(innerId)[..|DownloadUrlPrefix|] == DownloadUrlPrefix;
    assert DownloadUrl(innerId)[|DownloadUrlPrefix|..] == innerId;
    if InnerIdOfUrl(url) == Some(innerId) {
      assert url == url[..|DownloadUrlPrefix|] + url[|DownloadUrlPrefix|..];
    }
  }

  /** `category_path / (name + ".bdict")`: a path inside the category directory
      that ends in `.bdict`. */
  function BdictPath(categoryPath: string, name: string): string
  {
    FileIn(categoryPath, name, Extension)
  }

  /** The download tasks `__download_page` submits for the entries found on one
      page, one per entry, in order. The contract is the definition. */
  function PageDownloads(entries: seq<DictEntry>, categoryPath: string): (tasks: seq<DownloadTask>)
    ensures |tasks| == |entries|
    ensures forall i :: 0 <= i < |entries| ==>
      tasks[i] == DownloadTask(DownloadName(entries[i].name, entries[i].innerId),
                               DownloadUrl(entries[i].innerId), categoryPath)
  {
    seq(|entries|, i requires 0 <= i < |entries| =>
      DownloadTask(DownloadName(entries[i].name, entries[i].innerId), DownloadUrl(entries[i].innerId), categoryPath))
  }

  /** Entries of one page with pairwise distinct inner ids (none holding `_`) are
      written to pairwise distinct files. */
  lemma PageDownloadPathsDistinct(entries: seq<DictEntry>, categoryPath: string, i: nat, j: nat)
    requires i < j < |entries|
    requires forall k :: 0 <= k < |entries| ==> '_' !in entries[k].innerId
    requires entries[i].innerId != entries[j].innerId
    ensures var tasks := PageDownloads(entries, categoryPath);
      BdictPath(categoryPath, tasks[i].name) != BdictPath(categoryPath, tasks[j].name)
  {
    var tasks := PageDownloads(entries, categoryPath);
    DistinctInnerIdsGiveDistinctNames(entries[i].name, entries[i].innerId, entries[j].name, entries[j].innerId);
    FileInInjective(categoryPath, tasks[i].name, tasks[j].name, Extension);
  }

  // ---------------------------------------------------------------------------
  // Categories

  /** `"https://shurufa.baidu.com/dict_list?cid=" + category`: its first `=` is the
      one before the id, so the id a category link is read with comes back out. */
  function CategoryUrl(category: string): (url: string)
    ensures CategoryIdOfHref(url) == category
  {
    assert CategoryUrlPrefix + category == CategoryQuery + ['='] + category;
    AfterFirstOfSeparated(CategoryQuery, '=', category);
    CategoryUrlPrefix + category
  }

  /** The directory name of a category: the part of the page title after its
      last `-` (the whole title when it has none), then `_`, then the id. */
  function CategoryDirName(title: string, category: string): (r: string)
    ensures '-' !in title ==> r == title + "_" + category
    ensures '-' in title ==> exists k :: 0 <= k < |title| && title[k] == '-' && '-' !in title[k + 1..] &&
                                         r == title[k + 1..] + "_" + category
    ensures |r| > |category| && r[|r| - |category| - 1..] == "_" + category
  {
    var suffix := AfterLast(title, '-');
    if '-' in title then
      var k := |title| - |suffix| - 1;
      assert title[k] == '-' && title[k + 1..] == suffix;
      suffix + "_" + category
    else
      suffix + "_" + category
  }

  /** `save_path / dir_name`: a directory inside the save path whose name ends
      in `_` and the category id. */
  function CategoryPath(savePath: string, title: string, category: string): (p: string)
    ensures |p| > |savePath| + |category| + 1
    ensures p[..|savePath|] == savePath && p[|savePath|] == '/'
    ensures p[|p| - |category| - 1..] == "_" + category
  {
    var name := CategoryDirName(title, category);
    var p := Join(savePath, name);
    assert p[|savePath| + 1..] == name;
    assert p[|p| - |category| - 1..] == p[|savePath| + 1..][|name| - |category| - 1..];
    p
  }

  /** The category id of a category link: everything after the first `=` of its href. */
  function CategoryIdOfHref(href: string): (r: string)
    ensures '=' in href ==> exists k :: 0 <= k < |href| && href[k] == '=' && '=' !in href[..k] && r == href[k + 1..]
    ensures '=' !in href ==> r == ""
  {
    var r := AfterFirst(href, '=');
    if '=' in href then
      var k := |href| - |r| - 1;
      assert href[k] == '=' && href[k + 1..] == r;
      r
    else r
  }

  /** The categories `download_dicts` submits: the given ones without repetition
      (`list(set(categories))`), or, when none are given, the ids of the category
      links of the root page, in page order. */
  function Categories(given: Option<seq<string>>, hrefs: seq<string>): (r: seq<string>)
    ensures given.Some? ==> Distinct(r) && forall c :: c in r <==> c in given.value
    ensures given.None? ==> |r| == |hrefs| && forall i :: 0 <= i < |hrefs| ==> r[i] == CategoryIdOfHref(hrefs[i])
  {
    match given
    case Some(cs) => Dedup(cs)
    case None => seq(|hrefs|, i requires 0 <= i < |hrefs| => CategoryIdOfHref(hrefs[i]))
  }

  /** `categories is None` tests for None only: an empty list given downloads no
      category (where the Sogou crawler falls back to the root page's links). */
  lemma EmptyGivenDownloadsNothing(hrefs: seq<string>)
    ensures Categories(Some([]), hrefs) == []
  {
  }

  // ---------------------------------------------------------------------------
  // Pages

  /** The page numbers of a category, from the texts of its pagination links:
      page 1 alone with fewer than two links, otherwise 1 up to the number the
      second-to-last link shows; a text that is no integer raises ValueError. */
  function PageNumbers(pageLinks: seq<string>): (r: Result<seq<int>>)
    ensures |pageLinks| < 2 ==> r == Ok([1])
    ensures |pageLinks| >= 2 ==>
      match ParseInt(pageLinks[|pageLinks| - 2])
      case None => r == Err(ValueError)
      case Some(n) => r.Ok? && |r.value| == (if n > 0 then n else 0) &&
                      forall i :: 0 <= i < |r.value| ==> r.value[i] == i + 1
  {
    if |pageLinks| < 2 then
      var pages := Range(1, 2);
      assert pages == [1];
      Ok(pages)
    else match ParseInt(pageLinks[|pageLinks| - 2])
      case None => Err(ValueError)
      case Some(n) => Ok(Range(1, n + 1))
  }

  /** `category_url + "&page=" + str(page)`: the page number can be read back
      from what follows `&page=`. */
  function PageUrl(categoryUrl: string, page: int): (u: string)
    ensures |categoryUrl + PageParameter| <= |u| && u[..|categoryUrl + PageParameter|] == categoryUrl + PageParameter
    ensures ParseInt(u[|categoryUrl + PageParameter|..]) == Some(page)
  {
    var u := categoryUrl + PageParameter + IntToString(page);
    assert u[|categoryUrl + PageParameter|..] == IntToString(page);
    ParseIntRoundTrip(page);
    u
  }

  /** Different pages of one category have different page URLs. */
  lemma PageUrlsDistinct(categoryUrl: string, p: int, q: int)
    requires p != q
    ensures PageUrl(categoryUrl, p) != PageUrl(categoryUrl, q)
  {
  }

  /** The page tasks `__download_category` submits: one per page number, in order.
      The contract is the definition. */
  function PageTasks(categoryUrl: string, categoryPath: string, pages: seq<int>): (tasks: seq<PageTask>)
    ensures |tasks| == |pages|
    ensures forall i :: 0 <= i < |pages| ==> tasks[i] == PageTask(PageUrl(categoryUrl, pages[i]), categoryPath)
  {
    seq(|pages|, i requires 0 <= i < |pages| => PageTask(PageUrl(categoryUrl, pages[i]), categoryPath))
  }

  /** The tasks a category with the given pagination links expands to, once its
      directory has been created. */
  function CategoryTasks(category: string, path: string, pageLinks: seq<string>): (r: Result<seq<PageTask>>)
    ensures |pageLinks| < 2 ==> r.Ok? && |r.value| == 1
    ensures r.Err? ==> |pageLinks| >= 2 && ParseInt(pageLinks[|pageLinks| - 2]).None? && r.error == ValueError
    ensures r.Ok? ==> forall t :: t in r.value ==> t.categoryPath == path
  {
    match PageNumbers(pageLinks)
    case Err(e) => Err(e)
    case Ok(pages) => Ok(PageTasks(CategoryUrl(category), path, pages))
  }

  /** A category with fewer than two pagination links gets exactly one page task, for page 1. */
  lemma SinglePageCategory(category: string, path: string, pageLinks: seq<string>)
    requires |pageLinks| < 2
    ensures CategoryTasks(category, path, pageLinks) == Ok([PageTask(CategoryUrl(category) + "&page=1", path)])
  {
    assert IntToString(1) == "1";
    assert PageUrl(CategoryUrl(category), 1) == CategoryUrl(category) + "&page=1";
    var tasks := PageTasks(CategoryUrl(category), path, [1]);
    assert tasks == [PageTask(CategoryUrl(category) + "&page=1", path)];
  }

  /** Otherwise the page tasks are for pages 1 .. n exactly, one each, where n
      is the number the second-to-last pagination link shows. */
  lemma PagedCategory(category: string, path: string, pageLinks: seq<string>, n: int)
    requires |pageLinks| >= 2 && ParseInt(pageLinks[|pageLinks| - 2]) == Some(n)
    ensures CategoryTasks(category, path, pageLinks).Ok?
    ensures var tasks := CategoryTasks(category, path, pageLinks).value;
      |tasks| == (if n > 0 then n else 0) &&
      (forall k :: 1 <= k <= n ==> tasks[k - 1] == PageTask(PageUrl(CategoryUrl(category), k), path)) &&
      (forall i, j :: 0 <= i < j < |tasks| ==> tasks[i] != tasks[j])
  {
    var pages := Range(1, n + 1);
    assert PageNumbers(pageLinks) == Ok(pages);
    assert CategoryTasks(category, path, pageLinks) == Ok(PageTasks(CategoryUrl(category), path, pages));
    PageTasksOfRange(CategoryUrl(category), path, n);
  }

  /** The page tasks for pages 1 .. n: the k-th is for page k, and no two are equal. */
  lemma PageTasksOfRange(categoryUrl: string, path: string, n: int)
    ensures var tasks := PageTasks(categoryUrl, path, Range(1, n + 1));
      (forall k :: 1 <= k <= n ==> tasks[k - 1] == PageTask(PageUrl(categoryUrl, k), path)) &&
      (forall i, j :: 0 <= i < j < |tasks| ==> tasks[i] != tasks[j])
  {
    var pages := Range(1, n + 1);
    var tasks := PageTasks(categoryUrl, path, pages);
    forall k | 1 <= k <= n ensures tasks[k - 1] == PageTask(PageUrl(categoryUrl, k), path) {
      assert pages[k - 1] == k;
    }
    forall i, j | 0 <= i < j < |tasks| ensures tasks[i] != tasks[j] {
      PageUrlsDistinct(categoryUrl, pages[i], pages[j]);
    }
  }

  // ---------------------------------------------------------------------------
  // The crawler's state: the file system, the network and what was fetched

  class BaiduSpider {
    const fs: FileSystem
    const savePath: string
    const skipCategories: seq<string>
    /** The remote site: the body each URL returns, or None when the fetch fails. */
    const remote: string -> Option<Bytes>
    /** Every URL fetched so far, in order. */
    var requests: seq<string>

    constructor (fs: FileSystem, savePath: string, skipCategories: seq<string>, remote: string -> Option<Bytes>)
      ensures this.fs == fs && this.savePath == savePath && this.skipCategories == skipCategories
      ensures this.remote == remote && requests == []
    {
      this.fs := fs;
      this.savePath := savePath;
      this.skipCategories := skipCategories;
      this.remote := remote;
      requests := [];
    }

    /** `__get_html(url)`: one fetch, recorded. */
    method Fetch(url: string) returns (body: Option<Bytes>)
      modifies this
      ensures body == remote(url) && requests == old(requests) + [url]
    {
      requests := requests + [url];
      body := remote(url);
    }

    /** `__create_category_dir`: skip (false) when the directory exists and the
        category is one to skip, leaving the store alone; otherwise make sure the
        directory exists (true). A file in its place raises FileExistsError. */
    method CreateCategoryDir(category: string, categoryPath: string) returns (r: Result<bool>)
      requires fs.Valid()
      modifies fs
      ensures fs.Valid() && fs.files == old(fs.files)
      ensures r == Ok(false) <==> old(fs.IsDir(categoryPath)) && category in skipCategories
      ensures r == Ok(false) ==> fs.dirs == old(fs.dirs)
      ensures r.Err? <==> old(fs.IsFile(categoryPath))
      ensures r.Err? ==> r.error == FileExistsError && fs.dirs == old(fs.dirs)
      ensures r == Ok(true) ==> fs.IsDir(categoryPath) && fs.dirs == old(fs.dirs) + {categoryPath}
    {
      if fs.IsDir(categoryPath) && category in skipCategories {
        return Ok(false);
      }
      var made := fs.MkDir(categoryPath, true);
      if made.Fail? {
        return Err(made.error);
      }
      r := Ok(true);
    }

    /** `__download`: an existing file is kept and nothing is fetched; an empty
        body writes nothing; any other body becomes exactly the file's content. */
    method Download(name: string, url: string, categoryPath: string) returns (r: Result<Status>)
      requires fs.Valid()
      modifies this, fs
      ensures fs.Valid() && fs.dirs == old(fs.dirs)
      ensures var path := BdictPath(categoryPath, name);
        if old(fs.IsFile(path)) then
          r == Ok(Skipped) && requests == old(requests) && fs.files == old(fs.files)
        else
          requests == old(requests) + [url] &&
          match remote(url)
          case None => r == Err(TransportError) && fs.files == old(fs.files)
          case Some(content) =>
            if content == [] then r == Ok(Empty) && fs.files == old(fs.files)
            else if old(fs.IsDir(path)) then r == Err(IsADirectoryError) && fs.files == old(fs.files)
            else r == Ok(Written) && fs.files == old(fs.files)[path := content]
    {
      var path := BdictPath(categoryPath, name);
      if fs.IsFile(path) {
        return Ok(Skipped);
      }
      var body := Fetch(url);
      if body.None? {
        return Err(TransportError);
      }
      if body.value == [] {
        return Ok(Empty);
      }
      var written := fs.WriteBytes(path, body.value);
      if written.Fail? {
        return Err(written.error);
      }
      r := Ok(Written);
    }

    /** `__download_page`: fetch the page, then one download task per entry the
        page lists. */
    method DownloadPage(pageUrl: string, categoryPath: string, entries: seq<DictEntry>)
      returns (r: Result<seq<DownloadTask>>)
      modifies this
      ensures requests == old(requests) + [pageUrl]
      ensures r == if remote(pageUrl).None? then Err(TransportError) else Ok(PageDownloads(entries, categoryPath))
    {
      var body := Fetch(pageUrl);
      if body.None? {
        return Err(TransportError);
      }
      r := Ok(PageDownloads(entries, categoryPath));
    }

    /** `__download_category`: fetch the category page, decide on its directory,
        then one page task per page number. `title` and `pageLinks` are what the
        category page shows. */
    method DownloadCategory(category: string, title: string, pageLinks: seq<string>)
      returns (r: Result<seq<PageTask>>)
      requires fs.Valid()
      modifies this, fs
      ensures fs.Valid() && fs.files == old(fs.files)
      ensures requests == old(requests) + [CategoryUrl(category)]
      ensures var path := CategoryPath(savePath, title, category);
        if remote(CategoryUrl(category)).None? then
          r == Err(TransportError) && fs.dirs == old(fs.dirs)
        else if old(fs.IsDir(path)) && category in skipCategories then
          r == Ok([]) && fs.dirs == old(fs.dirs)
        else if old(fs.IsFile(path)) then
          r == Err(FileExistsError) && fs.dirs == old(fs.dirs)
        else
          fs.dirs == old(fs.dirs) + {path} && r == CategoryTasks(category, path, pageLinks)
    {
      var categoryUrl := CategoryUrl(category);
      var body := Fetch(categoryUrl);
      if body.None? {
        return Err(TransportError);
      }
      var path := CategoryPath(savePath, title, category);
      var created := CreateCategoryDir(category, path);
      match created
      case Err(e) =>
        r := Err(e);
      case Ok(false) =>
        r := Ok([]);
      case Ok(true) =>
        r := CategoryTasks(category, path, pageLinks);
    }

    /** The start of `download_dicts`: make sure the save directory exists, then
        the categories to crawl, fetching the root page only when none are given.
        `hrefs` are the category links the root page shows. */
    method DownloadDicts(given: Option<seq<string>>, hrefs: seq<string>) returns (r: Result<seq<string>>)
      requires fs.Valid()
      modifies this, fs
      ensures fs.Valid() && fs.files == old(fs.files)
      ensures old(fs.IsFile(savePath)) ==>
        r == Err(FileExistsError) && fs.dirs == old(fs.dirs) && requests == old(requests)
      ensures !old(fs.IsFile(savePath)) ==>
        fs.dirs == old(fs.dirs) + {savePath} &&
        if given.Some? then requests == old(requests) && r == Ok(Categories(given, hrefs))
        else requests == old(requests) + [RootUrl] &&
             r == if remote(RootUrl).None? then Err(TransportError) else Ok(Categories(given, hrefs))
    {
      var made := fs.MkDir(savePath, true);
      if made.Fail? {
        return Err(made.error);
      }
      if given.None? {
        var body := Fetch(RootUrl);
        if body.None? {
          return Err(TransportError);
        }
      }
      r := Ok(Categories(given, hrefs));
    }
  }
}
