/** The deterministic core of the Sogou dictionary crawler (SougouSpider.py):
    name sanitisation, the `downloadUrls` dictionary, the page-range rule, the
    category directory, command-line index validation, and the download loop
    over a file store. */
module Sougou {
  import opened Base
  import opened Strings
  import opened Seqs
  import opened FileStore

  const PageInfix := "/default/"
  const Extension := ".scel"

  // ---------------------------------------------------------------------------
  // Names

  /** The five characters a dictionary name may not keep in a file name. */
  predicate IsUnsafe(c: char)
  {
    c == '/' || c == ',' || c == '|' || c == '\\' || c == '\''
  }

  /** The chained `.replace(..., "-")` calls: each unsafe character becomes `-`,
      every other character stays where it is. */
  function Sanitize(name: string): (r: string)
    ensures |r| == |name|
    ensures forall i :: 0 <= i < |name| ==> r[i] == if IsUnsafe(name[i]) then '-' else name[i]
    ensures forall i :: 0 <= i < |r| ==> !IsUnsafe(r[i])
  {
    ReplaceChar(ReplaceChar(ReplaceChar(ReplaceChar(ReplaceChar(name, '/', '-'), ',', '-'), '|', '-'), '\\', '-'), '\'', '-')
  }

  /** Sanitising a sanitised name changes nothing. */
  lemma SanitizeIdempotent(name: string)
    ensures Sanitize(Sanitize(name)) == Sanitize(name)
  {
    var once := Sanitize(name);
    var twice := Sanitize(once);
    assert forall i :: 0 <= i < |once| ==> twice[i] == once[i];
  }

  /** A name with no unsafe character is its own sanitised form. */
  lemma SanitizeSafe(name: string)
    requires forall i :: 0 <= i < |name| ==> !IsUnsafe(name[i])
    ensures Sanitize(name) == name
  {
    var r := Sanitize(name);
    assert forall i :: 0 <= i < |name| ==> r[i] == name[i];
  }

  // ---------------------------------------------------------------------------
  // The downloadUrls dictionary

  /** One `dict_dl_btn` link of a listing page: the URL-decoded `name=` part of
      its href, and the href. */
  datatype Entry = Entry(name: string, href: string)

  /** A Python dict from file key to download URL: its (key, value) pairs in
      insertion order. */
  type UrlTable = seq<(string, string)>

  function KeysOf(t: UrlTable): (keys: seq<string>)
    ensures |keys| == |t| && forall i :: 0 <= i < |t| ==> keys[i] == t[i].0
  {
    if t == [] then [] else [t[0].0] + KeysOf(t[1..])
  }

  predicate DistinctKeys(t: UrlTable)
  {
    Distinct(KeysOf(t))
  }

  /** `d.get(key)`. */
  function Lookup(t: UrlTable, key: string): (r: Option<string>)
    ensures r.Some? <==> key in KeysOf(t)
  {
    if t == [] then None else if t[0].0 == key then Some(t[0].1) else Lookup(t[1..], key)
  }

  /** `d[key] = value`: a new key is appended; an existing one keeps its place
      and takes the new value. */
  function Assign(t: UrlTable, key: string, value: string): (r: UrlTable)
    ensures KeysOf(r) == if key in KeysOf(t) then KeysOf(t) else KeysOf(t) + [key]
    ensures Lookup(r, key) == Some(value)
    ensures forall k :: k != key ==> Lookup(r, k) == Lookup(t, k)
  {
    if t == [] then [(key, value)]
    else if t[0].0 == key then
      var r := [(key, value)] + t[1..];
      assert r[1..] == t[1..];
      r
    else
      var rest := Assign(t[1..], key, value);
      var r := [t[0]] + rest;
      assert r[0] == t[0] && r[1..] == rest;
      assert KeysOf(t) == [t[0].0] + KeysOf(t[1..]);
      assert KeysOf(r) == [t[0].0] + KeysOf(rest);
      r
  }

  /** The dictionary the page loop builds: one assignment per entry, in order. */
  function BuildTable(entries: seq<Entry>): UrlTable
  {
    if entries == [] then []
    else
      var last := entries[|entries| - 1];
      Assign(BuildTable(entries[..|entries| - 1]), Sanitize(last.name), last.href)
  }

  /** The sanitised names of the entries, in order. The contract is the definition. */
  function SanitizedNames(entries: seq<Entry>): (names: seq<string>)
    ensures |names| == |entries| && forall i :: 0 <= i < |entries| ==> names[i] == Sanitize(entries[i].name)
  {
    seq(|entries|, i requires 0 <= i < |entries| => Sanitize(entries[i].name))
  }

  /** The href of the last entry whose name sanitises to `key`. */
  function LastHrefFor(entries: seq<Entry>, key: string): Option<string>
  {
    if entries == [] then None
    else if Sanitize(entries[|entries| - 1].name) == key then Some(entries[|entries| - 1].href)
    else LastHrefFor(entries[..|entries| - 1], key)
  }

  /** The keys of the dictionary are the distinct sanitised names, in order of
      first appearance; so no key occurs twice. */
  lemma {:induction false} BuildTableKeys(entries: seq<Entry>)
    ensures KeysOf(BuildTable(entries)) == Dedup(SanitizedNames(entries))
    ensures DistinctKeys(BuildTable(entries))
  {
    if entries != [] {
      var init := entries[..|entries| - 1];
      BuildTableKeys(init);
      assert SanitizedNames(entries)[..|entries| - 1] == SanitizedNames(init);
    }
  }

  /** Every key maps to the href of the LAST entry with that sanitised name:
      a later entry overrides an earlier one with the same key. */
  lemma {:induction false} BuildTableLastWins(entries: seq<Entry>, key: string)
    ensures Lookup(BuildTable(entries), key) == LastHrefFor(entries, key)
  {
    if entries != [] {
      BuildTableLastWins(entries[..|entries| - 1], key);
    }
  }

  /** The inner loop of `DownloadDicts` that fills `downloadUrls` from one page. */
  method CollectDownloadUrls(entries: seq<Entry>) returns (t: UrlTable)
    ensures t == BuildTable(entries)
    ensures KeysOf(t) == Dedup(SanitizedNames(entries)) && DistinctKeys(t)
    ensures forall key :: Lookup(t, key) == LastHrefFor(entries, key)
  {
    t := [];
    var i := 0;
    while i < |entries|
      invariant 0 <= i <= |entries|
      invariant t == BuildTable(entries[..i])
    {
      assert entries[..i + 1][..i] == entries[..i];
      t := Assign(t, Sanitize(entries[i].name), entries[i].href);
      i := i + 1;
    }
    assert entries[..i] == entries;
    BuildTableKeys(entries);
    forall key ensures Lookup(t, key) == LastHrefFor(entries, key) {
      BuildTableLastWins(entries, key);
    }
  }

  // ---------------------------------------------------------------------------
  // The download loop, as a function of the store before it

  /** `categoryPath + "/" + key + ".scel"`: a path inside the category directory
      that ends in `.scel`. */
  function ScelPath(categoryPath: string, key: string): string
  {
    FileIn(categoryPath, key, Extension)
  }

  /** The state of the download loop: the files, the URLs fetched so far, and
      whether a fetch has failed (which ends the loop). */
  datatype Run = Run(files: map<string, Bytes>, fetched: seq<string>, failed: bool)

  /** One iteration: an existing path is skipped; otherwise the file is opened
      for writing (created empty) and then filled with the fetched body. A
      failed fetch leaves the empty file behind and stops the loop. */
  function DownloadStep(dirs: set<string>, categoryPath: string, remote: string -> Option<Bytes>,
                        run: Run, key: string, url: string): (next: Run)
    ensures run.failed ==> next == run
    ensures ScelPath(categoryPath, key) in dirs || ScelPath(categoryPath, key) in run.files ==> next == run
    ensures next.fetched == run.fetched || next.fetched == run.fetched + [url]
  {
    var path := ScelPath(categoryPath, key);
    if run.failed || path in dirs || path in run.files then run
    else match remote(url)
      case None => Run(run.files[path := []], run.fetched + [url], true)
      case Some(content) => Run(run.files[path := content], run.fetched + [url], false)
  }

  /** The whole loop over the dictionary's pairs, in order: each pair is
      fetched at most once, and a failure is always a failed fetch. */
  function DownloadRun(dirs: set<string>, files: map<string, Bytes>, categoryPath: string,
                       remote: string -> Option<Bytes>, table: UrlTable): (run: Run)
    ensures |run.fetched| <= |table|
    ensures run.failed ==> run.fetched != []
  {
    if table == [] then Run(files, [], false)
    else
      var last := table[|table| - 1];
      DownloadStep(dirs, categoryPath, remote, DownloadRun(dirs, files, categoryPath, remote, table[..|table| - 1]),
                   last.0, last.1)
  }

  /** The URLs of the pairs whose `.scel` path existed neither as a directory nor
      as a file before the loop, in table order. The contract is the definition. */
  function MissingUrls(dirs: set<string>, files: map<string, Bytes>, categoryPath: string, table: UrlTable): (urls: seq<string>)
    ensures |urls| <= |table|
  {
    if table == [] then []
    else
      var last := table[|table| - 1];
      var p := ScelPath(categoryPath, last.0);
      MissingUrls(dirs, files, categoryPath, table[..|table| - 1]) + (if p in dirs || p in files then [] else [last.1])
  }

  /** The loop over the first i + 1 pairs is the loop over the first i, then one step. */
  lemma DownloadRunSnoc(dirs: set<string>, files: map<string, Bytes>, categoryPath: string,
                        remote: string -> Option<Bytes>, table: UrlTable, i: nat)
    requires i < |table|
    ensures DownloadRun(dirs, files, categoryPath, remote, table[..i + 1]) ==
            DownloadStep(dirs, categoryPath, remote, DownloadRun(dirs, files, categoryPath, remote, table[..i]),
                         table[i].0, table[i].1)
  {
    assert table[..i + 1][..i] == table[..i];
  }

  /** A path that existed before the loop, file or directory, is left exactly as it was. */
  lemma {:induction false} DownloadRunKeepsExisting(dirs: set<string>, files: map<string, Bytes>, categoryPath: string,
                                                    remote: string -> Option<Bytes>, table: UrlTable, p: string)
    requires p in dirs || p in files
    ensures var run := DownloadRun(dirs, files, categoryPath, remote, table);
      (p in run.files <==> p in files) && (p in files ==> run.files[p] == files[p])
  {
    if table != [] {
      DownloadRunKeepsExisting(dirs, files, categoryPath, remote, table[..|table| - 1], p);
    }
  }

  /** A path that is no key's `.scel` path is left exactly as it was. */
  lemma {:induction false} DownloadRunFrame(dirs: set<string>, files: map<string, Bytes>, categoryPath: string,
                                            remote: string -> Option<Bytes>, table: UrlTable, p: string)
    requires forall i :: 0 <= i < |table| ==> p != ScelPath(categoryPath, table[i].0)
    ensures var run := DownloadRun(dirs, files, categoryPath, remote, table);
      (p in run.files <==> p in files) && (p in files ==> run.files[p] == files[p])
  {
    if table != [] {
      DownloadRunFrame(dirs, files, categoryPath, remote, table[..|table| - 1], p);
    }
  }

  /** With distinct keys, the last pair of a run that has not failed is fetched
      exactly when its path did not exist before the loop. */
  lemma DownloadRunLastFetch(dirs: set<string>, files: map<string, Bytes>, categoryPath: string,
                             remote: string -> Option<Bytes>, table: UrlTable)
    requires DistinctKeys(table) && table != []
    requires !DownloadRun(dirs, files, categoryPath, remote, table).failed
    ensures var n := |table| - 1;
      var p := ScelPath(categoryPath, table[n].0);
      var pre := DownloadRun(dirs, files, categoryPath, remote, table[..n]);
      !pre.failed &&
      DownloadRun(dirs, files, categoryPath, remote, table).fetched ==
        pre.fetched + (if p in dirs || p in files then [] else [table[n].1])
  {
    var n := |table| - 1;
    var init := table[..n];
    var p := ScelPath(categoryPath, table[n].0);
    var pre := DownloadRun(dirs, files, categoryPath, remote, init);
    forall j | 0 <= j < |init| ensures p != ScelPath(categoryPath, init[j].0) {
      DistinctKeyPaths(table, categoryPath, j, |table| - 1);
    }
    DownloadRunFrame(dirs, files, categoryPath, remote, init, p);
    DownloadStepFetches(dirs, categoryPath, remote, pre, table[n].0, table[n].1);
  }

  /** With distinct keys and no failed fetch, the loop fetches exactly the URLs
      of the keys whose path did not exist, in table order: an existing path is
      never fetched, and a missing one is fetched once. */
  lemma {:induction false} DownloadRunFetchesMissing(dirs: set<string>, files: map<string, Bytes>, categoryPath: string,
                                                     remote: string -> Option<Bytes>, table: UrlTable)
    requires DistinctKeys(table)
    requires !DownloadRun(dirs, files, categoryPath, remote, table).failed
    ensures DownloadRun(dirs, files, categoryPath, remote, table).fetched == MissingUrls(dirs, files, categoryPath, table)
  {
    if table != [] {
      var n := |table| - 1;
      var init := table[..n];
      DownloadRunLastFetch(dirs, files, categoryPath, remote, table);
      assert DistinctKeys(init) by {
        assert KeysOf(init) == KeysOf(table)[..n];
      }
      DownloadRunFetchesMissing(dirs, files, categoryPath, remote, init);
    }
  }

  /** A step of a run that has not failed fetches its URL exactly when its path does not exist. */
  lemma DownloadStepFetches(dirs: set<string>, categoryPath: string, remote: string -> Option<Bytes>,
                            run: Run, key: string, url: string)
    ensures var p := ScelPath(categoryPath, key);
      var next := DownloadStep(dirs, categoryPath, remote, run, key, url);
      !next.failed ==> !run.failed && next.fetched == run.fetched + (if p in dirs || p in run.files then [] else [url])
  {
  }

  /** One step touches at most its own key's path, and a failed run stays failed. */
  lemma DownloadStepFrame(dirs: set<string>, categoryPath: string, remote: string -> Option<Bytes>,
                          run: Run, key: string, url: string, p: string)
    requires p != ScelPath(categoryPath, key)
    ensures var next := DownloadStep(dirs, categoryPath, remote, run, key, url);
      (p in next.files <==> p in run.files) && (p in run.files ==> next.files[p] == run.files[p]) &&
      (run.failed ==> next.failed)
  {
  }

  /** Within one table with distinct keys, any two pairs have different paths. */
  lemma DistinctKeyPaths(table: UrlTable, categoryPath: string, i: nat, j: nat)
    requires DistinctKeys(table) && i < j < |table|
    ensures ScelPath(categoryPath, table[i].0) != ScelPath(categoryPath, table[j].0)
  {
    assert KeysOf(table)[i] != KeysOf(table)[j];
    FileInInjective(categoryPath, table[i].0, table[j].0, Extension);
  }

  /** The last key of a successful run, when its path did not exist, holds what its URL returned. */
  lemma DownloadRunWritesLast(dirs: set<string>, files: map<string, Bytes>, categoryPath: string,
                              remote: string -> Option<Bytes>, table: UrlTable)
    requires DistinctKeys(table) && table != []
    requires !DownloadRun(dirs, files, categoryPath, remote, table).failed
    requires ScelPath(categoryPath, table[|table| - 1].0) !in dirs && ScelPath(categoryPath, table[|table| - 1].0) !in files
    ensures var run := DownloadRun(dirs, files, categoryPath, remote, table);
      var p := ScelPath(categoryPath, table[|table| - 1].0);
      p in run.files && remote(table[|table| - 1].1) == Some(run.files[p])
  {
    var n := |table| - 1;
    var init := table[..n];
    var p := ScelPath(categoryPath, table[n].0);
    forall j | 0 <= j < |init| ensures p != ScelPath(categoryPath, init[j].0) {
      DistinctKeyPaths(table, categoryPath, j, |table| - 1);
    }
    DownloadRunFrame(dirs, files, categoryPath, remote, init, p);
  }

  /** When no fetch failed, every key whose path did not exist now has a file
      holding exactly the body its URL returned, empty bodies included. */
  lemma {:induction false} DownloadRunWritesMissing(dirs: set<string>, files: map<string, Bytes>, categoryPath: string,
                                                    remote: string -> Option<Bytes>, table: UrlTable, i: nat)
    requires DistinctKeys(table)
    requires !DownloadRun(dirs, files, categoryPath, remote, table).failed
    requires i < |table|
    requires ScelPath(categoryPath, table[i].0) !in dirs && ScelPath(categoryPath, table[i].0) !in files
    ensures var run := DownloadRun(dirs, files, categoryPath, remote, table);
      var p := ScelPath(categoryPath, table[i].0);
      p in run.files && remote(table[i].1) == Some(run.files[p])
    decreases |table|, 1
  {
    if i == |table| - 1 {
      DownloadRunWritesLast(dirs, files, categoryPath, remote, table);
    } else {
      DownloadRunWritesEarlier(dirs, files, categoryPath, remote, table, i);
    }
  }

  /** The same for a key before the last: the last step leaves its file alone. */
  lemma {:induction false} DownloadRunWritesEarlier(dirs: set<string>, files: map<string, Bytes>, categoryPath: string,
                                                    remote: string -> Option<Bytes>, table: UrlTable, i: nat)
    requires DistinctKeys(table)
    requires !DownloadRun(dirs, files, categoryPath, remote, table).failed
    requires i < |table| - 1
    requires ScelPath(categoryPath, table[i].0) !in dirs && ScelPath(categoryPath, table[i].0) !in files
    ensures var run := DownloadRun(dirs, files, categoryPath, remote, table);
      var p := ScelPath(categoryPath, table[i].0);
      p in run.files && remote(table[i].1) == Some(run.files[p])
    decreases |table|, 0
  {
    var n := |table| - 1;
    var init := table[..n];
    var pre := DownloadRun(dirs, files, categoryPath, remote, init);
    assert DownloadRun(dirs, files, categoryPath, remote, table) ==
           DownloadStep(dirs, categoryPath, remote, pre, table[n].0, table[n].1);
    var p := ScelPath(categoryPath, table[i].0);
    DistinctKeyPaths(table, categoryPath, i, n);
    DownloadStepFrame(dirs, categoryPath, remote, pre, table[n].0, table[n].1, p);
    assert DistinctKeys(init) by {
      assert KeysOf(init) == KeysOf(table)[..n];
    }
    assert init[i] == table[i];
    DownloadRunWritesMissing(dirs, files, categoryPath, remote, init, i);
  }

  /** When a fetch failed, some key's file was left empty and its URL returned nothing. */
  lemma {:induction false} DownloadRunFailureLeavesEmptyFile(dirs: set<string>, files: map<string, Bytes>, categoryPath: string,
                                                             remote: string -> Option<Bytes>, table: UrlTable)
    requires DownloadRun(dirs, files, categoryPath, remote, table).failed
    ensures var run := DownloadRun(dirs, files, categoryPath, remote, table);
      exists i :: 0 <= i < |table| && remote(table[i].1).None? &&
        ScelPath(categoryPath, table[i].0) in run.files && run.files[ScelPath(categoryPath, table[i].0)] == []
  {
    var n := |table| - 1;
    var init := table[..n];
    var pre := DownloadRun(dirs, files, categoryPath, remote, init);
    if pre.failed {
      DownloadRunFailureLeavesEmptyFile(dirs, files, categoryPath, remote, init);
      var i :| 0 <= i < |init| && remote(init[i].1).None? &&
        ScelPath(categoryPath, init[i].0) in pre.files && pre.files[ScelPath(categoryPath, init[i].0)] == [];
      assert table[i] == init[i];
    } else {
      assert remote(table[n].1).None?;
    }
  }

  /** Once a fetch has failed, the remaining pairs change nothing. */
  lemma {:induction false} DownloadRunStopsAfterFailure(dirs: set<string>, files: map<string, Bytes>, categoryPath: string,
                                                        remote: string -> Option<Bytes>, table: UrlTable, k: nat)
    requires k <= |table|
    requires DownloadRun(dirs, files, categoryPath, remote, table[..k]).failed
    ensures DownloadRun(dirs, files, categoryPath, remote, table) == DownloadRun(dirs, files, categoryPath, remote, table[..k])
  {
    if k < |table| {
      var init := table[..|table| - 1];
      assert init[..k] == table[..k];
      DownloadRunStopsAfterFailure(dirs, files, categoryPath, remote, init, k);
    } else {
      assert table[..k] == table;
    }
  }

  /** When every key's path already exists, the loop fetches nothing and changes nothing. */
  lemma {:induction false} DownloadRunAllPresent(dirs: set<string>, files: map<string, Bytes>, categoryPath: string,
                                                 remote: string -> Option<Bytes>, table: UrlTable)
    requires forall i :: 0 <= i < |table| ==> ScelPath(categoryPath, table[i].0) in dirs || ScelPath(categoryPath, table[i].0) in files
    ensures DownloadRun(dirs, files, categoryPath, remote, table) == Run(files, [], false)
  {
    if table != [] {
      DownloadRunAllPresent(dirs, files, categoryPath, remote, table[..|table| - 1]);
    }
  }

  /** Running the loop again over the store a successful run left behind skips
      every key: no fetch, no change. */
  lemma DownloadRunIdempotent(dirs: set<string>, files: map<string, Bytes>, categoryPath: string,
                              remote: string -> Option<Bytes>, table: UrlTable)
    requires DistinctKeys(table)
    requires !DownloadRun(dirs, files, categoryPath, remote, table).failed
    ensures var run := DownloadRun(dirs, files, categoryPath, remote, table);
      DownloadRun(dirs, run.files, categoryPath, remote, table) == Run(run.files, [], false)
  {
    var run := DownloadRun(dirs, files, categoryPath, remote, table);
    forall i | 0 <= i < |table|
      ensures ScelPath(categoryPath, table[i].0) in dirs || ScelPath(categoryPath, table[i].0) in run.files
    {
      var p := ScelPath(categoryPath, table[i].0);
      if p in dirs || p in files {
        DownloadRunKeepsExisting(dirs, files, categoryPath, remote, table, p);
      } else {
        DownloadRunWritesMissing(dirs, files, categoryPath, remote, table, i);
      }
    }
    DownloadRunAllPresent(dirs, run.files, categoryPath, remote, table);
  }

  /** In a dictionary without repeated keys, each pair is what its key looks up. */
  lemma {:induction false} LookupAt(t: UrlTable, i: nat)
    requires DistinctKeys(t) && i < |t|
    ensures Lookup(t, t[i].0) == Some(t[i].1)
  {
    if i > 0 {
      assert KeysOf(t)[0] != KeysOf(t)[i];
      assert DistinctKeys(t[1..]) by {
        assert KeysOf(t[1..]) == KeysOf(t)[1..];
      }
      LookupAt(t[1..], i - 1);
    }
  }

  /** One listing page, end to end: when no fetch fails, every distinct
      sanitised name whose file did not exist gets exactly one file, holding
      what the href of the LAST entry with that name returned. */
  lemma PageDownloadLastWins(dirs: set<string>, files: map<string, Bytes>, categoryPath: string,
                             remote: string -> Option<Bytes>, entries: seq<Entry>, key: string)
    requires key in SanitizedNames(entries)
    requires ScelPath(categoryPath, key) !in dirs && ScelPath(categoryPath, key) !in files
    requires !DownloadRun(dirs, files, categoryPath, remote, BuildTable(entries)).failed
    ensures LastHrefFor(entries, key).Some?
    ensures var run := DownloadRun(dirs, files, categoryPath, remote, BuildTable(entries));
      ScelPath(categoryPath, key) in run.files &&
      remote(LastHrefFor(entries, key).value) == Some(run.files[ScelPath(categoryPath, key)])
  {
    var t := BuildTable(entries);
    BuildTableKeys(entries);
    BuildTableLastWins(entries, key);
    assert key in KeysOf(t);
    var i :| 0 <= i < |t| && KeysOf(t)[i] == key;
    LookupAt(t, i);
    DownloadRunWritesMissing(dirs, files, categoryPath, remote, t, i);
  }

  // ---------------------------------------------------------------------------
  // Categories and pages

  /** `savePath + "/" + category`: the directory named after the category inside the save path. */
  function CategoryPath(savePath: string, category: string): (p: string)
    ensures |p| == |savePath| + 1 + |category|
    ensures p[..|savePath|] == savePath && p[|savePath|] == '/' && p[|savePath| + 1..] == category
  {
    Join(savePath, category)
  }

  /** The categories `DownloadDicts` walks: the given ones as they are (repeats
      included), or, when none or an empty list are given, the last path segment
      of each `nav_list` link of the root page. The contract is the definition. */
  function Categories(given: Option<seq<string>>, hrefs: seq<string>): (r: seq<string>)
    ensures given.Some? && given.value != [] ==> r == given.value
    ensures given.None? || given.value == [] ==>
      |r| == |hrefs| && forall i :: 0 <= i < |hrefs| ==> r[i] == AfterLast(hrefs[i], '/')
  {
    if given.Some? && given.value != [] then given.value
    else seq(|hrefs|, i requires 0 <= i < |hrefs| => AfterLast(hrefs[i], '/'))
  }

  /** `if not categories` treats an empty list as no list: both walk every category
      linked from the root page. */
  lemma EmptyGivenWalksAll(hrefs: seq<string>)
    ensures Categories(Some([]), hrefs) == Categories(None, hrefs)
  {
  }

  /** The page numbers of an ordinary category, from the texts of the links in
      `dict_page_list`: 1 up to the number the second-to-last link shows. With
      fewer than two links `[-2]` raises IndexError; a text that is no integer
      raises ValueError. */
  function PageNumbers(pageLinks: seq<string>): (r: Result<seq<int>>)
    ensures |pageLinks| < 2 ==> r == Err(IndexError)
    ensures |pageLinks| >= 2 ==>
      match ParseInt(pageLinks[|pageLinks| - 2])
      case None => r == Err(ValueError)
      case Some(n) => r.Ok? && |r.value| == (if n > 0 then n else 0) &&
                      forall i :: 0 <= i < |r.value| ==> r.value[i] == i + 1
  {
    if |pageLinks| < 2 then Err(IndexError)
    else match ParseInt(pageLinks[|pageLinks| - 2])
      case None => Err(ValueError)
      case Some(n) => Ok(Range(1, n + 1))
  }

  /** The pages listed are exactly 1 .. n. */
  lemma PageNumbersExact(pageLinks: seq<string>, n: int, k: int)
    requires |pageLinks| >= 2 && ParseInt(pageLinks[|pageLinks| - 2]) == Some(n)
    ensures PageNumbers(pageLinks).Ok?
    ensures k in PageNumbers(pageLinks).value <==> 1 <= k <= n
  {
    RangeMembers(1, n + 1, k);
  }

  /** `categoryUrl + "/default/" + str(page)`: the page number can be read back
      from what follows `/default/`. */
  function PageUrl(categoryUrl: string, page: int): (u: string)
    ensures |categoryUrl| + |PageInfix| <= |u|
    ensures u[..|categoryUrl|] == categoryUrl && u[|categoryUrl|..|categoryUrl| + |PageInfix|] == PageInfix
    ensures ParseInt(u[|categoryUrl| + |PageInfix|..]) == Some(page)
  {
    var u := categoryUrl + PageInfix + IntToString(page);
    assert u[..|categoryUrl|] == categoryUrl && u[|categoryUrl|..|categoryUrl| + |PageInfix|] == PageInfix;
    assert u[|categoryUrl| + |PageInfix|..] == IntToString(page);
    ParseIntRoundTrip(page);
    u
  }

  /** Different pages of one category are fetched from different URLs. */
  lemma PageUrlsDistinct(categoryUrl: string, p: int, q: int)
    requires p != q
    ensures PageUrl(categoryUrl, p) != PageUrl(categoryUrl, q)
  {
  }

  // ---------------------------------------------------------------------------
  // Command-line validation

  /** `check_valid_category_index`: the value unchanged when it is a non-empty
      string of digits, ArgumentTypeError otherwise. The `int(value) < 0` test
      never fires, because digit strings are never negative. */
  function CheckValidCategoryIndex(value: string): (r: Result<string>)
    ensures r.Ok? <==> IsDigitString(value)
    ensures r.Ok? ==> r.value == value
    ensures r.Err? ==> r.error == ArgumentTypeError
  {
    if !IsDigitString(value) then Err(ArgumentTypeError)
    else
      ParseIntOfDigits(value);
      match ParseInt(value)
      case None => Err(ValueError)
      case Some(n) => if n < 0 then Err(ArgumentTypeError) else Ok(value)
  }

  // ---------------------------------------------------------------------------
  // The crawler's state: the file system, the network and what was fetched

  class SougouSpider {
    const fs: FileSystem
    /** The remote site: the body each URL returns, or None when the fetch fails. */
    const remote: string -> Option<Bytes>
    /** Every URL fetched so far, in order. */
    var requests: seq<string>

    constructor (fs: FileSystem, remote: string -> Option<Bytes>)
      ensures this.fs == fs && this.remote == remote && requests == []
    {
      this.fs := fs;
      this.remote := remote;
      requests := [];
    }

    /** `GetHtml(url)`: one fetch, recorded. */
    method Fetch(url: string) returns (body: Option<Bytes>)
      modifies this
      ensures body == remote(url) && requests == old(requests) + [url]
    {
      requests := requests + [url];
      body := remote(url);
    }

    /** One iteration of the `Download` loop: skip an existing
        `categoryPath/key.scel`, otherwise create it (empty) and write the
        fetched body into it. Specified by `DownloadStep` on a run that has
        not failed; `ok` is false iff the fetch failed. */
    method DownloadOne(key: string, url: string, categoryPath: string, ghost pre: Run, ghost log: seq<string>)
      returns (ok: bool)
      requires fs.Valid() && !pre.failed && fs.files == pre.files && requests == log + pre.fetched
      modifies this, fs
      ensures fs.Valid() && fs.dirs == old(fs.dirs)
      ensures var next := DownloadStep(old(fs.dirs), categoryPath, remote, pre, key, url);
        fs.files == next.files && requests == log + next.fetched && ok == !next.failed
    {
      var path := ScelPath(categoryPath, key);
      if fs.Exists(path) {
        return true;
      }
      var created := fs.WriteBytes(path, []);
      var body := Fetch(url);
      if body.None? {
        return false;
      }
      var written := fs.WriteBytes(path, body.value);
      ok := true;
    }

    /** `Download`: for each (key, url) in order, skip an existing
        `categoryPath/key.scel`, otherwise create it and write the fetched body
        into it; a failed fetch ends the loop with the error. */
    method Download(table: UrlTable, categoryPath: string) returns (r: Outcome)
      requires fs.Valid()
      modifies this, fs
      ensures fs.Valid() && fs.dirs == old(fs.dirs)
      ensures var run := DownloadRun(old(fs.dirs), old(fs.files), categoryPath, remote, table);
        fs.files == run.files && requests == old(requests) + run.fetched &&
        r == if run.failed then Fail(TransportError) else Pass
    {
      ghost var dirs0, files0, requests0 := fs.dirs, fs.files, requests;
      var i := 0;
      while i < |table|
        invariant 0 <= i <= |table|
        invariant fs.Valid() && fs.dirs == dirs0
        invariant var run := DownloadRun(dirs0, files0, categoryPath, remote, table[..i]);
          !run.failed && fs.files == run.files && requests == requests0 + run.fetched
      {
        ghost var pre := DownloadRun(dirs0, files0, categoryPath, remote, table[..i]);
        DownloadRunSnoc(dirs0, files0, categoryPath, remote, table, i);
        var ok := DownloadOne(table[i].0, table[i].1, categoryPath, pre, requests0);
        if !ok {
          DownloadRunStopsAfterFailure(dirs0, files0, categoryPath, remote, table, i + 1);
          return Fail(TransportError);
        }
        i := i + 1;
      }
      assert table[..i] == table;
      r := Pass;
    }

    /** One listing page of an ordinary category: fetch the page, fill
        `downloadUrls` from the entries it lists, then run `Download` on it. */
    method DownloadPage(categoryUrl: string, page: int, categoryPath: string, entries: seq<Entry>)
      returns (r: Outcome)
      requires fs.Valid()
      modifies this, fs
      ensures fs.Valid() && fs.dirs == old(fs.dirs)
      ensures remote(PageUrl(categoryUrl, page)).None? ==>
        r == Fail(TransportError) && fs.files == old(fs.files) && requests == old(requests) + [PageUrl(categoryUrl, page)]
      ensures remote(PageUrl(categoryUrl, page)).Some? ==>
        var run := DownloadRun(old(fs.dirs), old(fs.files), categoryPath, remote, BuildTable(entries));
        fs.files == run.files && requests == old(requests) + [PageUrl(categoryUrl, page)] + run.fetched &&
        r == if run.failed then Fail(TransportError) else Pass
    {
      ghost var dirs0, files0, requests0 := fs.dirs, fs.files, requests;
      var pageUrl := PageUrl(categoryUrl, page);
      var listing := Fetch(pageUrl);
      if listing.None? {
        return Fail(TransportError);
      }
      var downloadUrls := CollectDownloadUrls(entries);
      assert fs.dirs == dirs0 && fs.files == files0 && requests == requests0 + [pageUrl];
      r := Download(downloadUrls, categoryPath);
    }

    /** `if not os.path.exists(path): os.mkdir(path)`: afterwards the path
        exists, and nothing else changed. */
    method MakeDirIfAbsent(path: string)
      requires fs.Valid()
      modifies fs
      ensures fs.Valid() && fs.files == old(fs.files) && fs.Exists(path)
      ensures fs.dirs == old(fs.dirs) + (if old(fs.Exists(path)) then {} else {path})
    {
      if !fs.Exists(path) {
        var made := fs.MkDir(path, false);
      }
    }

    /** The category step of `DownloadDicts`: the category directory
        `savePath + "/" + category`, created when absent. */
    method CreateCategoryDir(savePath: string, category: string) returns (categoryPath: string)
      requires fs.Valid()
      modifies fs
      ensures categoryPath == CategoryPath(savePath, category)
      ensures fs.Valid() && fs.files == old(fs.files) && fs.Exists(categoryPath)
      ensures fs.dirs == old(fs.dirs) + (if old(fs.Exists(categoryPath)) then {} else {categoryPath})
    {
      categoryPath := CategoryPath(savePath, category);
      MakeDirIfAbsent(categoryPath);
    }
  }
}
