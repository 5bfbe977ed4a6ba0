/** template/generate-index.js, step 1: the loop over the files of the Articles
    directory that builds the article records and the sitemap-template entries. */
module GenerateIndex {
  import opened TextUtil

  /** A JSON value as the generator reads it: strings and booleans matter; every
      other value (number, array, object, null) is `JOther`. */
  datatype JVal = JStr(s: string) | JBool(b: bool) | JOther

  type JObject = map<string, JVal>

  /** A directory entry: whether it is a regular file, its modification time,
      and its contents when they read and parse as a JSON object. */
  datatype FileInfo = FileInfo(isFile: bool, mtime: int, content: Option<JObject>)

  /** The Articles directory: entry name to entry. */
  type Directory = map<string, FileInfo>

  /** The library calls the generator relies on: parseDate on a non-empty string
      (a time value in milliseconds, or null), formatDateForSitemap on a valid
      time value, and encodeURIComponent. */
  datatype Lib = Lib(parseDate: string -> Option<int>, formatDate: int -> string, encode: string -> string)

  /** The record pushed into `articles`. */
  datatype ArticleRecord = ArticleRecord(
    name: string,
    title: string,
    date: Option<int>,
    rawDate: string,
    author: string,
    hidden: bool,
    lastModified: Option<string>)

  /** `data.key` when it holds a string; other values are read as absent. */
  function StrField(obj: JObject, key: string): Option<string> {
    if key in obj && obj[key].JStr? then Some(obj[key].s) else None
  }

  /** `data.key || d` */
  function FieldOr(obj: JObject, key: string, d: string): (r: string)
    ensures StrField(obj, key).Some? && StrField(obj, key).value != "" ==> r == StrField(obj, key).value
    ensures StrField(obj, key).None? || StrField(obj, key).value == "" ==> r == d
  {
    var v := StrField(obj, key);
    if v.Some? && v.value != "" then v.value else d
  }

  /** parseDate: null for a missing or empty string. */
  function ParseDate(lib: Lib, dateStr: Option<string>): Option<int> {
    if dateStr.None? || dateStr.value == "" then None else lib.parseDate(dateStr.value)
  }

  /** `s.replace(pat, rep)` with a string pattern: only the first occurrence. */
  function ReplaceFirst(s: string, pat: string, rep: string): (r: string)
    ensures !Contains(s, pat) ==> r == s
    ensures Contains(s, pat) ==>
              var i := IndexOf(s, pat); r == s[..i] + rep + s[i + |pat|..]
  {
    var i := IndexOf(s, pat);
    if i < 0 then s else s[..i] + rep + s[i + |pat|..]
  }

  /** The article name of a file: its name with the first ".json" removed. */
  function ArticleName(file: string): string {
    ReplaceFirst(file, ".json", "")
  }

  /** ".json" never overlaps itself, so the name of "<x>.json" is x whenever x
      itself holds no ".json". */
  lemma {:induction false} ArticleNameOfPlainFile(x: string)
    requires !Contains(x, ".json")
    ensures ArticleName(x + ".json") == x
  {
    var f := x + ".json";
    var pat := ".json";
    assert OccursAt(f, pat, |x|);
    var i := IndexOf(f, pat);
    assert i == |x| by {
      if i < |x| {
        if i + 5 <= |x| {
          assert f[i..i + 5] == x[i..i + 5];
          ContainsWitness(x, pat, i);
        } else {
          DotOnlyFirst(f[i..i + 5], |x| - i);
        }
      }
    }
    assert f[..|x|] == x;
  }

  /** In ".json" the only dot is the first character. */
  lemma DotOnlyFirst(s: string, k: int)
    requires s == ".json" && 0 <= k < |s| && s[k] == '.'
    ensures k == 0
  {
  }

  /** Files the loop skips before reading them. */
  predicate Ignored(file: string) {
    file == "index.json" || file == "sitemap_template.xml" || !EndsWith(file, ".json")
  }

  /** The record an unreadable file keeps. */
  function DefaultRecord(name: string, lib: Lib, info: FileInfo): ArticleRecord {
    ArticleRecord(name, "Invalid Article", None, "", "Unknown", false, Some(lib.formatDate(info.mtime)))
  }

  /** The record of a file that parsed, before the hidden test. */
  function ParsedRecord(name: string, lib: Lib, info: FileInfo, data: JObject): (r: ArticleRecord)
    ensures r.name == name && r.lastModified == Some(lib.formatDate(info.mtime))
    ensures r.hidden <==> "hidden" in data && data["hidden"] == JBool(true)
    ensures r.title == FieldOr(data, "title", "Untitled") && r.author == FieldOr(data, "author", "Unknown")
    ensures r.rawDate == FieldOr(data, "date", "") && r.date == ParseDate(lib, StrField(data, "date"))
  {
    DefaultRecord(name, lib, info).(
      title := FieldOr(data, "title", "Untitled"),
      date := ParseDate(lib, StrField(data, "date")),
      rawDate := FieldOr(data, "date", ""),
      author := FieldOr(data, "author", "Unknown"),
      hidden := "hidden" in data && data["hidden"] == JBool(true))
  }

  /** The sitemap date: the formatted article date, else the file's mtime. */
  function LastModDate(lib: Lib, rec: ArticleRecord): string {
    var formatted := if rec.date.Some? then lib.formatDate(rec.date.value) else "";
    if formatted != "" then formatted
    else if rec.lastModified.Some? then rec.lastModified.value
    else ""
  }

  const Placeholder: string := "__FRONTEND_URL_PLACEHOLDER__"

  /** One `<url>` element of the sitemap template. */
  function SitemapEntry(encodedName: string, lastMod: string): string {
    "\n  <url>\n    <loc>" + Placeholder + "/blog/" + encodedName + "</loc>\n    <lastmod>" + lastMod +
    "</lastmod>\n    <changefreq>monthly</changefreq>\n    <priority>0.6</priority>\n  </url>"
  }

  datatype Progress = Progress(articles: seq<ArticleRecord>, entries: seq<string>)

  predicate HasName(articles: seq<ArticleRecord>, name: string) {
    exists a :: a in articles && a.name == name
  }

  /** One turn of the loop on `file`. */
  function Step(p: Progress, file: string, dir: Directory, lib: Lib): Progress
    requires file in dir
  {
    if Ignored(file) || !dir[file].isFile then p
    else
      var info := dir[file];
      var name := ArticleName(file);
      match info.content
      case None =>
        if HasName(p.articles, name) then p
        else Progress(p.articles + [DefaultRecord(name, lib, info)], p.entries)
      case Some(data) =>
        var rec := ParsedRecord(name, lib, info, data);
        if rec.hidden then p
        else
          var lastMod := LastModDate(lib, rec);
          if name != "" && lastMod != ""
          then Progress(p.articles + [rec], p.entries + [SitemapEntry(lib.encode(name), lastMod)])
          else Progress(p.articles + [rec], p.entries)
  }

  /** The loop over `files`, in directory order. */
  function Run(files: seq<string>, dir: Directory, lib: Lib): Progress
    requires forall f :: f in files ==> f in dir
  {
    if files == [] then Progress([], [])
    else Step(Run(files[..|files| - 1], dir, lib), files[|files| - 1], dir, lib)
  }

  /** Step 1 of the script: every listed entry that is a `.json` file other than
      index.json is read; a hidden article is skipped entirely; an unreadable one
      keeps its default record (once per name) and gets no sitemap entry. */
  method ProcessArticleFiles(files: seq<string>, dir: Directory, lib: Lib)
    returns (articles: seq<ArticleRecord>, sitemapEntries: seq<string>)
    requires forall f :: f in files ==> f in dir
    ensures Progress(articles, sitemapEntries) == Run(files, dir, lib)
  {
    articles := [];
    sitemapEntries := [];
    for i := 0 to |files|
      invariant Progress(articles, sitemapEntries) == Run(files[..i], dir, lib)
    {
      assert files[..i + 1][..i] == files[..i];
      articles, sitemapEntries := ProcessArticleFile(articles, sitemapEntries, files[i], dir, lib);
    }
    assert files[..|files|] == files;
  }

  /** One turn of the loop of ProcessArticleFiles on `file`. */
  method ProcessArticleFile(articles0: seq<ArticleRecord>, entries0: seq<string>, file: string, dir: Directory, lib: Lib)
    returns (articles: seq<ArticleRecord>, sitemapEntries: seq<string>)
    requires file in dir
    ensures Progress(articles, sitemapEntries) == Step(Progress(articles0, entries0), file, dir, lib)
  {
    articles, sitemapEntries := articles0, entries0;
    if file == "index.json" || file == "sitemap_template.xml" || !EndsWith(file, ".json") {
      return;
    }
    var stats := dir[file];
    if !stats.isFile {
      return;
    }
    var articleName := ArticleName(file);
    var articleData := DefaultRecord(articleName, lib, stats);
    if stats.content.None? {
      if !HasName(articles, articleName) {
        articles := articles + [articleData];
      }
      return;
    }
    articleData := ParsedRecord(articleName, lib, stats, stats.content.value);
    if articleData.hidden {
      return;
    }
    articles := articles + [articleData];
    var lastModDate := LastModDate(lib, articleData);
    if articleName != "" && lastModDate != "" {
      sitemapEntries := sitemapEntries + [SitemapEntry(lib.encode(articleName), lastModDate)];
    }
  }

  /** Ignored names and entries that are not regular files change nothing. */
  lemma {:induction false} IgnoredFilesSkipped(p: Progress, file: string, dir: Directory, lib: Lib)
    requires file in dir && (Ignored(file) || !dir[file].isFile)
    ensures Step(p, file, dir, lib) == p
  {
  }

  /** A parsed article marked `"hidden": true` reaches neither the index nor the
      sitemap. */
  lemma {:induction false} HiddenSkipped(p: Progress, file: string, dir: Directory, lib: Lib)
    requires file in dir && dir[file].content.Some?
    requires "hidden" in dir[file].content.value && dir[file].content.value["hidden"] == JBool(true)
    ensures Step(p, file, dir, lib) == p
  {
  }

  /** An unreadable file still yields an index record, titled "Invalid Article" by
      "Unknown", unless an article of that name is already listed; it never adds a
      sitemap entry. */
  lemma {:induction false} InvalidFileRecord(p: Progress, file: string, dir: Directory, lib: Lib)
    requires file in dir && !Ignored(file) && dir[file].isFile && dir[file].content.None?
    ensures Step(p, file, dir, lib).entries == p.entries
    ensures !HasName(p.articles, ArticleName(file)) ==>
              var r := Step(p, file, dir, lib).articles;
              r == p.articles + [r[|r| - 1]] &&
              r[|r| - 1].title == "Invalid Article" && r[|r| - 1].author == "Unknown" &&
              r[|r| - 1].name == ArticleName(file) && r[|r| - 1].date.None?
    ensures HasName(p.articles, ArticleName(file)) ==> Step(p, file, dir, lib) == p
  {
  }

  /** No record in the result is hidden, and there are never more sitemap entries
      than articles. */
  lemma {:induction false} RunInvariant(files: seq<string>, dir: Directory, lib: Lib)
    requires forall f :: f in files ==> f in dir
    ensures forall a :: a in Run(files, dir, lib).articles ==> !a.hidden
    ensures |Run(files, dir, lib).entries| <= |Run(files, dir, lib).articles|
  {
    if files != [] {
      var init := files[..|files| - 1];
      RunInvariant(init, dir, lib);
      StepInvariant(Run(init, dir, lib), files[|files| - 1], dir, lib);
    }
  }

  /** One turn keeps both parts of RunInvariant. */
  lemma StepInvariant(p: Progress, file: string, dir: Directory, lib: Lib)
    requires file in dir
    requires forall a :: a in p.articles ==> !a.hidden
    requires |p.entries| <= |p.articles|
    ensures forall a :: a in Step(p, file, dir, lib).articles ==> !a.hidden
    ensures |Step(p, file, dir, lib).entries| <= |Step(p, file, dir, lib).articles|
  {
    var q := Step(p, file, dir, lib);
    if !Ignored(file) && dir[file].isFile {
      var info := dir[file];
      var name := ArticleName(file);
      if info.content.None? {
        if !HasName(p.articles, name) {
          AppendedNotHidden(p.articles, DefaultRecord(name, lib, info));
        }
      } else {
        var rec := ParsedRecord(name, lib, info, info.content.value);
        if !rec.hidden {
          AppendedNotHidden(p.articles, rec);
        }
      }
    }
  }

  lemma AppendedNotHidden(articles: seq<ArticleRecord>, rec: ArticleRecord)
    requires !rec.hidden && forall a :: a in articles ==> !a.hidden
    ensures forall a :: a in articles + [rec] ==> !a.hidden
  {
  }
}
