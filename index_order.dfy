/** template/generate-index.js, steps 2 to 4: the sort comparator and the sorted
    article list, the index entries, and the sitemap template text. */
module IndexOrder {
  import opened TextUtil
  import opened GenerateIndex

  /** The stand-in for `localeCompare`: code-point lexicographic order, as -1, 0 or 1. */
  function LexCompare(a: string, b: string): (r: int)
    ensures -1 <= r <= 1
    ensures r == 0 <==> a == b
  {
    if a == [] && b == [] then 0
    else if a == [] then -1
    else if b == [] then 1
    else if a[0] < b[0] then -1
    else if a[0] > b[0] then 1
    else
      var r := LexCompare(a[1..], b[1..]);
      assert r == 0 ==> a == [a[0]] + a[1..] && b == [b[0]] + b[1..];
      r
  }

  lemma {:induction false} LexAntisymmetric(a: string, b: string)
    ensures LexCompare(a, b) == -LexCompare(b, a)
  {
    if a != [] && b != [] && a[0] == b[0] {
      LexAntisymmetric(a[1..], b[1..]);
    }
  }

  lemma {:induction false} LexTransitive(a: string, b: string, c: string)
    requires LexCompare(a, b) <= 0 && LexCompare(b, c) <= 0
    ensures LexCompare(a, c) <= 0
  {
    if a != [] && b != [] && c != [] && a[0] == b[0] && b[0] == c[0] {
      LexTransitive(a[1..], b[1..], c[1..]);
    }
  }

  /** The comparator handed to `articles.sort`: dated articles newest first,
      undated ones before every dated one, undated ones by title. */
  function Compare(a: ArticleRecord, b: ArticleRecord): int {
    if a.date.Some? && b.date.Some? then b.date.value - a.date.value
    else if a.date.Some? then 1
    else if b.date.Some? then -1
    else LexCompare(a.title, b.title)
  }

  /** `a` may stand before `b`. */
  predicate Le(a: ArticleRecord, b: ArticleRecord) {
    Compare(a, b) <= 0
  }

  /** The comparator is consistent: swapping its arguments flips the sign. */
  lemma CompareAntisymmetric(a: ArticleRecord, b: ArticleRecord)
    ensures Compare(a, b) > 0 <==> Compare(b, a) < 0
    ensures Compare(a, b) == 0 <==> Compare(b, a) == 0
  {
    LexAntisymmetric(a.title, b.title);
  }

  /** The comparator is transitive, so it is a total preorder and the sorted order
      is well defined. */
  lemma CompareTransitive(a: ArticleRecord, b: ArticleRecord, c: ArticleRecord)
    requires Le(a, b) && Le(b, c)
    ensures Le(a, c)
  {
    if a.date.None? && b.date.None? && c.date.None? {
      LexTransitive(a.title, b.title, c.title);
    }
  }

  predicate Sorted(s: seq<ArticleRecord>) {
    forall i :: 0 <= i < |s| - 1 ==> Le(s[i], s[i + 1])
  }

  /** Insertion of `x` after every element it does not precede. */
  function Insert(x: ArticleRecord, s: seq<ArticleRecord>): (r: seq<ArticleRecord>)
    requires Sorted(s)
    ensures Sorted(r)
    ensures multiset(r) == multiset(s) + multiset{x}
    ensures r[0] == x || (s != [] && r[0] == s[0])
  {
    if s == [] then [x]
    else if Compare(x, s[0]) >= 0 then
      var t := Insert(x, s[1..]);
      CompareAntisymmetric(x, s[0]);
      assert s == [s[0]] + s[1..];
      [s[0]] + t
    else [x] + s
  }

  /** The sorted article list. */
  function SortArticles(s: seq<ArticleRecord>): (r: seq<ArticleRecord>)
    ensures Sorted(r)
    ensures multiset(r) == multiset(s)
    ensures |r| == |s|
  {
    if s == [] then []
    else
      assert s == s[..|s| - 1] + [s[|s| - 1]];
      var r := Insert(s[|s| - 1], SortArticles(s[..|s| - 1]));
      assert |r| == |multiset(r)|;
      r
  }

  /** `a` stands strictly before `c` when it stands strictly before `b` and `b`
      may stand before `c`, and the other way round. */
  lemma StrictThenLe(a: ArticleRecord, b: ArticleRecord, c: ArticleRecord)
    requires Compare(a, b) < 0 && Le(b, c)
    ensures Compare(a, c) < 0
  {
    CompareAntisymmetric(a, b);
    CompareAntisymmetric(a, c);
    if Compare(a, c) >= 0 {
      CompareTransitive(b, c, a);
    }
  }

  lemma LeThenStrict(a: ArticleRecord, b: ArticleRecord, c: ArticleRecord)
    requires Le(a, b) && Compare(b, c) < 0
    ensures Compare(a, c) < 0
  {
    CompareAntisymmetric(b, c);
    CompareAntisymmetric(a, c);
    if Compare(a, c) >= 0 {
      CompareTransitive(c, a, b);
    }
  }

  /** The records of `s` that tie with `k` under the comparator, in the order of `s`. */
  function TiedWith(s: seq<ArticleRecord>, k: ArticleRecord): seq<ArticleRecord> {
    if s == [] then []
    else (if Compare(s[0], k) == 0 then [s[0]] else []) + TiedWith(s[1..], k)
  }

  lemma {:induction false} TiedWithAppend(a: seq<ArticleRecord>, b: seq<ArticleRecord>, k: ArticleRecord)
    ensures TiedWith(a + b, k) == TiedWith(a, k) + TiedWith(b, k)
  {
    if a == [] {
      assert a + b == b;
    } else {
      assert (a + b)[0] == a[0] && (a + b)[1..] == a[1..] + b;
      TiedWithAppend(a[1..], b, k);
    }
  }

  /** Nothing in a sorted list ties with a record that stands strictly before its head. */
  lemma {:induction false} NoneTied(s: seq<ArticleRecord>, k: ArticleRecord)
    requires Sorted(s) && (s != [] ==> Compare(k, s[0]) < 0)
    ensures TiedWith(s, k) == []
  {
    if s != [] {
      CompareAntisymmetric(k, s[0]);
      if |s| > 1 {
        StrictThenLe(k, s[0], s[1]);
      }
      NoneTied(s[1..], k);
    }
  }

  /** The records tied with `k` among `x` alone. */
  function TieOf(x: ArticleRecord, k: ArticleRecord): seq<ArticleRecord> {
    if Compare(x, k) == 0 then [x] else []
  }

  /** Insertion puts `x` after every record of the list it ties with. */
  lemma {:induction false} InsertTied(x: ArticleRecord, s: seq<ArticleRecord>, k: ArticleRecord)
    requires Sorted(s)
    ensures TiedWith(Insert(x, s), k) == TiedWith(s, k) + TieOf(x, k)
    decreases |s|, 1
  {
    if s == [] {
      assert TiedWith([x], k) == TieOf(x, k) + TiedWith([], k);
    } else if Compare(x, s[0]) >= 0 {
      InsertTiedPast(x, s, k);
    } else {
      InsertTiedFront(x, s, k);
    }
  }

  lemma {:induction false} InsertTiedPast(x: ArticleRecord, s: seq<ArticleRecord>, k: ArticleRecord)
    requires Sorted(s) && s != [] && Compare(x, s[0]) >= 0
    ensures TiedWith(Insert(x, s), k) == TiedWith(s, k) + TieOf(x, k)
    decreases |s|, 0
  {
    var r, t := Insert(x, s), Insert(x, s[1..]);
    assert r == [s[0]] + t;
    assert r[0] == s[0] && r[1..] == t;
    InsertTied(x, s[1..], k);
    calc {
      TiedWith(r, k);
      TieOf(s[0], k) + TiedWith(t, k);
      TieOf(s[0], k) + (TiedWith(s[1..], k) + TieOf(x, k));
      (TieOf(s[0], k) + TiedWith(s[1..], k)) + TieOf(x, k);
      TiedWith(s, k) + TieOf(x, k);
    }
  }

  lemma {:induction false} InsertTiedFront(x: ArticleRecord, s: seq<ArticleRecord>, k: ArticleRecord)
    requires Sorted(s) && s != [] && Compare(x, s[0]) < 0
    ensures TiedWith(Insert(x, s), k) == TiedWith(s, k) + TieOf(x, k)
  {
    var r := Insert(x, s);
    assert r == [x] + s;
    assert r[0] == x && r[1..] == s;
    assert TiedWith(r, k) == TieOf(x, k) + TiedWith(s, k);
    if Compare(x, k) == 0 {
      CompareAntisymmetric(x, k);
      LeThenStrict(k, x, s[0]);
      NoneTied(s, k);
    }
  }

  /** The sort is stable, as `Array.prototype.sort` has been required to be since
      ECMAScript 2019: records the comparator ties keep their input order. */
  lemma {:induction false} SortStable(s: seq<ArticleRecord>, k: ArticleRecord)
    ensures TiedWith(SortArticles(s), k) == TiedWith(s, k)
  {
    if s != [] {
      var init, last := s[..|s| - 1], s[|s| - 1];
      assert s == init + [last];
      var sorted := SortArticles(init);
      assert SortArticles(s) == Insert(last, sorted);
      SortStable(init, k);
      InsertTied(last, sorted, k);
      TiedWithSingle(last, k);
      TiedWithAppend(init, [last], k);
    }
  }

  lemma TiedWithSingle(x: ArticleRecord, k: ArticleRecord)
    ensures TiedWith([x], k) == TieOf(x, k)
  {
    assert [x][1..] == [];
  }

  /** A sorted list is ordered between any two positions, not only neighbours. */
  lemma {:induction false} SortedPairwise(s: seq<ArticleRecord>, i: int, j: int)
    requires Sorted(s) && 0 <= i < j < |s|
    ensures Le(s[i], s[j])
    decreases j - i
  {
    if j > i + 1 {
      SortedPairwise(s, i + 1, j);
      CompareTransitive(s[i], s[i + 1], s[j]);
    }
  }

  /** The order of index.json: undated articles first, ordered by title; then the
      dated ones, newest first. */
  lemma {:induction false} IndexOrdering(articles: seq<ArticleRecord>, i: int, j: int)
    requires 0 <= i < j < |articles|
    ensures var s := SortArticles(articles);
            (s[j].date.None? ==> s[i].date.None?) &&
            (s[i].date.Some? && s[j].date.Some? ==> s[i].date.value >= s[j].date.value) &&
            (s[i].date.None? && s[j].date.None? ==> LexCompare(s[i].title, s[j].title) <= 0)
  {
    SortedPairwise(SortArticles(articles), i, j);
  }

  /** An index entry: the article's metadata file with `name` forced to the
      article name, or `{name}` alone when the file cannot be read or parsed. */
  function IndexEntry(dir: Directory, name: string): (r: JObject)
    ensures "name" in r && r["name"] == JStr(name)
    ensures var file := name + ".json";
            file in dir && dir[file].isFile && dir[file].content.Some? ==>
              r.Keys == dir[file].content.value.Keys + {"name"} &&
              forall k :: k in r && k != "name" ==> r[k] == dir[file].content.value[k]
    ensures var file := name + ".json";
            !(file in dir && dir[file].isFile && dir[file].content.Some?) ==> r == map["name" := JStr(name)]
  {
    var file := name + ".json";
    if file in dir && dir[file].isFile && dir[file].content.Some?
    then dir[file].content.value["name" := JStr(name)]
    else map["name" := JStr(name)]
  }

  /** index.json: one entry per sorted article, in order. */
  function Index(sorted: seq<ArticleRecord>, dir: Directory): (r: seq<JObject>)
    ensures |r| == |sorted|
    ensures forall i :: 0 <= i < |r| ==> r[i] == IndexEntry(dir, sorted[i].name)
  {
    seq(|sorted|, i requires 0 <= i < |sorted| => IndexEntry(dir, sorted[i].name))
  }

  const TemplateHead: string :=
    "<?xml version=\"1.0\" encoding=\"UTF-8\"?>\n<urlset xmlns=\"http://www.sitemaps.org/schemas/sitemap/0.9\">\n"

  const TemplateTail: string := "\n</urlset>"

  /** `entries.join("")` */
  function Concat(entries: seq<string>): (r: string)
    ensures |entries| == 0 ==> r == ""
  {
    if entries == [] then "" else Concat(entries[..|entries| - 1]) + entries[|entries| - 1]
  }

  /** Joining two runs of entries joins their joined texts. */
  lemma {:induction false} ConcatAppend(a: seq<string>, b: seq<string>)
    ensures Concat(a + b) == Concat(a) + Concat(b)
    decreases |b|
  {
    if b == [] {
      assert a + b == a;
    } else {
      var init := b[..|b| - 1];
      assert (a + b)[..|a + b| - 1] == a + init;
      ConcatAppend(a, init);
    }
  }

  /** Joining a prefix of the entries gives a prefix of the joined text. */
  lemma {:induction false} ConcatPrefix(entries: seq<string>, j: int)
    requires 0 <= j <= |entries|
    ensures StartsWith(Concat(entries), Concat(entries[..j]))
    decreases |entries|
  {
    if j < |entries| {
      var init := entries[..|entries| - 1];
      ConcatPrefix(init, j);
      assert init[..j] == entries[..j];
      var c := Concat(init);
      var p := Concat(entries[..j]);
      assert Concat(entries) == c + entries[|entries| - 1];
      assert (c + entries[|entries| - 1])[..|p|] == c[..|p|];
    } else {
      assert entries[..j] == entries;
    }
  }

  /** Every entry, in order, is a piece of the joined text. */
  lemma {:induction false} ConcatHoldsEntries(entries: seq<string>, k: int)
    requires 0 <= k < |entries|
    ensures OccursAt(Concat(entries), entries[k], |Concat(entries[..k])|)
  {
    var upto := entries[..k + 1];
    assert upto[..k] == entries[..k];
    var a := Concat(entries[..k]);
    var b := Concat(upto);
    assert b == a + entries[k];
    ConcatPrefix(entries, k + 1);
    var all := Concat(entries);
    assert all[..|b|] == b;
    assert all[|a|..|a| + |entries[k]|] == b[|a|..];
  }

  /** sitemap_template.xml: the XML declaration and the sitemaps 0.9 `urlset`, the
      joined entries, and the closing tag. */
  function SitemapTemplate(entries: seq<string>): (r: string)
    ensures StartsWith(r, TemplateHead) && EndsWith(r, TemplateTail)
    ensures |r| == |TemplateHead| + |Concat(entries)| + |TemplateTail|
    ensures r[|TemplateHead|..|r| - |TemplateTail|] == Concat(entries)
  {
    var r := TemplateHead + Concat(entries) + TemplateTail;
    assert r[..|TemplateHead|] == TemplateHead;
    assert r[|r| - |TemplateTail|..] == TemplateTail;
    r
  }

  /** Steps 1 to 4 of the script on one directory listing: the records are
      collected, sorted, turned into the index, and the template is built from
      the sitemap entries. */
  method GenerateIndexAndTemplate(files: seq<string>, dir: Directory, lib: Lib)
    returns (index: seq<JObject>, template: string)
    requires forall f :: f in files ==> f in dir
    ensures var p := Run(files, dir, lib);
            index == Index(SortArticles(p.articles), dir) && template == SitemapTemplate(p.entries)
  {
    var articles, sitemapEntries := ProcessArticleFiles(files, dir, lib);
    var sorted := SortArticles(articles);
    index := Index(sorted, dir);
    template := SitemapTemplate(sitemapEntries);
  }
}
