/** app/services/searchService.ts: the article index, per-name memo caches for
    metadata and Markdown content, and the search filter loop. */
module SearchService {
  import opened TextUtil

  /** The optional fields of an article; `None` means the key is absent. */
  datatype Fields = Fields(
    title: Option<string>,
    description: Option<string>,
    date: Option<string>,
    author: Option<string>,
    content: Option<string>)

  datatype Article = Article(name: string, fields: Fields)

  /** Object spread `{...base, ...over}`: every key present in `over` wins. */
  function Spread(base: Fields, over: Fields): (r: Fields)
    ensures r.title == (if over.title.Some? then over.title else base.title)
    ensures r.description == (if over.description.Some? then over.description else base.description)
    ensures r.date == (if over.date.Some? then over.date else base.date)
    ensures r.author == (if over.author.Some? then over.author else base.author)
    ensures r.content == (if over.content.Some? then over.content else base.content)
  {
    Fields(
      if over.title.Some? then over.title else base.title,
      if over.description.Some? then over.description else base.description,
      if over.date.Some? then over.date else base.date,
      if over.author.Some? then over.author else base.author,
      if over.content.Some? then over.content else base.content)
  }

  /** How the index request `Articles/index.json` ends. */
  datatype IndexResponse = IndexOk(entries: seq<Article>) | IndexNotOk | IndexThrows(message: string)

  /** The content host as seen by the service: the index, and for each article
      name the metadata JSON and the Markdown text that are served successfully.
      A name missing from a map is a failed (non-ok or rejected) request. */
  datatype Host = Host(index: IndexResponse, metadata: map<string, Fields>, content: map<string, string>)

  datatype IndexResult = Entries(entries: seq<Article>) | Failed(message: string)

  datatype SearchResults = SearchResults(articles: seq<Article>, loading: bool, error: Option<string>)

  /** fetchArticlesIndex: the entries, or the message of the error it rethrows. */
  function FetchArticlesIndex(host: Host): (r: IndexResult)
    ensures host.index.IndexOk? <==> r.Entries?
    ensures host.index.IndexOk? ==> r.entries == host.index.entries
    ensures host.index.IndexNotOk? ==> r == Failed("Failed to fetch articles")
    ensures host.index.IndexThrows? ==> r == Failed(host.index.message)
  {
    match host.index
    case IndexOk(entries) => Entries(entries)
    case IndexNotOk => Failed("Failed to fetch articles")
    case IndexThrows(message) => Failed(message)
  }

  /** A memoised lookup: the cached value when there is one, else what the host serves. */
  function Lookup<V>(cache: map<string, V>, served: map<string, V>, name: string): (r: Option<V>)
    ensures name in cache ==> r == Some(cache[name])
    ensures name !in cache && name in served ==> r == Some(served[name])
    ensures r.None? <==> name !in cache && name !in served
  {
    if name in cache then Some(cache[name])
    else if name in served then Some(served[name])
    else None
  }

  /** The cache after looking `name` up once: a successful fetch is remembered,
      a failure is not. */
  function Remember<V>(cache: map<string, V>, served: map<string, V>, name: string): map<string, V> {
    if name in cache || name !in served then cache else cache[name := served[name]]
  }

  /** The cache after looking up every name in `names`. */
  function Warmed<V>(cache: map<string, V>, served: map<string, V>, names: set<string>): (r: map<string, V>)
    ensures r.Keys == cache.Keys + (names * served.Keys)
  {
    map n | n in cache.Keys + (names * served.Keys) :: if n in cache then cache[n] else served[n]
  }

  /** Warming a cache never changes what a lookup returns. */
  lemma WarmedLookup<V>(cache: map<string, V>, served: map<string, V>, names: set<string>, name: string)
    ensures Lookup(Warmed(cache, served, names), served, name) == Lookup(cache, served, name)
  {
  }

  lemma WarmedRemember<V>(cache: map<string, V>, served: map<string, V>, names: set<string>, name: string)
    ensures Remember(Warmed(cache, served, names), served, name) == Warmed(cache, served, names + {name})
  {
    var w := Warmed(cache, served, names);
    var lhs := Remember(w, served, name);
    var rhs := Warmed(cache, served, names + {name});
    assert lhs.Keys == rhs.Keys;
    forall n | n in lhs.Keys ensures lhs[n] == rhs[n] {
    }
  }

  function NamesOf(entries: seq<Article>): set<string> {
    set a | a in entries :: a.name
  }

  lemma NamesOfSnoc(entries: seq<Article>, a: Article)
    ensures NamesOf(entries + [a]) == NamesOf(entries) + {a.name}
  {
    var l := NamesOf(entries + [a]);
    var r := NamesOf(entries) + {a.name};
    forall n | n in r ensures n in l {
      if n != a.name {
        var b :| b in entries && b.name == n;
        assert b in entries + [a];
      } else {
        assert a in entries + [a];
      }
    }
  }

  /** The names whose content is fetched while processing `entries`: those whose
      metadata lookup succeeded, and only when content search is on. */
  function ContentNames(entries: seq<Article>, includeContent: bool, metaCache: map<string, Fields>, host: Host): set<string> {
    if includeContent then NamesOf(entries) * (metaCache.Keys + host.metadata.Keys) else {}
  }

  /** `text?.toLowerCase().includes(q)` */
  predicate FieldMatches(text: Option<string>, q: string) {
    text.Some? && Contains(Lower(text.value), q)
  }

  /** One iteration of the search loop: the article as pushed, or `None` when it is
      skipped (no match, or its metadata or content could not be fetched). */
  function Process(a: Article, q: string, includeContent: bool,
                   metaCache: map<string, Fields>, contentCache: map<string, string>, host: Host): (r: Option<Article>)
    ensures r.Some? ==> r.value.name == a.name
    ensures Lookup(metaCache, host.metadata, a.name).None? ==> r.None?
    ensures includeContent && Lookup(contentCache, host.content, a.name).None? ==> r.None?
    ensures r.Some? ==> Lookup(metaCache, host.metadata, a.name).Some?
    ensures r.Some? ==> var m := Lookup(metaCache, host.metadata, a.name).value;
                        r.value.fields.title == Spread(a.fields, m).title &&
                        r.value.fields.description == Spread(a.fields, m).description
    ensures r.Some? && includeContent ==> r.value.fields.content == Lookup(contentCache, host.content, a.name)
  {
    match Lookup(metaCache, host.metadata, a.name)
    case None => None
    case Some(meta) =>
      var full := Article(a.name, Spread(a.fields, meta));
      var byFields := FieldMatches(full.fields.title, q) || FieldMatches(full.fields.description, q);
      if !includeContent then
        if byFields then Some(full) else None
      else
        match Lookup(contentCache, host.content, a.name)
        case None => None
        case Some(content) =>
          if byFields || Contains(Lower(content), q)
          then Some(full.(fields := full.fields.(content := Some(content))))
          else None
  }

  /** The results of a loop that treats each entry with `step`, in index order:
      an entry whose step gives `None` is skipped. */
  function FilterWith(entries: seq<Article>, step: Article -> Option<Article>): seq<Article>
  {
    if entries == [] then []
    else
      FilterWith(entries[..|entries| - 1], step) +
      (match step(entries[|entries| - 1]) case Some(x) => [x] case None => [])
  }

  /** One iteration of the search loop, as a function of the article. */
  function Step(q: string, includeContent: bool, metaCache: map<string, Fields>,
                contentCache: map<string, string>, host: Host): Article -> Option<Article>
  {
    a => Process(a, q, includeContent, metaCache, contentCache, host)
  }

  /** The results of the search loop over `entries`, in index order. */
  function Filter(entries: seq<Article>, q: string, includeContent: bool,
                  metaCache: map<string, Fields>, contentCache: map<string, string>, host: Host): seq<Article>
  {
    FilterWith(entries, Step(q, includeContent, metaCache, contentCache, host))
  }

  /** The loop treats each article on its own: a failure skips that article only. */
  lemma {:induction false} FilterAppend(xs: seq<Article>, ys: seq<Article>, step: Article -> Option<Article>)
    ensures FilterWith(xs + ys, step) == FilterWith(xs, step) + FilterWith(ys, step)
    decreases |ys|
  {
    if ys == [] {
      assert xs + ys == xs;
    } else {
      var ys' := ys[..|ys| - 1];
      assert (xs + ys)[..|xs + ys| - 1] == xs + ys';
      FilterAppend(xs, ys', step);
    }
  }

  /** One more entry adds its processed form, if any, at the end. */
  lemma FilterSnoc(prefix: seq<Article>, a: Article, step: Article -> Option<Article>)
    ensures FilterWith(prefix + [a], step) ==
            FilterWith(prefix, step) + (match step(a) case Some(x) => [x] case None => [])
  {
    assert (prefix + [a])[..|prefix|] == prefix;
  }

  /** The indices of the entries that survive the loop. */
  function Selected(entries: seq<Article>, step: Article -> Option<Article>): seq<nat>
  {
    if entries == [] then []
    else
      var n := |entries| - 1;
      Selected(entries[..n], step) + (if step(entries[n]).Some? then [n] else [])
  }

  /** The results are a subsequence of the index, in index order: result k is the
      processed form of entry Selected[k], and the selected indices increase. */
  lemma {:induction false} FilterIsSubsequence(entries: seq<Article>, step: Article -> Option<Article>)
    ensures var r := FilterWith(entries, step);
            var sel := Selected(entries, step);
            |r| == |sel| &&
            (forall k :: 0 <= k < |sel| ==> sel[k] < |entries|) &&
            (forall k, l :: 0 <= k < l < |sel| ==> sel[k] < sel[l]) &&
            (forall k :: 0 <= k < |sel| ==> step(entries[sel[k]]) == Some(r[k]))
    decreases |entries|
  {
    if entries != [] {
      var n := |entries| - 1;
      var init := entries[..n];
      FilterIsSubsequence(init, step);
      var sel0 := Selected(init, step);
      var r0 := FilterWith(init, step);
      forall k | 0 <= k < |sel0| ensures entries[sel0[k]] == init[sel0[k]] {
      }
      if step(entries[n]).Some? {
        var r := FilterWith(entries, step);
        var sel := Selected(entries, step);
        assert r == r0 + [step(entries[n]).value];
        assert sel == sel0 + [n];
        assert forall k :: 0 <= k < |sel0| ==> sel[k] == sel0[k] && r[k] == r0[k];
      }
    }
  }

  /** An entry yields a result exactly when its processed form exists, and every
      result is such a processed entry. */
  lemma {:induction false} FilterMembership(entries: seq<Article>, step: Article -> Option<Article>, x: Article)
    ensures x in FilterWith(entries, step) <==> exists i :: 0 <= i < |entries| && step(entries[i]) == Some(x)
    decreases |entries|
  {
    if entries != [] {
      var n := |entries| - 1;
      var init := entries[..n];
      FilterMembership(init, step, x);
      var tail := match step(entries[n]) case Some(y) => [y] case None => [];
      assert FilterWith(entries, step) == FilterWith(init, step) + tail;
      assert x in tail <==> step(entries[n]) == Some(x);
      if exists i :: 0 <= i < |entries| && step(entries[i]) == Some(x) {
        var i :| 0 <= i < |entries| && step(entries[i]) == Some(x);
        if i < n {
          assert init[i] == entries[i];
        }
      }
      if exists i :: 0 <= i < |init| && step(init[i]) == Some(x) {
        var i :| 0 <= i < |init| && step(init[i]) == Some(x);
        assert entries[i] == init[i];
      }
    }
  }

  /** The inclusion rule: an article whose metadata (and, with content search, whose
      content) could be fetched is a result iff its lower-cased title or description
      contains the lower-cased query, or, with content search, its lower-cased
      content does. */
  lemma InclusionRule(a: Article, query: string, includeContent: bool,
                      metaCache: map<string, Fields>, contentCache: map<string, string>, host: Host)
    requires Lookup(metaCache, host.metadata, a.name).Some?
    requires includeContent ==> Lookup(contentCache, host.content, a.name).Some?
    ensures var m := Lookup(metaCache, host.metadata, a.name).value;
            var full := Spread(a.fields, m);
            Process(a, Lower(query), includeContent, metaCache, contentCache, host).Some? <==>
              (FieldMatches(full.title, Lower(query)) || FieldMatches(full.description, Lower(query)) ||
               (includeContent && Contains(Lower(Lookup(contentCache, host.content, a.name).value), Lower(query))))
  {
  }

  /** With content search on, every result carries the fetched Markdown text. */
  lemma {:induction false} ResultsCarryContent(entries: seq<Article>, q: string,
                                               metaCache: map<string, Fields>, contentCache: map<string, string>, host: Host)
    ensures forall x :: x in Filter(entries, q, true, metaCache, contentCache, host) ==>
              Lookup(contentCache, host.content, x.name).Some? &&
              x.fields.content == Lookup(contentCache, host.content, x.name)
  {
    var step := Step(q, true, metaCache, contentCache, host);
    forall x | x in Filter(entries, q, true, metaCache, contentCache, host)
      ensures Lookup(contentCache, host.content, x.name).Some? &&
              x.fields.content == Lookup(contentCache, host.content, x.name)
    {
      FilterMembership(entries, step, x);
      var i :| 0 <= i < |entries| && step(entries[i]) == Some(x);
      assert Process(entries[i], q, true, metaCache, contentCache, host) == Some(x);
    }
  }

  /** Looking up entries through caches warmed by earlier iterations gives what the
      initial caches give. */
  lemma ProcessWarmed(a: Article, q: string, includeContent: bool,
                      metaCache: map<string, Fields>, contentCache: map<string, string>, host: Host,
                      metaNames: set<string>, contentNames: set<string>)
    ensures Process(a, q, includeContent, Warmed(metaCache, host.metadata, metaNames),
                    Warmed(contentCache, host.content, contentNames), host) ==
            Process(a, q, includeContent, metaCache, contentCache, host)
  {
    WarmedLookup(metaCache, host.metadata, metaNames, a.name);
    WarmedLookup(contentCache, host.content, contentNames, a.name);
  }

  /** How one loop iteration moves the results and both caches forward. */
  lemma SearchStep(prefix: seq<Article>, a: Article, q: string, includeContent: bool,
                   m0: map<string, Fields>, c0: map<string, string>, host: Host)
    ensures Remember(Warmed(m0, host.metadata, NamesOf(prefix)), host.metadata, a.name) ==
            Warmed(m0, host.metadata, NamesOf(prefix + [a]))
    ensures var cNames := ContentNames(prefix, includeContent, m0, host);
            var c := Warmed(c0, host.content, cNames);
            (if includeContent && Lookup(Warmed(m0, host.metadata, NamesOf(prefix)), host.metadata, a.name).Some?
             then Remember(c, host.content, a.name) else c) ==
            Warmed(c0, host.content, ContentNames(prefix + [a], includeContent, m0, host))
  {
    assert (prefix + [a])[..|prefix|] == prefix;
    NamesOfSnoc(prefix, a);
    var mNames := NamesOf(prefix);
    var cNames := ContentNames(prefix, includeContent, m0, host);
    WarmedLookup(m0, host.metadata, mNames, a.name);
    WarmedRemember(m0, host.metadata, mNames, a.name);
    WarmedRemember(c0, host.content, cNames, a.name);
    if includeContent && Lookup(m0, host.metadata, a.name).Some? {
      assert ContentNames(prefix + [a], includeContent, m0, host) == cNames + {a.name};
    } else {
      assert ContentNames(prefix + [a], includeContent, m0, host) == cNames;
    }
  }

  class Service {
    /** The module-level `metadataCache` and `contentCache` Maps. */
    var metadataCache: map<string, Fields>
    var contentCache: map<string, string>

    constructor ()
      ensures metadataCache == map[] && contentCache == map[]
    {
      metadataCache := map[];
      contentCache := map[];
    }

    /** fetchArticleMetadata: a cached entry is returned without a fetch; a successful
        fetch is cached; a failure (None: the function throws) is never cached. */
    method FetchArticleMetadata(name: string, host: Host) returns (r: Option<Fields>)
      modifies this`metadataCache
      ensures r == Lookup(old(metadataCache), host.metadata, name)
      ensures name in old(metadataCache) ==> r == Some(old(metadataCache)[name]) && metadataCache == old(metadataCache)
      ensures metadataCache == Remember(old(metadataCache), host.metadata, name)
    {
      if name in metadataCache {
        return Some(metadataCache[name]);
      }
      if name in host.metadata {
        var data := host.metadata[name];
        metadataCache := metadataCache[name := data];
        return Some(data);
      }
      return None;
    }

    /** fetchArticleContent: the same memoisation for the Markdown text. */
    method FetchArticleContent(name: string, host: Host) returns (r: Option<string>)
      modifies this`contentCache
      ensures r == Lookup(old(contentCache), host.content, name)
      ensures name in old(contentCache) ==> r == Some(old(contentCache)[name]) && contentCache == old(contentCache)
      ensures contentCache == Remember(old(contentCache), host.content, name)
    {
      if name in contentCache {
        return Some(contentCache[name]);
      }
      if name in host.content {
        var text := host.content[name];
        contentCache := contentCache[name := text];
        return Some(text);
      }
      return None;
    }

    /** The body of the `try` in the search loop for one index entry. */
    method ProcessArticle(article: Article, searchQuery: string, includeContent: bool, host: Host) returns (r: Option<Article>)
      modifies this`metadataCache, this`contentCache
      ensures r == Process(article, searchQuery, includeContent, old(metadataCache), old(contentCache), host)
      ensures metadataCache == Remember(old(metadataCache), host.metadata, article.name)
      ensures contentCache ==
                if includeContent && Lookup(old(metadataCache), host.metadata, article.name).Some?
                then Remember(old(contentCache), host.content, article.name)
                else old(contentCache)
    {
      var metadata := FetchArticleMetadata(article.name, host);
      if metadata.None? {
        return None;
      }
      var fullArticle := Article(article.name, Spread(article.fields, metadata.value));
      var titleMatch := FieldMatches(fullArticle.fields.title, searchQuery);
      var descMatch := FieldMatches(fullArticle.fields.description, searchQuery);
      var contentMatch := false;
      if includeContent {
        var content := FetchArticleContent(article.name, host);
        if content.None? {
          return None;
        }
        contentMatch := Contains(Lower(content.value), searchQuery);
        fullArticle := fullArticle.(fields := fullArticle.fields.(content := content));
      }
      r := if titleMatch || descMatch || contentMatch then Some(fullArticle) else None;
    }

    /** searchArticles */
    method SearchArticles(query: string, includeContent: bool, host: Host) returns (res: SearchResults)
      modifies this`metadataCache, this`contentCache
      ensures !res.loading
      ensures Trim(query) == [] ==>
                res == SearchResults([], false, None) &&
                metadataCache == old(metadataCache) && contentCache == old(contentCache)
      ensures Trim(query) != [] && FetchArticlesIndex(host).Failed? ==>
                res == SearchResults([], false, Some(FetchArticlesIndex(host).message))
      ensures Trim(query) != [] && FetchArticlesIndex(host).Entries? ==>
                var entries := FetchArticlesIndex(host).entries;
                res == SearchResults(Filter(entries, Lower(query), includeContent,
                                            old(metadataCache), old(contentCache), host), false, None) &&
                metadataCache == Warmed(old(metadataCache), host.metadata, NamesOf(entries)) &&
                contentCache == Warmed(old(contentCache), host.content,
                                       ContentNames(entries, includeContent, old(metadataCache), host))
    {
      if Trim(query) == [] {
        return SearchResults([], false, None);
      }
      var index := FetchArticlesIndex(host);
      if index.Failed? {
        return SearchResults([], false, Some(index.message));
      }
      var articles := index.entries;
      var results := SearchLoop(articles, Lower(query), includeContent, host);
      return SearchResults(results, false, None);
    }

    /** The `for` loop of searchArticles over the index entries. */
    method SearchLoop(articles: seq<Article>, searchQuery: string, includeContent: bool, host: Host)
      returns (results: seq<Article>)
      modifies this`metadataCache, this`contentCache
      ensures results == Filter(articles, searchQuery, includeContent, old(metadataCache), old(contentCache), host)
      ensures metadataCache == Warmed(old(metadataCache), host.metadata, NamesOf(articles))
      ensures contentCache == Warmed(old(contentCache), host.content,
                                     ContentNames(articles, includeContent, old(metadataCache), host))
    {
      results := [];
      ghost var m0 := metadataCache;
      ghost var c0 := contentCache;
      assert articles[..0] == [];
      for i := 0 to |articles|
        invariant results == Filter(articles[..i], searchQuery, includeContent, m0, c0, host)
        invariant metadataCache == Warmed(m0, host.metadata, NamesOf(articles[..i]))
        invariant contentCache == Warmed(c0, host.content, ContentNames(articles[..i], includeContent, m0, host))
      {
        var article := articles[i];
        ghost var prefix := articles[..i];
        assert articles[..i + 1] == prefix + [article];
        var processed := SearchOne(article, searchQuery, includeContent, host, prefix, m0, c0);
        FilterSnoc(prefix, article, Step(searchQuery, includeContent, m0, c0, host));
        if processed.Some? {
          results := results + [processed.value];
        }
      }
      assert articles[..|articles|] == articles;
    }

    /** One iteration of the search loop, on caches warmed by the entries before it. */
    method SearchOne(article: Article, searchQuery: string, includeContent: bool, host: Host,
                     ghost prefix: seq<Article>, ghost m0: map<string, Fields>, ghost c0: map<string, string>)
      returns (processed: Option<Article>)
      modifies this`metadataCache, this`contentCache
      requires metadataCache == Warmed(m0, host.metadata, NamesOf(prefix))
      requires contentCache == Warmed(c0, host.content, ContentNames(prefix, includeContent, m0, host))
      ensures processed == Process(article, searchQuery, includeContent, m0, c0, host)
      ensures metadataCache == Warmed(m0, host.metadata, NamesOf(prefix + [article]))
      ensures contentCache == Warmed(c0, host.content, ContentNames(prefix + [article], includeContent, m0, host))
    {
      ProcessWarmed(article, searchQuery, includeContent, m0, c0, host, NamesOf(prefix),
                    ContentNames(prefix, includeContent, m0, host));
      processed := ProcessArticle(article, searchQuery, includeContent, host);
      SearchStep(prefix, article, searchQuery, includeContent, m0, c0, host);
    }
  }
}
