/** app/components/homePage/blogSection.tsx: the home page's blog section, which
    shows the featured articles when there are any and the latest ones otherwise. */
module BlogSection {
  import opened TextUtil
  import ArticleCard

  const FeaturedTitle: string := "Featured Articles"
  const LatestTitle: string := "Latest Blog Posts"
  const ArticlesPrefix: string := "Articles/"
  /** The loading skeleton shows this many placeholder cards. */
  const SkeletonCards: nat := 3

  datatype Article = Article(name: string)
  datatype FeaturedArticle = FeaturedArticle(path: string)

  /** What the section renders: the skeleton, nothing (`null`), or a titled grid
      of cards given by their link paths, in order. */
  datatype View = Skeleton(cards: nat) | Nothing | Section(title: string, paths: seq<string>)

  /** The default `[]` of an absent list. */
  function OrEmpty<T>(xs: Option<seq<T>>): (r: seq<T>)
    ensures xs.Some? ==> r == xs.value
    ensures xs.None? ==> r == []
  {
    if xs.Some? then xs.value else []
  }

  function FeaturedPaths(fs: seq<FeaturedArticle>): (r: seq<string>)
    ensures |r| == |fs|
    ensures forall i :: 0 <= i < |fs| ==> r[i] == fs[i].path
  {
    if fs == [] then [] else FeaturedPaths(fs[..|fs| - 1]) + [fs[|fs| - 1].path]
  }

  function ArticlePaths(articles: seq<Article>): (r: seq<string>)
    ensures |r| == |articles|
    ensures forall i :: 0 <= i < |articles| ==> r[i] == ArticlesPrefix + articles[i].name
  {
    if articles == [] then [] else ArticlePaths(articles[..|articles| - 1]) + [ArticlesPrefix + articles[|articles| - 1].name]
  }

  /** BlogSection: `loading` is the (possibly absent, hence falsy) flag. */
  function Render(loading: bool, articles: Option<seq<Article>>, featured: Option<seq<FeaturedArticle>>): (r: View)
    ensures loading ==> r == Skeleton(SkeletonCards)
    ensures !loading ==> (r == Nothing <==> OrEmpty(articles) == [] && OrEmpty(featured) == [])
    ensures !loading && OrEmpty(featured) != [] ==>
              r.Section? && r.title == FeaturedTitle && |r.paths| == |OrEmpty(featured)| &&
              forall i :: 0 <= i < |r.paths| ==> r.paths[i] == OrEmpty(featured)[i].path
    ensures !loading && OrEmpty(featured) == [] && OrEmpty(articles) != [] ==>
              r.Section? && r.title == LatestTitle && |r.paths| == |OrEmpty(articles)| &&
              forall i :: 0 <= i < |r.paths| ==> r.paths[i] == ArticlesPrefix + OrEmpty(articles)[i].name
  {
    var articles := OrEmpty(articles);
    var featured := OrEmpty(featured);
    if loading then Skeleton(SkeletonCards)
    else if |articles| == 0 && |featured| == 0 then Nothing
    else if |featured| > 0 then Section(FeaturedTitle, FeaturedPaths(featured))
    else Section(LatestTitle, ArticlePaths(articles))
  }

  /** A non-empty featured list hides the latest articles entirely. */
  lemma FeaturedHidesLatest(articles: Option<seq<Article>>, other: Option<seq<Article>>, featured: seq<FeaturedArticle>)
    requires featured != []
    ensures Render(false, articles, Some(featured)) == Render(false, other, Some(featured))
  {
  }

  /** Every card of the latest list links into "Articles/", and the article it
      names can be read back from its path. */
  lemma {:induction false} LatestPathsNameArticles(articles: seq<Article>, i: int)
    requires articles != [] && 0 <= i < |articles|
    ensures var v := Render(false, Some(articles), None);
            StartsWith(v.paths[i], ArticlesPrefix) && v.paths[i][|ArticlesPrefix|..] == articles[i].name
  {
    var v := Render(false, Some(articles), None);
    assert v.paths[i] == ArticlesPrefix + articles[i].name;
  }

  /** The section never renders a title without at least one card. */
  lemma SectionIsNonEmpty(loading: bool, articles: Option<seq<Article>>, featured: Option<seq<FeaturedArticle>>)
    ensures Render(loading, articles, featured).Section? ==> |Render(loading, articles, featured).paths| > 0
  {
  }

  /** The props each card of the grid receives, as written: the path only (`key`
      is React's own and never reaches the component). */
  function PathOnly(path: string): ArticleCard.GivenProps {
    ArticleCard.GivenProps(None, None, None, None, None, Some(path))
  }

  /** The outcome of rendering the section with its cards: the view, or a
      TypeError thrown by a card. */
  datatype Outcome = Shows(view: View) | Throws

  /** The section with its cards as written: every card reads the description
      it was never given, so a section with at least one card throws. */
  function RenderAsWritten(loading: bool, articles: Option<seq<Article>>, featured: Option<seq<FeaturedArticle>>): (r: Outcome)
    ensures r.Throws? <==> !loading && (OrEmpty(articles) != [] || OrEmpty(featured) != [])
    ensures r.Shows? ==> r.view == Render(loading, articles, featured)
  {
    var v := Render(loading, articles, featured);
    if v.Section? && exists i :: 0 <= i < |v.paths| && ArticleCard.RenderGiven(PathOnly(v.paths[i])).TypeError? then
      Throws
    else
      assert v.Section? ==> ArticleCard.RenderGiven(PathOnly(v.paths[0])).TypeError?;
      Shows(v)
  }

  /** Cards given their article's props, which `props` supplies for each path: the
      card links to the path and shows that article's title and cut description. */
  function CardsWithProps(paths: seq<string>, props: string -> ArticleCard.CardProps): (r: seq<ArticleCard.Card>)
    ensures |r| == |paths|
    ensures forall i :: 0 <= i < |paths| ==>
              ArticleCard.RenderGiven(ArticleCard.AllGiven(props(paths[i]).(path := paths[i]))) == ArticleCard.Rendered(r[i]) &&
              r[i].link == paths[i] && r[i].title == props(paths[i]).title &&
              r[i].text == ArticleCard.Truncate(props(paths[i]).description)
  {
    seq(|paths|, i requires 0 <= i < |paths| => ArticleCard.RenderCard(props(paths[i]).(path := paths[i])))
  }

  /** The section with cards that are passed their props: it never throws, and each
      card of the view links to its path. */
  function RenderWithProps(loading: bool, articles: Option<seq<Article>>, featured: Option<seq<FeaturedArticle>>,
                           props: string -> ArticleCard.CardProps): (r: (View, seq<ArticleCard.Card>))
    ensures r.0 == Render(loading, articles, featured)
    ensures r.0.Section? ==> |r.1| == |r.0.paths| > 0 && forall i :: 0 <= i < |r.1| ==> r.1[i].link == r.0.paths[i]
    ensures !r.0.Section? ==> r.1 == []
  {
    var v := Render(loading, articles, featured);
    if v.Section? then (v, CardsWithProps(v.paths, props)) else (v, [])
  }
}
