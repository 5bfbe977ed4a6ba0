/** app/utils/structuredData.ts: the schema.org JSON-LD records of an article, a
    person, the website and the blog. */
module StructuredData {
  import opened TextUtil

  const Context: string := "https://schema.org"

  /** An `ImageObject` with its pixel size. */
  datatype ImageObject = ImageObject(url: string, width: int, height: int)

  /** A `Person` reference (author or publisher); the website record gives no url. */
  datatype PersonRef = PersonRef(name: string, url: Option<string>)

  /** The input of the article builder; `None` is an absent optional field. */
  datatype ArticleData = ArticleData(
    title: string,
    description: string,
    image: Option<string>,
    author: Option<string>,
    date: Option<string>,
    url: string)

  /** The `Article` record. `mainEntityId` is `mainEntityOfPage["@id"]` of the
      `WebPage` it points to. */
  datatype ArticleLd = ArticleLd(
    context: string,
    headline: string,
    description: string,
    author: PersonRef,
    publisher: PersonRef,
    datePublished: string,
    dateModified: string,
    url: string,
    mainEntityId: string,
    image: Option<ImageObject>)

  datatype PersonData = PersonData(name: string, description: string, image: Option<string>, url: string)

  datatype PersonLd = PersonLd(
    context: string,
    name: string,
    description: string,
    url: string,
    jobTitle: string,
    worksFor: string,
    knowsAbout: seq<string>,
    image: Option<ImageObject>)

  datatype WebsiteData = WebsiteData(name: string, description: string, url: string)

  /** The `Website` and `Blog` records share one shape; `kind` is their `@type`. */
  datatype SiteLd = SiteLd(
    context: string,
    kind: string,
    name: string,
    description: string,
    url: string,
    author: PersonRef,
    publisher: PersonRef)

  predicate Truthy(v: Option<string>) {
    v.Some? && v.value != ""
  }

  /** `new Date(...).toISOString()`: `toIso` gives the text of a date string, or
      `None` when the date is invalid and the call throws; `nowIso` is the current
      time's text. The record is `None` when the builder throws. */
  function DateText(date: Option<string>, toIso: string -> Option<string>, nowIso: string): Option<string> {
    if Truthy(date) then toIso(date.value) else Some(nowIso)
  }

  /** `url.split('/blog/')[0]`: the site part of an article url. */
  function SiteOf(url: string): (r: string)
    ensures StartsWith(url, r) && !Contains(r, "/blog/")
    ensures Contains(url, "/blog/") ==> OccursAt(url, "/blog/", |r|)
    ensures !Contains(url, "/blog/") ==> r == url
  {
    BeforeFirst(url, "/blog/")
  }

  /** generateArticleStructuredData, for the author's name `name` (NAME). */
  function ArticleStructuredData(data: ArticleData, name: string, toIso: string -> Option<string>, nowIso: string)
    : (r: Option<ArticleLd>)
    ensures r.Some? <==> DateText(data.date, toIso, nowIso).Some?
    ensures r.Some? ==>
              var a := r.value;
              a.context == Context && a.headline == data.title && a.description == data.description &&
              a.author.name == (if Truthy(data.author) then data.author.value else name) &&
              a.publisher.name == name &&
              a.author.url == Some(SiteOf(data.url)) && a.publisher.url == a.author.url &&
              a.url == data.url && a.mainEntityId == data.url &&
              a.datePublished == a.dateModified &&
              (a.image.Some? <==> Truthy(data.image)) &&
              (a.image.Some? ==> a.image.value == ImageObject(data.image.value, 1200, 630))
  {
    var date := DateText(data.date, toIso, nowIso);
    if date.None? then None
    else
      var site := SiteOf(data.url);
      var a := ArticleLd(
        Context, data.title, data.description,
        PersonRef(if Truthy(data.author) then data.author.value else name, Some(site)),
        PersonRef(name, Some(site)),
        date.value, date.value, data.url, data.url, None);
      if Truthy(data.image) then Some(a.(image := Some(ImageObject(data.image.value, 1200, 630)))) else Some(a)
  }

  const KnowsAbout: seq<string> :=
    ["Software Engineering", "Web Development", "JavaScript", "React", "Node.js", "Python", "AI Integration"]

  /** generatePersonStructuredData */
  function PersonStructuredData(data: PersonData): (r: PersonLd)
    ensures r.name == data.name && r.description == data.description && r.url == data.url
    ensures r.jobTitle == "Software Engineer" && r.worksFor == "Freelance" && |r.knowsAbout| == 7
    ensures r.image.Some? <==> Truthy(data.image)
    ensures r.image.Some? ==> r.image.value == ImageObject(data.image.value, 400, 400)
  {
    var p := PersonLd(Context, data.name, data.description, data.url, "Software Engineer", "Freelance", KnowsAbout, None);
    if Truthy(data.image) then p.(image := Some(ImageObject(data.image.value, 400, 400))) else p
  }

  /** generateWebsiteStructuredData: the site's author and publisher are the
      owner, without a url. */
  function WebsiteStructuredData(data: WebsiteData, name: string): (r: SiteLd)
    ensures r.kind == "Website" && r.name == data.name && r.description == data.description && r.url == data.url
    ensures r.author == PersonRef(name, None) && r.publisher == r.author
  {
    SiteLd(Context, "Website", data.name, data.description, data.url, PersonRef(name, None), PersonRef(name, None))
  }

  /** generateBlogStructuredData: "<name> - Blog" at "<url>/blog", by the owner at
      the site's url. */
  function BlogStructuredData(data: WebsiteData, name: string): (r: SiteLd)
    ensures r.kind == "Blog" && r.name == data.name + " - Blog" && r.description == data.description
    ensures r.url == data.url + "/blog"
    ensures r.author == PersonRef(name, Some(data.url)) && r.publisher == r.author
  {
    SiteLd(Context, "Blog", data.name + " - Blog", data.description, data.url + "/blog",
           PersonRef(name, Some(data.url)), PersonRef(name, Some(data.url)))
  }

  /** An article published under the blog of a site is attributed to that site:
      for an article url `<site>/blog/<slug>`, the article's author and publisher
      carry the same url as the blog record's author, provided "/blog/" first
      occurs after the site part. */
  lemma {:induction false} ArticleAuthorIsBlogAuthor(
    site: string, slug: string, blog: WebsiteData, data: ArticleData, name: string,
    toIso: string -> Option<string>, nowIso: string)
    requires !Contains(site + "/blog", "/blog/")
    requires data.url == site + "/blog/" + slug && blog.url == site
    requires ArticleStructuredData(data, name, toIso, nowIso).Some?
    ensures ArticleStructuredData(data, name, toIso, nowIso).value.author == BlogStructuredData(blog, name).author.(
              name := ArticleStructuredData(data, name, toIso, nowIso).value.author.name)
    ensures ArticleStructuredData(data, name, toIso, nowIso).value.publisher == BlogStructuredData(blog, name).publisher
  {
    SiteOfBlogUrl(site, slug);
  }

  /** The site part of `<site>/blog/<slug>` is `<site>` when "/blog/" first
      occurs after it. */
  lemma SiteOfBlogUrl(site: string, slug: string)
    requires !Contains(site + "/blog", "/blog/")
    ensures SiteOf(site + "/blog/" + slug) == site
  {
    var u := site + "/blog/" + slug;
    var pat := "/blog/";
    assert u[|site|..|site| + 6] == pat;
    assert OccursAt(u, pat, |site|);
    var i := IndexOf(u, pat);
    assert i == |site| by {
      if i < |site| {
        var w := site + "/blog";
        assert u[i..i + 6] == w[i..i + 6];
        ContainsWitness(w, pat, i);
      }
    }
    assert u[..|site|] == site;
  }
}
