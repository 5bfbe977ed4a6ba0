/** app/routes/viewArticle.tsx: the article loader (both-or-nothing fetch of the
    Markdown and the metadata, image-path resolution, extension probing) and the
    page title. */
module ViewArticle {
  import opened TextUtil

  /** The keys of an article's metadata JSON; `None` means the key is absent. */
  datatype Metadata = Metadata(
    title: Option<string>,
    description: Option<string>,
    image: Option<string>,
    date: Option<string>,
    author: Option<string>,
    content: Option<string>)

  /** The content host, by URL: the Markdown texts and metadata objects it serves
      with an ok status, and the URLs whose plain GET answers ok (the image probe).
      A URL outside these is a non-ok or rejected request. */
  datatype Host = Host(markdown: map<string, string>, metadata: map<string, Metadata>, available: set<string>)

  datatype LoadResult = Loaded(data: Metadata) | LoadError(message: string)

  /** A JavaScript truthiness test on an optional string. */
  predicate Truthy(v: Option<string>) {
    v.Some? && v.value != ""
  }

  /** `p.split("/").slice(0, -1).join("/")`: everything before the last '/'. */
  function DirName(p: string): (r: string)
    ensures LastIndexOfChar(p, '/') < 0 ==> r == ""
    ensures LastIndexOfChar(p, '/') >= 0 ==>
              |r| == LastIndexOfChar(p, '/') && p == r + "/" + p[|r| + 1..] && '/' !in p[|r| + 1..]
  {
    var k := LastIndexOfChar(p, '/');
    if k < 0 then ""
    else
      assert p == p[..k] + "/" + p[k + 1..];
      p[..k]
  }

  /** A one-segment article name lives directly in the Articles directory. */
  lemma DirNameOfArticle(path: string)
    requires '/' !in path
    ensures DirName("Articles/" + path) == "Articles"
  {
    var p := "Articles/" + path;
    assert p[8] == '/';
    assert LastIndexOfChar(p, '/') == 8;
  }

  /** The first step of the image rule: a non-empty image that does not start with
      "http" is resolved against the article's directory under the base URL. */
  function ResolveImage(base: string, articlePath: string, image: Option<string>): (r: Option<string>)
    ensures Truthy(image) && StartsWith(image.value, "http") ==> r == image
    ensures !Truthy(image) ==> r == image
    ensures Truthy(image) && !StartsWith(image.value, "http") ==>
              r == Some(base + "/" + DirName(articlePath) + "/" + image.value)
  {
    if Truthy(image) && !StartsWith(image.value, "http")
    then Some(base + "/" + DirName(articlePath) + "/" + image.value)
    else image
  }

  const Extensions: seq<string> := [".jpg", ".jpeg", ".png", ".webp"]

  function ProbeUrl(base: string, articlePath: string, ext: string): string {
    base + "/" + articlePath + ext
  }

  /** The first of the probe URLs, in extension order, that answers ok. */
  function FirstAvailable(base: string, articlePath: string, available: set<string>, from: nat): (r: Option<string>)
    requires from <= |Extensions|
    ensures r.Some? ==> exists k :: from <= k < |Extensions| && r.value == ProbeUrl(base, articlePath, Extensions[k]) &&
                          r.value in available &&
                          forall j :: from <= j < k ==> ProbeUrl(base, articlePath, Extensions[j]) !in available
    ensures r.None? <==> forall j :: from <= j < |Extensions| ==> ProbeUrl(base, articlePath, Extensions[j]) !in available
    decreases |Extensions| - from
  {
    if from == |Extensions| then None
    else
      var url := ProbeUrl(base, articlePath, Extensions[from]);
      if url in available then Some(url) else FirstAvailable(base, articlePath, available, from + 1)
  }

  /** The image the loader returns: the resolved image when it is non-empty,
      otherwise the first probe that succeeds, otherwise the field as it was. */
  function FinalImage(base: string, articlePath: string, image: Option<string>, available: set<string>): (r: Option<string>)
    ensures Truthy(image) ==> r == ResolveImage(base, articlePath, image)
    ensures Truthy(r) <==>
              Truthy(image) || exists j :: 0 <= j < |Extensions| && ProbeUrl(base, articlePath, Extensions[j]) in available
    ensures !Truthy(image) && FirstAvailable(base, articlePath, available, 0).None? ==> r == image
  {
    var resolved := ResolveImage(base, articlePath, image);
    if Truthy(resolved) then resolved
    else match FirstAvailable(base, articlePath, available, 0)
         case Some(url) => Some(url)
         case None => resolved
  }

  /** The probe loop of the loader: extensions tried in order, stopping at the
      first ok response; failures and exceptions move on to the next one. */
  method ProbeImage(base: string, articlePath: string, host: Host) returns (image: Option<string>)
    ensures image == FirstAvailable(base, articlePath, host.available, 0)
  {
    image := None;
    var i := 0;
    while i < |Extensions| && image.None?
      invariant 0 <= i <= |Extensions|
      invariant image.None? ==> forall j :: 0 <= j < i ==> ProbeUrl(base, articlePath, Extensions[j]) !in host.available
      invariant image == None || image == FirstAvailable(base, articlePath, host.available, 0)
    {
      var url := ProbeUrl(base, articlePath, Extensions[i]);
      if url in host.available {
        image := Some(url);
        FirstAvailableAt(base, articlePath, host.available, i);
      }
      i := i + 1;
    }
  }

  lemma FirstAvailableAt(base: string, articlePath: string, available: set<string>, i: nat)
    requires i < |Extensions|
    requires ProbeUrl(base, articlePath, Extensions[i]) in available
    requires forall j :: 0 <= j < i ==> ProbeUrl(base, articlePath, Extensions[j]) !in available
    ensures FirstAvailable(base, articlePath, available, 0) == Some(ProbeUrl(base, articlePath, Extensions[i]))
  {
    var k := 0;
    while k < i
      invariant k <= i
      invariant FirstAvailable(base, articlePath, available, 0) == FirstAvailable(base, articlePath, available, k)
    {
      k := k + 1;
    }
  }

  /** loader: both requests must succeed, or the loader fails with "Failed to load
      article" and returns nothing; the result is the metadata with the resolved or
      probed image and with `content` set to the Markdown text. */
  method Loader(path: string, base: string, host: Host) returns (r: LoadResult)
    ensures var articlePath := "Articles/" + path;
            var mdUrl := base + "/" + articlePath + ".md";
            var jsonUrl := base + "/" + articlePath + ".json";
            (mdUrl !in host.markdown || jsonUrl !in host.metadata ==> r == LoadError("Failed to load article")) &&
            (mdUrl in host.markdown && jsonUrl in host.metadata ==>
               r.Loaded? &&
               r.data == host.metadata[jsonUrl].(
                 image := FinalImage(base, articlePath, host.metadata[jsonUrl].image, host.available),
                 content := Some(host.markdown[mdUrl])))
  {
    var articlePath := "Articles/" + path;
    var mdUrl := base + "/" + articlePath + ".md";
    var jsonUrl := base + "/" + articlePath + ".json";
    if mdUrl !in host.markdown || jsonUrl !in host.metadata {
      return LoadError("Failed to load article");
    }
    var content := host.markdown[mdUrl];
    var metadata := host.metadata[jsonUrl];
    if Truthy(metadata.image) && !StartsWith(metadata.image.value, "http") {
      metadata := metadata.(image := Some(base + "/" + DirName(articlePath) + "/" + metadata.image.value));
    }
    if !Truthy(metadata.image) {
      var probed := ProbeImage(base, articlePath, host);
      if probed.Some? {
        metadata := metadata.(image := probed);
      }
    }
    return Loaded(metadata.(content := Some(content)));
  }

  /** A relative image of a top-level article resolves into the Articles directory:
      image "bar.png" of article "foo" becomes `<base>/Articles/bar.png`, and no
      probe is made. */
  lemma TopLevelImage(base: string, path: string, image: string, available: set<string>)
    requires '/' !in path && image != "" && !StartsWith(image, "http")
    ensures FinalImage(base, "Articles/" + path, Some(image), available) == Some(base + "/Articles/" + image)
  {
    DirNameOfArticle(path);
    assert base + "/" + "Articles" + "/" + image == base + "/Articles/" + image;
  }

  /** The page's title and description meta entries. */
  datatype PageMeta = PageMeta(title: string, description: Option<string>)

  /** meta: "<title> - NAME" when the loaded data has a non-empty title, else NAME;
      the description is the data's description, absent when there is no data. */
  function Meta(data: Option<Metadata>, siteName: string): (r: PageMeta)
    ensures data.Some? && Truthy(data.value.title) ==> r.title == data.value.title.value + " - " + siteName
    ensures !(data.Some? && Truthy(data.value.title)) ==> r.title == siteName
    ensures data.None? ==> r.description == None
    ensures data.Some? ==> r.description == data.value.description
  {
    PageMeta(if data.Some? && Truthy(data.value.title) then data.value.title.value + " - " + siteName else siteName,
             if data.Some? then data.value.description else None)
  }
}
