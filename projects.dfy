/** app/routes/projects.tsx: the server-side TTL cache of the generated projects
    file, the loader's filter and normalisation, and the twitter handle of the
    page's meta tags. */
module Projects {
  import opened TextUtil

  /** A project record as it appears in projects-generated.json; `None` is an
      absent key. */
  datatype RawProject = RawProject(
    name: Option<string>,
    title: Option<string>,
    description: Option<string>,
    image: Option<string>,
    date: Option<string>,
    author: Option<string>,
    path: Option<string>)

  /** The `projects` key of the file: absent, or a list whose entries may be null. */
  type ProjectList = Option<seq<Option<RawProject>>>

  /** The request for the generated file: a non-ok status, a body that is not
      JSON (with the parser's error message), or the parsed body's `projects` key. */
  datatype ProjectsResponse = NotOk | BadJson(message: string) | Served(projects: ProjectList)

  datatype FetchOutcome = Fetched(projects: ProjectList) | FetchFailed(message: string)

  const CacheTtl: int := 5 * 60 * 1000

  predicate Truthy(v: Option<string>) {
    v.Some? && v.value != ""
  }

  /** The cache answers iff it holds data, its timestamp is non-zero, and less than
      the TTL has passed since. */
  predicate Fresh(data: ProjectList, timestamp: int, now: int) {
    data.Some? && timestamp != 0 && now - timestamp < CacheTtl
  }

  /** `projectsCache`, alive for the lifetime of the server process. */
  class ProjectsCache {
    var data: ProjectList
    var timestamp: int

    constructor ()
      ensures data == None && timestamp == 0
    {
      data := None;
      timestamp := 0;
    }

    /** fetchWithCache at clock time `now`; `response` is what the request would
        return, used only on a miss. A hit returns the cached list; a miss with an
        ok JSON body stores its `projects` with timestamp `now`; a failed request
        throws "Failed to fetch projects" and leaves the cache as it was. */
    method FetchWithCache(now: int, response: ProjectsResponse) returns (r: FetchOutcome)
      modifies this
      ensures Fresh(old(data), old(timestamp), now) ==>
                r == Fetched(old(data)) && data == old(data) && timestamp == old(timestamp)
      ensures !Fresh(old(data), old(timestamp), now) && response.NotOk? ==>
                r == FetchFailed("Failed to fetch projects") && data == old(data) && timestamp == old(timestamp)
      ensures !Fresh(old(data), old(timestamp), now) && response.BadJson? ==>
                r == FetchFailed(response.message) && data == old(data) && timestamp == old(timestamp)
      ensures !Fresh(old(data), old(timestamp), now) && response.Served? ==>
                r == Fetched(response.projects) && data == response.projects && timestamp == now
    {
      if data.Some? && timestamp != 0 && now - timestamp < CacheTtl {
        return Fetched(data);
      }
      match response {
        case NotOk =>
          return FetchFailed("Failed to fetch projects");
        case BadJson(message) =>
          return FetchFailed(message);
        case Served(ps) =>
          data := ps;
          timestamp := now;
          return Fetched(ps);
      }
    }
  }

  /** A stored list is served again to every request made within the TTL after a
      fetch at a non-zero clock time, and refetched from then on. */
  lemma {:induction false} FreshWindow(ps: seq<Option<RawProject>>, stored: int, now: int)
    requires stored != 0 && stored <= now
    ensures Fresh(Some(ps), stored, now) <==> now < stored + 300000
  {
  }

  /** A project as the page shows it. */
  datatype Project = Project(
    name: string,
    title: string,
    description: string,
    image: string,
    date: string,
    author: string,
    path: Option<string>)

  /** The filter `project && project.name && project.title`. */
  predicate Complete(p: Option<RawProject>) {
    p.Some? && Truthy(p.value.name) && Truthy(p.value.title)
  }

  /** The entries that pass the filter, in list order. */
  function Keep(ps: seq<Option<RawProject>>): (r: seq<RawProject>)
    ensures |r| <= |ps|
    ensures forall p :: p in r <==> Some(p) in ps && Complete(Some(p))
  {
    if ps == [] then []
    else if Complete(ps[0]) then [ps[0].value] + Keep(ps[1..])
    else Keep(ps[1..])
  }

  /** Filtering distributes over concatenation, so kept entries keep their order. */
  lemma {:induction false} KeepAppend(a: seq<Option<RawProject>>, b: seq<Option<RawProject>>)
    ensures Keep(a + b) == Keep(a) + Keep(b)
  {
    if a != [] {
      assert (a + b)[1..] == a[1..] + b;
      KeepAppend(a[1..], b);
    } else {
      assert a + b == b;
    }
  }

  function OrDefault(v: Option<string>, d: string): (r: string)
    ensures Truthy(v) ==> r == v.value
    ensures !Truthy(v) ==> r == d
  {
    if Truthy(v) then v.value else d
  }

  /** The image path: kept when it starts with "http", placed under Articles when
      relative, and `<name>.jpg` under Articles when empty or absent. */
  function ProjectImage(baseUrl: string, name: string, image: Option<string>): (r: string)
    ensures Truthy(image) && StartsWith(image.value, "http") ==> r == image.value
    ensures Truthy(image) && !StartsWith(image.value, "http") ==> r == baseUrl + "/Articles/" + image.value
    ensures !Truthy(image) ==> r == baseUrl + "/Articles/" + name + ".jpg"
  {
    if Truthy(image) && !StartsWith(image.value, "http") then baseUrl + "/Articles/" + image.value
    else if !Truthy(image) then baseUrl + "/Articles/" + name + ".jpg"
    else image.value
  }

  /** The `.map` of the loader on one kept project. */
  function Normalize(baseUrl: string, p: RawProject): (r: Project)
    requires Complete(Some(p))
    ensures r.name == p.name.value && r.title == p.title.value && r.path == p.path
    ensures r.description == OrDefault(p.description, "")
    ensures r.date == OrDefault(p.date, "")
    ensures r.author == OrDefault(p.author, "Unknown")
    ensures r.image == ProjectImage(baseUrl, p.name.value, p.image)
  {
    Project(
      p.name.value,
      OrDefault(p.title, "Untitled Project"),
      OrDefault(p.description, ""),
      ProjectImage(baseUrl, p.name.value, p.image),
      OrDefault(p.date, ""),
      OrDefault(p.author, "Unknown"),
      p.path)
  }

  /** loader: the kept projects, normalised, in order; a failed fetch or a missing
      `projects` list gives the empty list. */
  function Loader(outcome: FetchOutcome, baseUrl: string): (r: seq<Project>)
    ensures outcome.FetchFailed? || outcome.projects.None? ==> r == []
    ensures outcome.Fetched? && outcome.projects.Some? ==>
              var kept := Keep(outcome.projects.value);
              |r| == |kept| && forall i :: 0 <= i < |r| ==> r[i] == Normalize(baseUrl, kept[i])
  {
    match outcome
    case FetchFailed(_) => []
    case Fetched(None) => []
    case Fetched(Some(ps)) =>
      var kept := Keep(ps);
      seq(|kept|, i requires 0 <= i < |kept| => Normalize(baseUrl, kept[i]))
  }

  /** Every project the page shows has a name, a title, an image and an author. */
  lemma {:induction false} LoadedProjectsComplete(outcome: FetchOutcome, baseUrl: string)
    ensures forall p :: p in Loader(outcome, baseUrl) ==>
              p.name != "" && p.title != "" && p.image != "" && p.author != ""
  {
    forall p | p in Loader(outcome, baseUrl)
      ensures p.name != "" && p.title != "" && p.image != "" && p.author != ""
    {
      var r := Loader(outcome, baseUrl);
      var i :| 0 <= i < |r| && r[i] == p;
      var kept := Keep(outcome.projects.value);
      assert kept[i] in kept;
    }
  }

  /** The twitter:creator and twitter:site handle: "@" and the site name with all
      whitespace removed, lower-cased. */
  function TwitterHandle(siteName: string): (r: string)
    ensures |r| >= 1 && r[0] == '@' && |r| <= |siteName| + 1
    ensures forall i :: 1 <= i < |r| ==> !IsWhite(r[i]) && !('A' <= r[i] <= 'Z')
  {
    "@" + Lower(RemoveWhite(siteName))
  }

  /** The handle against a reference filter: "@" and the lower-cased characters of
      the name that are not whitespace, in order. */
  lemma TwitterHandleKeepsNonWhite(siteName: string)
    ensures TwitterHandle(siteName) == "@" + Lower(NonWhite(siteName))
  {
    RemoveWhiteIsNonWhite(siteName);
  }

  /** Whitespace anywhere in the name is dropped: inserting a run of it changes
      nothing. */
  lemma {:induction false} TwitterHandleIgnoresWhite(a: string, w: string, b: string)
    requires forall i :: 0 <= i < |w| ==> IsWhite(w[i])
    ensures TwitterHandle(a + w + b) == TwitterHandle(a + b)
  {
    RemoveWhiteAppend(a + w, b);
    RemoveWhiteAppend(a, w);
    RemoveWhiteAppend(a, b);
    WhiteRemoved(w);
  }

  lemma {:induction false} WhiteRemoved(w: string)
    requires forall i :: 0 <= i < |w| ==> IsWhite(w[i])
    ensures RemoveWhite(w) == []
  {
    if w != [] {
      WhiteRemoved(w[1..]);
    }
  }

  /** Every other character is kept, lower-cased, in order. */
  lemma {:induction false} TwitterHandleOfPlainName(s: string)
    requires forall i :: 0 <= i < |s| ==> !IsWhite(s[i])
    ensures TwitterHandle(s) == "@" + Lower(s)
  {
    RemoveWhiteClean(s);
  }

  /** The site owner's handle. */
  lemma TwitterHandleExample()
    ensures TwitterHandle("Creative Geek") == "@creativegeek"
  {
    SpaceDropped();
    CreativeGeekHandle();
  }

  lemma SpaceDropped()
    ensures TwitterHandle("Creative Geek") == TwitterHandle("CreativeGeek")
  {
    assert "Creative" + " " + "Geek" == "Creative Geek";
    assert "Creative" + "Geek" == "CreativeGeek";
    TwitterHandleIgnoresWhite("Creative", " ", "Geek");
  }

  lemma CreativeGeekHandle()
    ensures TwitterHandle("CreativeGeek") == "@creativegeek"
  {
    CreativeGeekPlain();
    CreativeGeekLower();
    HandleOfPlain("CreativeGeek", "creativegeek");
    AtHandle();
  }

  lemma AtHandle()
    ensures "@" + "creativegeek" == "@creativegeek"
  {
  }

  lemma HandleOfPlain(s: string, t: string)
    requires RemoveWhite(s) == s && Lower(s) == t
    ensures TwitterHandle(s) == "@" + t
  {
  }

  lemma CreativeGeekPlain()
    ensures RemoveWhite("CreativeGeek") == "CreativeGeek"
  {
    PlainWord("CreativeGeek");
  }

  lemma CreativeGeekLower()
    ensures Lower("CreativeGeek") == "creativegeek"
  {
    assert "CreativeGeek" == ['C'] + "reative" + ['G'] + "eek";
    LowerCons('C', "reativeGeek");
  }

  lemma PlainWord(s: string)
    requires forall i :: 0 <= i < |s| ==> 'A' <= s[i] <= 'Z' || 'a' <= s[i] <= 'z'
    ensures RemoveWhite(s) == s
  {
    RemoveWhiteClean(s);
  }

  lemma {:induction false} RemoveWhiteClean(s: string)
    requires forall i :: 0 <= i < |s| ==> !IsWhite(s[i])
    ensures RemoveWhite(s) == s
  {
    if s != [] {
      RemoveWhiteClean(s[1..]);
    }
  }

  /** The handle is already normalised: deriving a handle from its own name part
      gives it back. */
  lemma {:induction false} TwitterHandleIdempotent(siteName: string)
    ensures TwitterHandle(TwitterHandle(siteName)[1..]) == TwitterHandle(siteName)
  {
    var h := TwitterHandle(siteName);
    var t := h[1..];
    RemoveWhiteClean(t);
    assert Lower(t) == t;
  }
}
