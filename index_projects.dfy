/** template/generate-index.js, step 5: projects-generated.json, built from the
    project list in Pages/projects.json and each project's article metadata. */
module IndexProjects {
  import opened TextUtil
  import opened GenerateIndex

  /** An entry of the `projects` array: a name, an object with an optional string
      `path`, null, or any other value. */
  datatype ProjectEntry = NameEntry(s: string) | PathEntry(path: Option<string>) | NullEntry | OtherEntry

  /** Pages/projects.json: missing, unreadable or unparsable, or parsed with its
      `projects` key when that is an array. */
  datatype ProjectsSource = NoSource | BadSource | Parsed(projects: Option<seq<ProjectEntry>>)

  /** `p.split("/").pop()`: the part after the last '/'. */
  function LastSegment(p: string): (r: string)
    ensures |r| <= |p|
    ensures forall j :: 0 <= j < |r| ==> r[j] != '/'
    ensures LastIndexOfChar(p, '/') < 0 ==> r == p
  {
    var k := LastIndexOfChar(p, '/') + 1;
    p[k..]
  }

  /** The segment is the tail of the path. */
  lemma LastSegmentIsSuffix(p: string)
    ensures EndsWith(p, LastSegment(p))
  {
    var k := LastIndexOfChar(p, '/') + 1;
    assert LastSegment(p) == p[k..];
  }

  /** What one entry does to the loop: throw (a null entry), be skipped, or add
      an enriched record. */
  datatype EntryEffect = Abort | Skip | Add(record: JObject)

  /** The project name of an entry, when it has one (`undefined` otherwise). */
  function EntryName(e: ProjectEntry): Option<string>
    requires !e.NullEntry?
  {
    match e
    case NameEntry(s) => Some(s)
    case PathEntry(p) => if p.Some? then Some(LastSegment(p.value)) else None
    case OtherEntry => None
  }

  /** The keys the generator fills in before the metadata is spread over them. */
  function Defaults(name: string, metadata: JObject): (r: JObject)
    ensures r.Keys == {"name", "title", "description", "image", "date", "author", "path"}
  {
    map[
      "name" := JStr(name),
      "title" := JStr(FieldOr(metadata, "title", "Untitled Project")),
      "description" := JStr(FieldOr(metadata, "description", "")),
      "image" := JStr(FieldOr(metadata, "image", name + ".jpg")),
      "date" := JStr(FieldOr(metadata, "date", "")),
      "author" := JStr(FieldOr(metadata, "author", "Unknown")),
      "path" := JStr("Articles/" + name)]
  }

  /** `{ ...defaults, ...metadata }`: every metadata key wins; the defaults fill in
      the keys the metadata lacks. */
  function Enriched(name: string, metadata: JObject): (r: JObject)
    ensures r.Keys == Defaults(name, metadata).Keys + metadata.Keys
    ensures forall k :: k in metadata ==> r[k] == metadata[k]
    ensures forall k :: k in r && k !in metadata ==> r[k] == Defaults(name, metadata)[k]
  {
    Defaults(name, metadata) + metadata
  }

  function EntryStep(e: ProjectEntry, dir: Directory): EntryEffect {
    if e.NullEntry? then Abort
    else
      var name := EntryName(e);
      if name.None? || name.value == "" then Skip
      else
        var file := name.value + ".json";
        if file !in dir || !dir[file].isFile || dir[file].content.None? then Skip
        else Add(Enriched(name.value, dir[file].content.value))
  }

  /** The loop over the entries; `None` when an entry throws and nothing is written. */
  function Enrich(entries: seq<ProjectEntry>, dir: Directory): Option<seq<JObject>> {
    if entries == [] then Some([])
    else
      match Enrich(entries[..|entries| - 1], dir)
      case None => None
      case Some(acc) =>
        match EntryStep(entries[|entries| - 1], dir)
        case Abort => None
        case Skip => Some(acc)
        case Add(o) => Some(acc + [o])
  }

  /** The `for` loop that builds `enrichedProjects`. */
  method EnrichProjects(entries: seq<ProjectEntry>, dir: Directory) returns (r: Option<seq<JObject>>)
    ensures r == Enrich(entries, dir)
  {
    var enriched: seq<JObject> := [];
    for i := 0 to |entries|
      invariant Enrich(entries[..i], dir) == Some(enriched)
    {
      assert entries[..i + 1][..i] == entries[..i];
      var entry := entries[i];
      if entry.NullEntry? {
        EnrichAbortSticks(entries, dir, i + 1);
        return None;
      }
      var name := EntryName(entry);
      if name.None? || name.value == "" {
        continue;
      }
      var metadataPath := name.value + ".json";
      if metadataPath !in dir || !dir[metadataPath].isFile || dir[metadataPath].content.None? {
        continue;
      }
      enriched := enriched + [Enriched(name.value, dir[metadataPath].content.value)];
    }
    assert entries[..|entries|] == entries;
    return Some(enriched);
  }

  /** Once the loop has thrown, the remaining entries cannot undo it. */
  lemma {:induction false} EnrichAbortSticks(entries: seq<ProjectEntry>, dir: Directory, k: nat)
    requires k <= |entries| && Enrich(entries[..k], dir).None?
    ensures Enrich(entries, dir).None?
    decreases |entries| - k
  {
    if k < |entries| {
      assert entries[..k + 1][..k] == entries[..k];
      EnrichAbortSticks(entries, dir, k + 1);
    } else {
      assert entries[..k] == entries;
    }
  }

  /** Step 5 of the script: nothing is written when the source is missing, does not
      parse, has no `projects` array, or an entry throws. */
  method GenerateProjects(source: ProjectsSource, dir: Directory) returns (output: Option<seq<JObject>>)
    ensures source.NoSource? || source.BadSource? ==> output.None?
    ensures source.Parsed? && source.projects.None? ==> output.None?
    ensures source.Parsed? && source.projects.Some? ==> output == Enrich(source.projects.value, dir)
  {
    if !source.Parsed? || source.projects.None? {
      return None;
    }
    output := EnrichProjects(source.projects.value, dir);
  }

  /** Each written record comes from an entry, in entry order: there are never more
      records than entries, and every record has a name and a path. */
  lemma {:induction false} EnrichedRecords(entries: seq<ProjectEntry>, dir: Directory)
    requires Enrich(entries, dir).Some?
    ensures |Enrich(entries, dir).value| <= |entries|
    ensures forall o :: o in Enrich(entries, dir).value ==> "name" in o && "path" in o
  {
    if entries != [] {
      var init := entries[..|entries| - 1];
      EnrichedRecords(init, dir);
    }
  }

  /** A record without metadata overrides is exactly the default project record:
      titled "Untitled Project", image `<name>.jpg`, author "Unknown", path
      `Articles/<name>`. */
  lemma {:induction false} BareMetadataDefaults(name: string)
    ensures var r := Enriched(name, map[]);
            r["title"] == JStr("Untitled Project") && r["image"] == JStr(name + ".jpg") &&
            r["author"] == JStr("Unknown") && r["path"] == JStr("Articles/" + name) &&
            r["description"] == JStr("") && r["date"] == JStr("") && r["name"] == JStr(name)
  {
    var d := Defaults(name, map[]);
    assert Enriched(name, map[]) == d;
  }

  /** An object entry is named by the last segment of its path. */
  lemma {:induction false} PathEntryName(dirPart: string, name: string)
    requires '/' !in name
    ensures EntryName(PathEntry(Some(dirPart + "/" + name))) == Some(name)
  {
    var p := dirPart + "/" + name;
    var k := LastIndexOfChar(p, '/');
    assert p[|dirPart|] == '/';
    assert k == |dirPart|;
    assert p[k + 1..] == name;
  }
}
