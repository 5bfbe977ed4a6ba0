/** app/hooks/useMetaTags.ts: the effect that sets the page title and the
    description, Open Graph and Twitter meta tags, and the cleanup that puts the
    saved ones back. */
module MetaTags {
  import opened TextUtil

  /** A `<meta>` element: its `name`, `property` and `content` attributes
      (`None` when absent). */
  datatype Meta = Meta(name: Option<string>, property: Option<string>, content: Option<string>)

  predicate Truthy(v: Option<string>) {
    v.Some? && v.value != ""
  }

  /** The key a tag is saved and restored under: `name || property`, or none when
      both are empty or absent. */
  function Key(m: Meta): (k: Option<string>)
    ensures k.Some? <==> Truthy(m.name) || Truthy(m.property)
    ensures k.Some? ==> k.value != "" && (k == m.name || k == m.property)
  {
    if Truthy(m.name) then m.name else if Truthy(m.property) then m.property else None
  }

  /** The `originalMeta` reduce: key to content, a later tag of the same key
      overriding an earlier one; a tag without content is saved as null. */
  function SavedMeta(metas: seq<Meta>): map<string, Option<string>>
  {
    if metas == [] then map[]
    else
      var init := SavedMeta(metas[..|metas| - 1]);
      var m := metas[|metas| - 1];
      if Key(m).Some? then init[Key(m).value := m.content] else init
  }

  /** The saved keys are exactly the keys of the tags. */
  lemma {:induction false} SavedMetaKeys(metas: seq<Meta>, k: string)
    ensures k in SavedMeta(metas) <==> exists j :: 0 <= j < |metas| && Key(metas[j]) == Some(k)
    decreases |metas|
  {
    if metas != [] {
      var n := |metas| - 1;
      var init := metas[..n];
      SavedMetaKeys(init, k);
      assert forall j :: 0 <= j < n ==> init[j] == metas[j];
    }
  }

  /** The first tag whose `name` is the key, else the first whose `property` is,
      else -1 (the two `querySelector` calls). */
  function FindTag(metas: seq<Meta>, key: string): (i: int)
    ensures -1 <= i < |metas|
    ensures i >= 0 ==> metas[i].name == Some(key) || metas[i].property == Some(key)
    ensures i < 0 ==> forall j :: 0 <= j < |metas| ==> metas[j].name != Some(key) && metas[j].property != Some(key)
  {
    var byName := FirstWith(metas, key, true);
    if byName >= 0 then byName else FirstWith(metas, key, false)
  }

  /** The first tag whose `name` (or `property`) attribute is exactly `key`. */
  function FirstWith(metas: seq<Meta>, key: string, byName: bool): (i: int)
    ensures -1 <= i < |metas|
    ensures i >= 0 ==> (if byName then metas[i].name else metas[i].property) == Some(key)
    ensures i >= 0 ==> forall j :: 0 <= j < i ==> (if byName then metas[j].name else metas[j].property) != Some(key)
    ensures i < 0 ==> forall j :: 0 <= j < |metas| ==> (if byName then metas[j].name else metas[j].property) != Some(key)
  {
    if metas == [] then -1
    else
      var i := FirstWith(metas[..|metas| - 1], key, byName);
      if i >= 0 then i
      else if (if byName then metas[|metas| - 1].name else metas[|metas| - 1].property) == Some(key) then |metas| - 1
      else -1
  }

  /** The tag setMetaTag creates: `property` for Open Graph keys, `name` otherwise. */
  function NewTag(key: string, content: string): (m: Meta)
    ensures StartsWith(key, "og:") ==> m.property == Some(key) && m.name.None?
    ensures !StartsWith(key, "og:") ==> m.name == Some(key) && m.property.None?
    ensures m.content == Some(content)
  {
    if StartsWith(key, "og:") then Meta(None, Some(key), Some(content)) else Meta(Some(key), None, Some(content))
  }

  /** setMetaTag: nothing for an empty or absent content; else the content of the
      tag found for the key, or a new tag appended to the head. */
  function SetTag(metas: seq<Meta>, key: string, content: Option<string>): (r: seq<Meta>)
    ensures !Truthy(content) ==> r == metas
    ensures Truthy(content) && FindTag(metas, key) >= 0 ==>
              var i := FindTag(metas, key);
              |r| == |metas| && r[i] == metas[i].(content := content) &&
              forall j :: 0 <= j < |r| && j != i ==> r[j] == metas[j]
    ensures Truthy(content) && FindTag(metas, key) < 0 ==> r == metas + [NewTag(key, content.value)]
  {
    if !Truthy(content) then metas
    else
      var i := FindTag(metas, key);
      if i >= 0 then metas[i := metas[i].(content := content)]
      else metas + [NewTag(key, content.value)]
  }

  /** After a set with a content, looking the key up finds a tag with that content. */
  lemma {:induction false} SetThenFind(metas: seq<Meta>, key: string, content: string)
    requires content != ""
    ensures var r := SetTag(metas, key, Some(content));
            FindTag(r, key) >= 0 && r[FindTag(r, key)].content == Some(content)
  {
    var r := SetTag(metas, key, Some(content));
    var i := FindTag(metas, key);
    if i >= 0 {
      SameAttributesSameFind(metas, r, key);
    }
  }

  /** Tags with the same attributes other than content, position by position. */
  predicate SameTags(a: seq<Meta>, b: seq<Meta>) {
    |a| == |b| && forall j :: 0 <= j < |a| ==> a[j].name == b[j].name && a[j].property == b[j].property
  }

  lemma {:induction false} SameAttributesSameFind(a: seq<Meta>, b: seq<Meta>, key: string)
    requires SameTags(a, b)
    ensures FindTag(a, key) == FindTag(b, key)
  {
    SameFirstWith(a, b, key, true);
    SameFirstWith(a, b, key, false);
  }

  lemma {:induction false} SameFirstWith(a: seq<Meta>, b: seq<Meta>, key: string, byName: bool)
    requires SameTags(a, b)
    ensures FirstWith(a, key, byName) == FirstWith(b, key, byName)
  {
    if a != [] {
      SameFirstWith(a[..|a| - 1], b[..|b| - 1], key, byName);
    }
  }

  /** The props of the hook; `type` defaults to "article" when absent. */
  datatype MetaProps = MetaProps(
    title: Option<string>,
    description: Option<string>,
    image: Option<string>,
    kind: Option<string>,
    author: Option<string>,
    url: Option<string>)

  function OgType(props: MetaProps): (t: string)
    ensures props.kind.None? ==> t == "article"
    ensures props.kind.Some? ==> t == props.kind.value
  {
    if props.kind.None? then "article" else props.kind.value
  }

  /** The document title during the effect: "<title> | <original>" when a title is
      given. */
  function EffectTitle(original: string, title: Option<string>): (r: string)
    ensures Truthy(title) ==> r == title.value + " | " + original
    ensures !Truthy(title) ==> r == original
  {
    if Truthy(title) then title.value + " | " + original else original
  }

  /** The eleven setMetaTag calls of the effect, in order. */
  function SetAll(metas: seq<Meta>, props: MetaProps): seq<Meta> {
    var m1 := SetTag(metas, "description", props.description);
    var m2 := SetTag(m1, "author", props.author);
    var m3 := SetTag(m2, "og:title", props.title);
    var m4 := SetTag(m3, "og:description", props.description);
    var m5 := SetTag(m4, "og:image", props.image);
    var m6 := SetTag(m5, "og:type", Some(OgType(props)));
    var m7 := SetTag(m6, "og:url", props.url);
    var m8 := SetTag(m7, "twitter:card", Some("summary_large_image"));
    var m9 := SetTag(m8, "twitter:title", props.title);
    var m10 := SetTag(m9, "twitter:description", props.description);
    SetTag(m10, "twitter:image", props.image)
  }

  /** The text a restored tag gets: the saved content, or "null" (what
      `setAttribute` writes for a null value) when the saved tag had none. */
  function RestoredText(saved: Option<string>): string {
    if saved.Some? then saved.value else "null"
  }

  /** The cleanup's pass over the tags: keyless tags stay as they are, tags whose
      key was saved get the saved content back, the others are removed. */
  function Restore(metas: seq<Meta>, saved: map<string, Option<string>>): (r: seq<Meta>)
    ensures |r| <= |metas|
    ensures forall m :: m in r ==> Key(m).None? || Key(m).value in saved
  {
    if metas == [] then []
    else
      var init := Restore(metas[..|metas| - 1], saved);
      var m := metas[|metas| - 1];
      if Key(m).None? then init + [m]
      else if Key(m).value in saved then init + [m.(content := Some(RestoredText(saved[Key(m).value])))]
      else init
  }

  /** What the effect's cleanup closes over. */
  datatype Saved = Saved(title: string, meta: map<string, Option<string>>)

  /** The document head: its title and its meta tags, in document order. */
  class Head {
    var title: string
    var metas: seq<Meta>

    constructor (title: string, metas: seq<Meta>)
      ensures this.title == title && this.metas == metas
    {
      this.title := title;
      this.metas := metas;
    }

    method SetMetaTag(key: string, content: Option<string>)
      modifies this
      ensures metas == SetTag(old(metas), key, content) && title == old(title)
    {
      if !Truthy(content) {
        return;
      }
      var i := FindTag(metas, key);
      if i < 0 {
        metas := metas + [NewTag(key, "")];
        i := |metas| - 1;
      }
      metas := metas[i := metas[i].(content := content)];
    }

    /** The effect of useMetaTags: it saves the title and the tags, sets the title
        and the eleven tags, and returns what the cleanup needs. */
    method UseMetaTags(props: MetaProps) returns (saved: Saved)
      modifies this
      ensures saved == Saved(old(title), SavedMeta(old(metas)))
      ensures title == EffectTitle(old(title), props.title)
      ensures metas == SetAll(old(metas), props)
    {
      saved := Saved(title, SavedMeta(metas));
      if Truthy(props.title) {
        title := props.title.value + " | " + saved.title;
      }
      SetMetaTag("description", props.description);
      SetMetaTag("author", props.author);
      SetMetaTag("og:title", props.title);
      SetMetaTag("og:description", props.description);
      SetMetaTag("og:image", props.image);
      SetMetaTag("og:type", Some(OgType(props)));
      SetMetaTag("og:url", props.url);
      SetMetaTag("twitter:card", Some("summary_large_image"));
      SetMetaTag("twitter:title", props.title);
      SetMetaTag("twitter:description", props.description);
      SetMetaTag("twitter:image", props.image);
    }

    /** The cleanup: the title is put back, and the `forEach` over the current tags
        restores or removes each keyed one. */
    method Cleanup(saved: Saved)
      modifies this
      ensures title == saved.title && metas == Restore(old(metas), saved.meta)
    {
      title := saved.title;
      var current := metas;
      var kept: seq<Meta> := [];
      for i := 0 to |current|
        invariant kept == Restore(current[..i], saved.meta)
      {
        assert current[..i + 1][..i] == current[..i];
        var meta := current[i];
        var key := Key(meta);
        if key.Some? {
          if key.value in saved.meta {
            kept := kept + [meta.(content := Some(RestoredText(saved.meta[key.value])))];
          }
        } else {
          kept := kept + [meta];
        }
      }
      assert current[..|current|] == current;
      metas := kept;
    }
  }

  // ---------------------------------------------------------------------
  // Cleanup undoes the effect.

  /** A head the cleanup can restore exactly: every tag has a key and content, and
      no two tags share a key. */
  predicate WellKeyed(metas: seq<Meta>) {
    (forall j :: 0 <= j < |metas| ==> Key(metas[j]).Some? && metas[j].content.Some?) &&
    (forall i, j :: 0 <= i < j < |metas| ==> Key(metas[i]) != Key(metas[j]))
  }

  /** The tags during the effect: the original ones (contents possibly changed)
      followed by added tags whose keys were not saved. */
  predicate Extends(metas: seq<Meta>, base: seq<Meta>) {
    |base| <= |metas| && SameTags(metas[..|base|], base) &&
    forall j :: |base| <= j < |metas| ==> Key(metas[j]).Some? && Key(metas[j]).value !in SavedMeta(base)
  }

  /** Every setMetaTag keeps the tags an extension of the original ones. */
  lemma {:induction false} SetTagExtends(metas: seq<Meta>, base: seq<Meta>, key: string, content: Option<string>)
    requires key != "" && Extends(metas, base)
    ensures Extends(SetTag(metas, key, content), base)
  {
    var r := SetTag(metas, key, content);
    var n := |base|;
    if Truthy(content) {
      var i := FindTag(metas, key);
      if i >= 0 {
        assert forall j :: 0 <= j < n ==> r[..n][j].name == metas[..n][j].name && r[..n][j].property == metas[..n][j].property;
      } else {
        assert r[..n] == metas[..n];
        var t := NewTag(key, content.value);
        assert Key(t) == Some(key);
        SavedMetaKeys(base, key);
      }
    }
  }

  /** The eleven calls keep the tags an extension of the original ones. */
  lemma SetAllExtends(base: seq<Meta>, props: MetaProps)
    ensures Extends(SetAll(base, props), base)
  {
    assert base[..|base|] == base;
    var m1 := SetTag(base, "description", props.description);
    SetTagExtends(base, base, "description", props.description);
    var m2 := SetTag(m1, "author", props.author);
    SetTagExtends(m1, base, "author", props.author);
    var m3 := SetTag(m2, "og:title", props.title);
    SetTagExtends(m2, base, "og:title", props.title);
    var m4 := SetTag(m3, "og:description", props.description);
    SetTagExtends(m3, base, "og:description", props.description);
    var m5 := SetTag(m4, "og:image", props.image);
    SetTagExtends(m4, base, "og:image", props.image);
    var m6 := SetTag(m5, "og:type", Some(OgType(props)));
    SetTagExtends(m5, base, "og:type", Some(OgType(props)));
    var m7 := SetTag(m6, "og:url", props.url);
    SetTagExtends(m6, base, "og:url", props.url);
    var m8 := SetTag(m7, "twitter:card", Some("summary_large_image"));
    SetTagExtends(m7, base, "twitter:card", Some("summary_large_image"));
    var m9 := SetTag(m8, "twitter:title", props.title);
    SetTagExtends(m8, base, "twitter:title", props.title);
    var m10 := SetTag(m9, "twitter:description", props.description);
    SetTagExtends(m9, base, "twitter:description", props.description);
    SetTagExtends(m10, base, "twitter:image", props.image);
  }

  /** On a well-keyed head, each tag's saved content is its own. */
  lemma {:induction false} SavedOwnContent(base: seq<Meta>, j: int)
    requires WellKeyed(base) && 0 <= j < |base|
    ensures Key(base[j]).value in SavedMeta(base) && SavedMeta(base)[Key(base[j]).value] == base[j].content
  {
    var n := |base| - 1;
    var init := base[..n];
    var last := base[n];
    var s0 := SavedMeta(init);
    assert SavedMeta(base) == s0[Key(last).value := last.content];
    if j < n {
      assert WellKeyed(init) by {
        assert forall i :: 0 <= i < n ==> init[i] == base[i];
      }
      assert init[j] == base[j];
      SavedOwnContent(init, j);
      assert Key(base[j]) != Key(last);
    }
  }

  /** `saved` holds every tag of `tags` under its key, with its content. */
  predicate SavesAll(tags: seq<Meta>, saved: map<string, Option<string>>) {
    forall j :: 0 <= j < |tags| ==>
      Key(tags[j]).Some? && tags[j].content.Some? &&
      Key(tags[j]).value in saved && saved[Key(tags[j]).value] == tags[j].content
  }

  lemma SavedMetaSavesAll(base: seq<Meta>)
    requires WellKeyed(base)
    ensures SavesAll(base, SavedMeta(base))
  {
    forall j | 0 <= j < |base|
      ensures Key(base[j]).value in SavedMeta(base) && SavedMeta(base)[Key(base[j]).value] == base[j].content
    {
      SavedOwnContent(base, j);
    }
  }

  /** Restoring an extension of a head with the head's saved tags gives the head
      back: added tags are removed, changed contents are reverted. */
  lemma {:induction false} RestoreExtension(metas: seq<Meta>, base: seq<Meta>, saved: map<string, Option<string>>)
    requires SavesAll(base, saved) && |base| <= |metas| && SameTags(metas[..|base|], base)
    requires forall j :: |base| <= j < |metas| ==> Key(metas[j]).Some? && Key(metas[j]).value !in saved
    ensures Restore(metas, saved) == base
    decreases |metas|
  {
    if |metas| > |base| {
      var n := |metas| - 1;
      var init := metas[..n];
      assert init[..|base|] == metas[..|base|];
      assert forall j :: |base| <= j < n ==> init[j] == metas[j];
      RestoreExtension(init, base, saved);
      assert Restore(metas, saved) == Restore(init, saved);
    } else {
      assert metas == metas[..|base|];
      RestorePrefix(metas, base, saved);
    }
  }

  /** Tags with the attributes of saved ones, contents possibly changed, restore
      to the saved tags. */
  lemma {:induction false} RestorePrefix(metas: seq<Meta>, tags: seq<Meta>, saved: map<string, Option<string>>)
    requires SavesAll(tags, saved) && SameTags(metas, tags)
    ensures Restore(metas, saved) == tags
    decreases |metas|
  {
    if metas != [] {
      var n := |metas| - 1;
      var init := tags[..n];
      assert forall j :: 0 <= j < n ==> init[j] == tags[j] && metas[..n][j] == metas[j];
      RestorePrefix(metas[..n], init, saved);
      RestoreOne(metas, tags, saved);
    }
  }

  /** The last step of RestorePrefix: the last tag gets its original content back. */
  lemma RestoreOne(metas: seq<Meta>, tags: seq<Meta>, saved: map<string, Option<string>>)
    requires SavesAll(tags, saved) && SameTags(metas, tags) && 0 < |tags|
    requires Restore(metas[..|metas| - 1], saved) == tags[..|tags| - 1]
    ensures Restore(metas, saved) == tags
  {
    var n := |metas| - 1;
    var m := metas[n];
    var b := tags[n];
    var k := Key(b).value;
    assert Key(m) == Key(b);
    assert saved[k] == b.content;
    var restored := m.(content := Some(RestoredText(saved[k])));
    assert restored == b;
    assert Restore(metas, saved) == Restore(metas[..n], saved) + [restored];
    assert tags == tags[..n] + [b];
  }

  /** useMetaTags leaves no trace: on a head whose tags are keyed distinctly and
      carry content, running the effect and then its cleanup gives back the
      original title and tags. */
  lemma CleanupUndoesEffect(title: string, base: seq<Meta>, props: MetaProps)
    requires WellKeyed(base)
    ensures var saved := Saved(title, SavedMeta(base));
            Restore(SetAll(base, props), saved.meta) == base && saved.title == title
  {
    SetAllExtends(base, props);
    SavedMetaSavesAll(base);
    RestoreExtension(SetAll(base, props), base, SavedMeta(base));
  }
}
