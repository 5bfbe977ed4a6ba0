/** app/components/SearchDialog.tsx: the content snippet around the first match,
    the keyboard selection cursor, and the dialog state that the handlers and
    effects update. */
module SearchDialog {
  import opened TextUtil
  import SearchService

  const Context: nat := 50

  /** The context window [start, end) of `content` shown around a match at `i`
      of a query of length `qLen`. */
  function WindowStart(i: nat): nat {
    if i >= Context then i - Context else 0
  }

  function WindowEnd(contentLen: nat, i: nat, qLen: nat): nat {
    if i + qLen + Context < contentLen then i + qLen + Context else contentLen
  }

  function Ellipsis(shown: bool): string {
    if shown then "..." else ""
  }

  /** getContentSnippet: null (None) when there is no content, content search is
      off, or the lower-cased query does not occur in the lower-cased content;
      otherwise the window around the first match with "..." on each cut side. */
  function GetContentSnippet(content: string, searchQuery: string, searchContent: bool): (r: Option<string>)
    ensures r.None? <==> (content == [] || !searchContent || !Contains(Lower(content), Lower(searchQuery)))
  {
    if content == [] || !searchContent then None
    else
      var matchIndex := IndexOf(Lower(content), Lower(searchQuery));
      if matchIndex == -1 then None
      else
        var startIndex := WindowStart(matchIndex);
        var endIndex := WindowEnd(|content|, matchIndex, |searchQuery|);
        Some(Ellipsis(startIndex > 0) + content[startIndex..endIndex] + Ellipsis(endIndex < |content|))
  }

  /** A snippet is the window around the FIRST case-insensitive match (IndexOf finds
      the first occurrence): it holds the whole match, with at most 50 characters
      on each side, exactly 50 where the content allows, and "..." is added on a
      side exactly when text is cut there. */
  lemma SnippetWindow(content: string, searchQuery: string)
    requires content != [] && Contains(Lower(content), Lower(searchQuery))
    ensures var i := IndexOf(Lower(content), Lower(searchQuery));
            var s := WindowStart(i);
            var e := WindowEnd(|content|, i, |searchQuery|);
            0 <= s <= i && i + |searchQuery| <= e <= |content| &&
            i - s <= Context && e - (i + |searchQuery|) <= Context &&
            (s == 0 || i - s == Context) &&
            (e == |content| || e - (i + |searchQuery|) == Context) &&
            OccursAt(Lower(content[s..e]), Lower(searchQuery), i - s) &&
            GetContentSnippet(content, searchQuery, true) ==
              Some(Ellipsis(s > 0) + content[s..e] + Ellipsis(e < |content|))
  {
    var lc := Lower(content);
    var lq := Lower(searchQuery);
    var i := IndexOf(lc, lq);
    var s := WindowStart(i);
    var e := WindowEnd(|content|, i, |searchQuery|);
    WindowHoldsMatch(content, lq, i, s, e);
  }

  lemma WindowHoldsMatch(content: string, lq: string, i: int, s: int, e: int)
    requires OccursAt(Lower(content), lq, i)
    requires 0 <= s <= i && i + |lq| <= e <= |content|
    ensures OccursAt(Lower(content[s..e]), lq, i - s)
  {
    var lc := Lower(content);
    LowerSlice(content, s, e);
    assert lc[s..e][i - s..i - s + |lq|] == lc[i..i + |lq|];
  }

  lemma LowerSlice(s: string, a: nat, b: nat)
    requires a <= b <= |s|
    ensures Lower(s[a..b]) == Lower(s)[a..b]
  {
  }

  // ---------------------------------------------------------------------
  // The selection cursor: -1 is "nothing selected".

  /** ArrowDown: `(selectedIndex + 1) % results.length` */
  function NextIndex(sel: int, n: nat): (r: int)
    requires n > 0 && -1 <= sel < n
    ensures 0 <= r < n
    ensures sel < n - 1 ==> r == sel + 1
    ensures sel == n - 1 ==> r == 0
  {
    (sel + 1) % n
  }

  /** ArrowUp: `selectedIndex <= 0 ? results.length - 1 : selectedIndex - 1` */
  function PrevIndex(sel: int, n: nat): (r: int)
    requires n > 0 && -1 <= sel < n
    ensures 0 <= r < n
    ensures sel > 0 ==> r == sel - 1
    ensures sel <= 0 ==> r == n - 1
  {
    if sel <= 0 then n - 1 else sel - 1
  }

  /** Up undoes Down and Down undoes Up on any selected entry: the cursor cycles. */
  lemma CursorRoundTrip(sel: int, n: nat)
    requires n > 0 && 0 <= sel < n
    ensures PrevIndex(NextIndex(sel, n), n) == sel
    ensures NextIndex(PrevIndex(sel, n), n) == sel
  {
  }

  datatype Key = ArrowDown | ArrowUp | Enter | OtherKey

  /** What awaiting searchArticles produced: its results, or a thrown error. */
  datatype SearchOutcome = Returned(results: SearchService.SearchResults) | Threw

  class Dialog {
    var open: bool
    var query: string
    var searchContent: bool
    var results: seq<SearchService.Article>
    var loading: bool
    var error: Option<string>
    var selectedIndex: int

    /** The selection is -1 or the index of a result. */
    predicate Valid()
      reads this
    {
      -1 <= selectedIndex < |results|
    }

    constructor (open: bool)
      ensures Valid()
      ensures this.open == open && query == "" && !searchContent && results == []
      ensures !loading && error == None && selectedIndex == -1
    {
      this.open := open;
      query := "";
      searchContent := false;
      results := [];
      loading := false;
      error := None;
      selectedIndex := -1;
    }

    /** `setResults`, followed by the effect on `results`, which resets the selection. */
    method SetResults(rs: seq<SearchService.Article>)
      modifies this`results, this`selectedIndex
      ensures Valid()
      ensures results == rs && selectedIndex == -1
    {
      results := rs;
      selectedIndex := -1;
    }

    /** The input's onChange. */
    method SetQuery(q: string)
      requires Valid()
      modifies this`query
      ensures Valid() && query == q
    {
      query := q;
    }

    /** The content-search switch. */
    method SetSearchContent(on: bool)
      requires Valid()
      modifies this`searchContent
      ensures Valid() && searchContent == on
    {
      searchContent := on;
    }

    /** The debounced search callback, once its timer fires; `outcome` is what the
        call to searchArticles(query, searchContent) ended with. */
    method RunSearch(outcome: SearchOutcome)
      requires Valid()
      modifies this`results, this`selectedIndex, this`loading, this`error
      ensures Valid() && selectedIndex == -1
      ensures Trim(query) == [] ==> results == [] && error == old(error) && loading == old(loading)
      ensures Trim(query) != [] ==> !loading
      ensures Trim(query) != [] && outcome.Returned? ==>
                results == outcome.results.articles && error == outcome.results.error
      ensures Trim(query) != [] && outcome.Threw? ==>
                results == [] && error == Some("Failed to search articles")
    {
      if Trim(query) == [] {
        SetResults([]);
        return;
      }
      loading := true;
      match outcome {
        case Returned(r) =>
          SetResults(r.articles);
          error := r.error;
        case Threw =>
          error := Some("Failed to search articles");
          SetResults([]);
      }
      loading := false;
    }

    /** The effect on `open`: closing clears query, results, error and selection;
        opening clears the selection. */
    method OpenChanged(isOpen: bool)
      requires Valid()
      modifies this
      ensures Valid() && open == isOpen && selectedIndex == -1
      ensures !isOpen ==> query == "" && results == [] && error == None
      ensures isOpen ==> query == old(query) && results == old(results) && error == old(error)
      ensures searchContent == old(searchContent) && loading == old(loading)
    {
      open := isOpen;
      if !isOpen {
        query := "";
        SetResults([]);
        error := None;
        selectedIndex := -1;
      } else {
        selectedIndex := -1;
      }
    }

    /** handleKeyDown: the arrows move the cursor with wrap-around; Enter on a
        selected result closes the dialog and navigates to `/blog/<name>`. */
    method HandleKeyDown(key: Key) returns (navigateTo: Option<string>)
      requires Valid()
      modifies this
      ensures Valid()
      ensures old(results) == [] ==> navigateTo == None && selectedIndex == old(selectedIndex) && open == old(open)
      ensures old(results) != [] && key == ArrowDown ==>
                navigateTo == None && selectedIndex == NextIndex(old(selectedIndex), |old(results)|)
      ensures old(results) != [] && key == ArrowUp ==>
                navigateTo == None && selectedIndex == PrevIndex(old(selectedIndex), |old(results)|)
      ensures old(results) != [] && key == Enter && old(selectedIndex) >= 0 ==>
                navigateTo == Some("/blog/" + old(results)[old(selectedIndex)].name) &&
                !open && query == "" && results == [] && selectedIndex == -1
      ensures (key == OtherKey || (key == Enter && old(selectedIndex) < 0)) ==>
                navigateTo == None && selectedIndex == old(selectedIndex)
      ensures old(results) != [] && key == Enter && old(selectedIndex) >= 0 ==> error == None
      ensures !(old(results) != [] && key == Enter && old(selectedIndex) >= 0) ==>
                open == old(open) && query == old(query) && results == old(results) && error == old(error)
      ensures searchContent == old(searchContent) && loading == old(loading)
    {
      navigateTo := None;
      if |results| == 0 {
        return;
      }
      match key
      case ArrowDown =>
        selectedIndex := NextIndex(selectedIndex, |results|);
      case ArrowUp =>
        selectedIndex := PrevIndex(selectedIndex, |results|);
      case Enter =>
        if selectedIndex >= 0 {
          var selected := results[selectedIndex];
          OpenChanged(false);
          navigateTo := Some("/blog/" + selected.name);
        }
      case OtherKey =>
    }
  }
}
