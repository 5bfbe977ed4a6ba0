/** app/lib/utils.ts: the script test behind every right-to-left decision. */
module LibUtils {
  import opened TextUtil

  /** The Arabic Unicode block, U+0600 to U+06FF. */
  predicate IsArabic(c: char) {
    0x0600 <= c as int <= 0x06FF
  }

  /** `i` is the position of the first non-whitespace character of `text`. */
  predicate FirstVisibleAt(text: string, i: int) {
    0 <= i < |text| && !IsWhite(text[i]) && forall k :: 0 <= k < i ==> IsWhite(text[k])
  }

  /** The first non-whitespace character of `text` lies at index |text| - |TrimStart(text)|,
      and trimming the end does not move it. */
  lemma TrimFirstChar(text: string)
    ensures Trim(text) != [] <==> TrimStart(text) != []
    ensures Trim(text) != [] ==> FirstVisibleAt(text, |text| - |TrimStart(text)|)
    ensures Trim(text) != [] ==> Trim(text)[0] == text[|text| - |TrimStart(text)|]
    ensures forall i :: FirstVisibleAt(text, i) ==> i == |text| - |TrimStart(text)|
  {
    var t := TrimStart(text);
    var i0 := |text| - |t|;
    if t != [] {
      assert t[0] == text[i0];
    }
  }

  /** startsWithArabic: the trimmed text begins with an Arabic-block character,
      that is, the first character that is not whitespace is Arabic. */
  function StartsWithArabic(text: string): (r: bool)
    ensures r <==> exists i :: FirstVisibleAt(text, i) && IsArabic(text[i])
  {
    TrimFirstChar(text);
    var t := Trim(text);
    var r := |t| > 0 && IsArabic(t[0]);
    assert r ==> FirstVisibleAt(text, |text| - |TrimStart(text)|);
    r
  }

  /** Empty or whitespace-only text is never right-to-left. */
  lemma WhitespaceIsNotArabic(text: string)
    requires forall k :: 0 <= k < |text| ==> IsWhite(text[k])
    ensures !StartsWithArabic(text)
  {
  }

  /** The answer does not change when the text is trimmed first. */
  lemma {:induction false} TrimInvariant(text: string)
    ensures StartsWithArabic(Trim(text)) == StartsWithArabic(text)
  {
    var t := Trim(text);
    TrimFirstChar(text);
    TrimIdempotent(text);
    TrimFirstChar(t);
    if t != [] {
      assert FirstVisibleAt(t, 0);
    }
  }

  lemma TrimIdempotent(text: string)
    ensures Trim(text) != [] ==> TrimStart(Trim(text)) == Trim(text)
  {
    var t := Trim(text);
    TrimFirstChar(text);
    if t != [] {
      assert !IsWhite(t[0]);
    }
  }

  /** Once the text has a non-whitespace character, appending anything keeps the answer. */
  lemma {:induction false} SuffixInvariant(text: string, suffix: string)
    requires Trim(text) != []
    ensures StartsWithArabic(text + suffix) == StartsWithArabic(text)
  {
    TrimFirstChar(text);
    var i := |text| - |TrimStart(text)|;
    assert FirstVisibleAt(text, i);
    assert FirstVisibleAt(text + suffix, i) by {
      forall k | 0 <= k < i ensures IsWhite((text + suffix)[k]) {
        assert (text + suffix)[k] == text[k];
      }
    }
    TrimFirstChar(text + suffix);
  }
}
