/** The constant parts of the quick-note composer: the canned catalogue, the
    letter keys of the on-screen keyboard, and the check the ADD button makes. */
module QuickNote {
  import opened Optional
  import opened Whitespace

  /** The two columns of canned notes; the split is layout only. */
  const LeftNotes: seq<string> := ["BUY MILK", "GOOD LUCK!", "I'M HOME"]
  const RightNotes: seq<string> := ["CALL ME", "FEED THE DOG", "RUNNING LATE"]

  /** Every canned note, in display order. */
  const Catalogue: seq<string> := LeftNotes + RightNotes

  /** Every canned title can be posted as it is: it is non-empty and has no
      whitespace at either end, so ADD would leave it unchanged too
      (`SubmitTrimmed`). */
  lemma CatalogueIsPostable()
    ensures |Catalogue| == 6
    ensures forall k :: 0 <= k < |Catalogue| ==> Catalogue[k] != [] && IsTrimmed(Catalogue[k])
  {
  }

  /** The six titles are distinct (the composer identifies each button by its
      title); their first letters already differ. */
  lemma CatalogueIsDistinct()
    ensures forall a, b :: 0 <= a < b < |Catalogue| ==> Catalogue[a] != Catalogue[b]
  {
    var firsts := seq(|Catalogue|, k requires 0 <= k < |Catalogue| => Catalogue[k][0]);
    assert firsts == "BGICFR";
    forall a, b | 0 <= a < b < |Catalogue| ensures Catalogue[a] != Catalogue[b] {
      assert firsts[a] != firsts[b];
    }
  }

  /** The rows of letter keys. */
  const KeyRows: seq<seq<char>> := [
    ['A', 'B', 'C', 'D', 'E', 'F', 'G'],
    ['H', 'I', 'J', 'K', 'L', 'M', 'N'],
    ['O', 'P', 'Q', 'R', 'S', 'T', 'U'],
    ['V', 'W', 'X', 'Y', 'Z']
  ]

  /** All letter keys, row by row. */
  const LetterKeys: seq<char> := KeyRows[0] + KeyRows[1] + KeyRows[2] + KeyRows[3]

  /** The letter keys are the alphabet A to Z, each once, in order. */
  lemma LetterKeysAreAlphabet()
    ensures |LetterKeys| == 26
    ensures forall k :: 0 <= k < 26 ==> LetterKeys[k] as int == 'A' as int + k
    ensures forall c :: c in LetterKeys <==> 'A' <= c <= 'Z'
  {
    assert LetterKeys == "ABCDEFGHIJKLMNOPQRSTUVWXYZ";
  }

  /** What the ADD button makes of the draft: nothing when the draft is all
      whitespace, otherwise the trimmed draft, which is non-empty and has no
      whitespace at either end. */
  function SubmitDraft(draft: string): (r: Option<string>)
    ensures r.None? <==> AllSpace(draft)
    ensures r.Some? ==> r.value == Trim(draft) && r.value != [] && IsTrimmed(r.value)
    ensures r.Some? ==> |r.value| <= |draft|
  {
    var trimmed := Trim(draft);
    if trimmed == [] then None else Some(trimmed)
  }

  /** A draft already trimmed and non-empty is submitted unchanged. */
  lemma SubmitTrimmed(draft: string)
    requires draft != [] && IsTrimmed(draft)
    ensures SubmitDraft(draft) == Some(draft)
  {
    TrimFixpoint(draft);
  }

  /** Padding with whitespace on either side does not change what is submitted. */
  lemma SubmitIgnoresPadding(pre: string, draft: string, post: string)
    requires AllSpace(pre) && AllSpace(post)
    ensures SubmitDraft(pre + draft + post) == SubmitDraft(draft)
  {
    var i, j := TrimSplit(draft);
    PaddedTrim(pre, draft, post, i, j);
  }

  /** The trimmed middle of `draft` is also that of the padded draft. */
  lemma PaddedTrim(pre: string, draft: string, post: string, i: nat, j: nat)
    requires AllSpace(pre) && AllSpace(post)
    requires i <= j <= |draft| && AllSpace(draft[..i]) && AllSpace(draft[j..])
    requires IsTrimmed(draft[i..j])
    ensures Trim(pre + draft + post) == draft[i..j]
  {
    PaddedSlices(pre, draft, post, i, j);
    AllSpaceConcat(pre, draft[..i]);
    AllSpaceConcat(draft[j..], post);
    TrimUnique(pre + draft + post, |pre| + i, |pre| + j);
  }

  /** How the slices of a padded string line up with those of the middle. */
  lemma PaddedSlices<T>(pre: seq<T>, mid: seq<T>, post: seq<T>, i: nat, j: nat)
    requires i <= j <= |mid|
    ensures (pre + mid + post)[..|pre| + i] == pre + mid[..i]
    ensures (pre + mid + post)[|pre| + j..] == mid[j..] + post
    ensures (pre + mid + post)[|pre| + i..|pre| + j] == mid[i..j]
  {
    var s := pre + mid + post;
    assert s == pre + (mid + post);
    assert (mid + post)[..i] == mid[..i];
    assert s == (pre + mid) + post && (pre + mid)[|pre| + j..] == mid[j..];
  }
}
