/** `buildMatchesWithUnstableText`: the recognizer reports its stable
    hypotheses in `RESULTS_RECOGNITION` and, separately, a tentative tail in
    `UNSTABLE_TEXT`; the listener folds the tail into the best hypothesis
    unless it is already there. */
module Matches {

  import opened Options
  import opened JavaStrings

  /** The two bundle entries the listener reads; either may be missing. */
  datatype Bundle = Bundle(recognition: Option<seq<string>>, unstableText: Option<string>)

  /** The trimmed first match already shows the trimmed unstable text, as
      the whole text or as its last word(s). */
  predicate AlreadyShown(first: string, unstable: string) {
    Trim(first) == Trim(unstable) || EndsWith(Trim(first), " " + Trim(unstable))
  }

  /** Whether the merge leaves the list alone. */
  predicate KeepsMatches(matches: seq<string>, unstable: Option<string>) {
    || matches == []
    || unstable.None?
    || Trim(unstable.value) == []
    || AlreadyShown(matches[0], unstable.value)
  }

  /** The merge on a present, non-empty list of matches. */
  function MergeUnstable(matches: seq<string>, unstable: Option<string>): (r: seq<string>)
    ensures |r| == |matches|
    ensures forall i :: 0 < i < |r| ==> r[i] == matches[i]
    ensures KeepsMatches(matches, unstable) ==> r == matches
    ensures !KeepsMatches(matches, unstable) ==>
      r[0] == Trim(matches[0]) + " " + Trim(unstable.value)
  {
    if matches == [] then matches
    else match unstable
      case None => matches
      case Some(text) =>
        var trimmedUnstable := Trim(text);
        if trimmedUnstable == [] then matches
        else
          var trimmedFirst := Trim(matches[0]);
          if trimmedFirst == trimmedUnstable || EndsWith(trimmedFirst, " " + trimmedUnstable) then matches
          else matches[0 := trimmedFirst + " " + trimmedUnstable]
  }

  /** The whole helper: a missing match list stays missing. */
  function BuildMatchesWithUnstableText(b: Bundle): (r: Option<seq<string>>)
    ensures r.None? <==> b.recognition.None?
    ensures r.Some? ==> r.value == MergeUnstable(b.recognition.value, b.unstableText)
  {
    match b.recognition
    case None => None
    case Some(m) => Some(MergeUnstable(m, b.unstableText))
  }

  /** With an empty first match, the merge is the unstable text behind one
      blank, which trims back to the unstable text. */
  lemma MergedOntoEmpty(tu: string)
    requires Trimmed(tu)
    ensures Trim([] + " " + tu) == tu
  {
    assert [] + " " + tu == " " + tu + [];
    TrimRemovesPadding(" ", tu, []);
  }

  /** Two trimmed, non-empty texts joined by a blank need no trimming. */
  lemma JoinedIsTrimmed(tf: string, tu: string)
    requires Trimmed(tf) && Trimmed(tu) && tf != [] && tu != []
    ensures Trim(tf + " " + tu) == tf + " " + tu
  {
    var merged := tf + " " + tu;
    assert merged[0] == tf[0];
    assert merged[|merged| - 1] == tu[|tu| - 1];
    TrimOfTrimmed(merged);
  }

  /** Joining a trimmed text and a trimmed, non-empty tail with a blank
      gives a text whose trim shows the tail. */
  lemma JoinShowsTail(tf: string, tu: string)
    requires Trimmed(tf) && Trimmed(tu) && tu != []
    ensures Trim(tf + " " + tu) == tu || EndsWith(Trim(tf + " " + tu), " " + tu)
  {
    var merged := tf + " " + tu;
    var tm := Trim(merged);
    if tf == [] {
      assert tm == tu by {
        MergedOntoEmpty(tu);
      }
    } else {
      assert EndsWith(tm, " " + tu) by {
        JoinedIsTrimmed(tf, tu);
        assert merged == tf + (" " + tu);
      }
    }
  }

  /** A merged first match shows the unstable text. */
  lemma MergedFirstShowsUnstable(first: string, unstable: string)
    requires Trim(unstable) != []
    ensures AlreadyShown(Trim(first) + " " + Trim(unstable), unstable)
  {
    JoinShowsTail(Trim(first), Trim(unstable));
  }

  /** The merge changes the list exactly when KeepsMatches fails: a merged
      first match always differs from the original one. */
  lemma MergeChangesIff(matches: seq<string>, unstable: Option<string>)
    ensures MergeUnstable(matches, unstable) == matches <==> KeepsMatches(matches, unstable)
  {
    if !KeepsMatches(matches, unstable) {
      var first := matches[0];
      MergedFirstShowsUnstable(first, unstable.value);
      assert MergeUnstable(matches, unstable)[0] != first;
    }
  }

  /** Folding in the same unstable text twice is the same as once. */
  lemma {:induction false} MergeIdempotent(matches: seq<string>, unstable: Option<string>)
    ensures MergeUnstable(MergeUnstable(matches, unstable), unstable) == MergeUnstable(matches, unstable)
  {
    var once := MergeUnstable(matches, unstable);
    if !KeepsMatches(matches, unstable) {
      MergedFirstShowsUnstable(matches[0], unstable.value);
      assert KeepsMatches(once, unstable);
    }
  }

  lemma BuildMatchesIdempotent(recognition: seq<string>, unstable: Option<string>)
    ensures var once := BuildMatchesWithUnstableText(Bundle(Some(recognition), unstable));
      BuildMatchesWithUnstableText(Bundle(once, unstable)) == once
  {
    MergeIdempotent(recognition, unstable);
  }
}
