/** Lists as the program cleans them: trimmed, without empty texts, first occurrences only. */
module CleanList {
  import opened SortedText
  import TextLayout

  function Cleaned(values: seq<string>): (out: seq<string>)
    ensures Distinct(out) && forall v :: v in out ==> v != ""
    ensures forall v :: v in out <==> v != "" && exists i :: 0 <= i < |values| && v == TextLayout.TrimSpace(values[i])
  {
    if values == [] then []
    else
      var front := Cleaned(values[..|values| - 1]);
      var v := TextLayout.TrimSpace(values[|values| - 1]);
      assert forall i :: 0 <= i < |values| - 1 ==> values[..|values| - 1][i] == values[i];
      if v == "" || v in front then front else front + [v]
  }

  lemma TrimTwice(s: string)
    ensures TextLayout.TrimSpace(TextLayout.TrimSpace(s)) == TextLayout.TrimSpace(s)
  {
    var t := TextLayout.TrimSpace(s);
    if t != "" {
      TextLayout.NothingToTrim(t);
    }
  }

  /** Cleaning a clean list changes nothing. */
  lemma {:induction false} CleanedTwice(values: seq<string>)
    ensures Cleaned(Cleaned(values)) == Cleaned(values)
  {
    if values != [] {
      var front := Cleaned(values[..|values| - 1]);
      var v := TextLayout.TrimSpace(values[|values| - 1]);
      CleanedTwice(values[..|values| - 1]);
      if v != "" && v !in front {
        assert (front + [v])[..|front|] == front;
        TrimTwice(values[|values| - 1]);
      }
    }
  }
}
