/** What the two export parsers share: the title fallback and the
    bookkeeping of which input positions became records. */
module ParserCommon {
  import opened Wrappers
  import opened Strings

  const UntitledConversation: seq<char> := "Untitled conversation"

  lemma UntitledIsTrimmed()
    ensures Trim(UntitledConversation) == UntitledConversation
  {
    var u := UntitledConversation;
    assert u[0] == 'U' && u[|u| - 1] == 'n';
    TrimOfTrimmed(u);
  }

  /** `(title || "Untitled conversation").trim() || "Untitled conversation"`. */
  function Title(t: Option<seq<char>>): (r: seq<char>)
    ensures r != []
    ensures t.Some? && !AllSpace(t.value) ==> r == Trim(t.value)
    ensures t.None? || AllSpace(t.value) ==> r == UntitledConversation
  {
    var base := if t.Some? && t.value != [] then t.value else UntitledConversation;
    var trimmed := Trim(base);
    TrimEmptyIffBlank(base);
    UntitledIsTrimmed();
    if trimmed == [] then UntitledConversation else trimmed
  }

  predicate Increasing(s: seq<nat>) {
    forall k, l :: 0 <= k < l < |s| ==> s[k] < s[l]
  }

  lemma IncreasingSnoc(s: seq<nat>, i: nat)
    requires Increasing(s) && forall k :: 0 <= k < |s| ==> s[k] < i
    ensures Increasing(s + [i])
  {
  }

  /** After the first `i` inputs, where `outcome(j)` is the record input `j`
      becomes (nothing when it is dropped): `output` holds the records of
      the kept ones among them, in input order, and `from` their positions. */
  ghost predicate Selected<T>(i: nat, output: seq<T>, from: seq<nat>, outcome: nat -> Option<T>) {
    && |from| == |output|
    && (forall k :: 0 <= k < |from| ==> from[k] < i && outcome(from[k]) == Some(output[k]))
    && Increasing(from)
    && (forall j :: 0 <= j < i && outcome(j).Some? ==> j in from)
  }

  /** Handling input `i`: a dropped input leaves the selection as it is, a
      kept one appends its record and its position. */
  lemma SelectedStep<T>(i: nat, output: seq<T>, from: seq<nat>, outcome: nat -> Option<T>)
    requires Selected(i, output, from, outcome)
    ensures outcome(i).None? ==> Selected(i + 1, output, from, outcome)
    ensures outcome(i).Some? ==> Selected(i + 1, output + [outcome(i).value], from + [i], outcome)
  {
    if outcome(i).Some? {
      IncreasingSnoc(from, i);
      var from', output' := from + [i], output + [outcome(i).value];
      forall k | 0 <= k < |from'|
        ensures from'[k] < i + 1 && outcome(from'[k]) == Some(output'[k])
      {
        if k < |from| {
          assert from'[k] == from[k] && output'[k] == output[k];
        } else {
          assert from'[k] == i && output'[k] == outcome(i).value;
        }
      }
      forall j | 0 <= j < i + 1 && outcome(j).Some?
        ensures j in from'
      {
        if j < i {
          assert j in from;
        } else {
          assert from'[|from|] == j;
        }
      }
    }
  }
}
