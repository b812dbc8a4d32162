/**
 The denial classifier (app.py lines 244-246 and 275-283): a step is denied when
 retrieval found nothing, or when the generated answer, lower-cased, contains one of seven
 refusal markers. This is a heuristic over text, not a security boundary: the boundary is
 the search filter.
 */
module Denial {
  import opened Text
  import opened Clearance

  /** The markers, in the order the source tests them. */
  const RefusalMarkers: seq<string> :=
    ["cannot", "proprietary", "<redacted>", "not have", "no information", "context", "apologize"]

  /** The fixed answer shown when retrieval returns nothing. */
  const DeniedAnswer: string :=
    "\U{1F512} **Access Denied**: No documents found matching your security clearance."

  datatype Verdict = Answered | Denied

  /** The source's chain of `marker in answer.lower()` tests: true exactly when the
      lower-cased answer contains some marker of the list. */
  function IsRefusal(answer: string): (r: bool)
    ensures r <==> exists i :: 0 <= i < |RefusalMarkers| && Contains(Lower(answer), RefusalMarkers[i])
  {
    var a := Lower(answer);
    if Contains(a, "cannot") then assert Contains(a, RefusalMarkers[0]); true
    else if Contains(a, "proprietary") then assert Contains(a, RefusalMarkers[1]); true
    else if Contains(a, "<redacted>") then assert Contains(a, RefusalMarkers[2]); true
    else if Contains(a, "not have") then assert Contains(a, RefusalMarkers[3]); true
    else if Contains(a, "no information") then assert Contains(a, RefusalMarkers[4]); true
    else if Contains(a, "context") then assert Contains(a, RefusalMarkers[5]); true
    else if Contains(a, "apologize") then assert Contains(a, RefusalMarkers[6]); true
    else false
  }

  /** The verdict for a step that reached retrieval: `passages` is what came back and
      `answer` the generated text (unused when nothing came back). */
  function Classify(passages: seq<Passage>, answer: string): (v: Verdict)
    ensures v == Denied <==> (|passages| == 0
              || exists i :: 0 <= i < |RefusalMarkers| && Contains(Lower(answer), RefusalMarkers[i]))
  {
    if |passages| == 0 then Denied
    else if IsRefusal(answer) then Denied
    else Answered
  }

  // ---------------------------------------------------------------------------
  // Properties

  /** Matching ignores letter case: answers differing only in case get the same verdict,
      and classifying the lower-cased answer again changes nothing. */
  lemma RefusalIgnoresCase(a: string, b: string)
    requires SameUpToCase(a, b)
    ensures IsRefusal(a) == IsRefusal(b)
    ensures IsRefusal(Lower(a)) == IsRefusal(a)
  {
    LowerSameUpToCase(a, b);
    LowerIdempotent(a);
  }

  /** An empty retrieval is denied whatever the answer text. */
  lemma EmptyRetrievalDenied(answer: string)
    ensures Classify([], answer) == Denied
  {
  }

  /** Any answer with a marker embedded anywhere, in any case, is denied. */
  lemma MarkerAnywhereDenied(passages: seq<Passage>, before: string, marker: string, after: string, i: nat)
    requires |passages| > 0 && i < |RefusalMarkers|
    requires SameUpToCase(marker, RefusalMarkers[i])
    ensures Classify(passages, before + marker + after) == Denied
  {
    var text := before + marker + after;
    LowerConcat(before + marker, after);
    LowerConcat(before, marker);
    LowerSameUpToCase(marker, RefusalMarkers[i]);
    assert Lower(RefusalMarkers[i]) == RefusalMarkers[i];
    ContainsInfix(Lower(before), RefusalMarkers[i], Lower(after));
  }

  /** An apology is denied even when retrieval found documents. */
  lemma ApologyDenied(passages: seq<Passage>)
    requires |passages| > 0
    ensures Classify(passages, "I apologize, I do not have access") == Denied
  {
    var s := "I apologize, I do not have access";
    assert s == "I " + "apologize" + ", I do not have access";
    MarkerAnywhereDenied(passages, "I ", "apologize", ", I do not have access", 6);
  }
}
