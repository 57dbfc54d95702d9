/**
 * The earlier Swift conversion server (server-swift/Sources/azookey_server.swift):
 * a plain list of strings, the first one possibly rebuilt from segment
 * readings, padded to five entries, handed over as a nil-terminated array.
 */
module LegacySwiftServer {
  import opened Wrappers
  import opened SwiftServer

  const MinimumEntries := 5

  /** The first entry: rebuilt when the readings are longer than the hiragana. */
  function FirstEntry(candidate: Candidate, hiragana: string): string
  {
    if ReadingLength(candidate.data) > |hiragana| then Construct(candidate.data, hiragana) else candidate.text
  }

  /** `get_composed_text`, from the converter's main results and the current hiragana. */
  method GetComposedText(mainResults: seq<Candidate>, hiragana: string) returns (result: seq<string>)
    ensures mainResults == [] ==> result == [hiragana, [], [], [], []]
    ensures mainResults != [] ==> |result| == if |mainResults| < MinimumEntries then MinimumEntries else |mainResults|
    ensures mainResults != [] ==> result[0] == FirstEntry(mainResults[0], hiragana)
    ensures forall i :: 1 <= i < |mainResults| ==> result[i] == mainResults[i].text
    ensures mainResults != [] ==> forall i :: |mainResults| <= i < |result| ==> result[i] == []
  {
    if mainResults == [] {
      return [hiragana, [], [], [], []];
    }
    var candidate := mainResults[0];
    var first: string;
    if ReadingLength(candidate.data) > |hiragana| {
      first := ConstructCandidateString(candidate, hiragana);
    } else {
      first := candidate.text;
    }
    result := [first];
    var i := 1;
    while i < |mainResults|
      invariant 1 <= i <= |mainResults| && |result| == i && result[0] == first
      invariant forall j :: 1 <= j < i ==> result[j] == mainResults[j].text
    {
      result := result + [mainResults[i].text];
      i := i + 1;
    }
    if |result| < MinimumEntries {
      var padding := MinimumEntries - |result|;
      var n := 0;
      while n < padding
        invariant 0 <= n <= padding
        invariant |result| == |mainResults| + n && result[0] == first
        invariant forall j :: 1 <= j < |mainResults| ==> result[j] == mainResults[j].text
        invariant forall j :: |mainResults| <= j < |result| ==> result[j] == []
      {
        result := result + [[]];
        n := n + 1;
      }
    }
  }

  /** `to_list_pointer`: one slot per string, then a nil terminator. */
  method ToListPointer(list: seq<string>) returns (slots: array<Option<string>>)
    ensures fresh(slots) && slots.Length == |list| + 1
    ensures forall i :: 0 <= i < |list| ==> slots[i] == Some(list[i])
    ensures slots[|list|] == None
  {
    slots := new Option<string>[|list| + 1](_ => None);
    var index := 0;
    while index < |list|
      invariant 0 <= index <= |list|
      invariant forall i :: 0 <= i < index ==> slots[i] == Some(list[i])
      invariant slots[|list|] == None
      modifies slots
    {
      slots[index] := Some(list[index]);
      index := index + 1;
    }
  }

  /** How a reader of the array walks it: strings up to the first nil. */
  function ReadUntilNil(slots: seq<Option<string>>): seq<string>
  {
    if slots == [] || slots[0].None? then [] else [slots[0].value] + ReadUntilNil(slots[1..])
  }

  /** The terminated array reads back as exactly the list. */
  lemma {:induction false} ListPointerReadsBack(list: seq<string>, slots: seq<Option<string>>)
    requires |slots| == |list| + 1 && slots[|list|] == None
    requires forall i :: 0 <= i < |list| ==> slots[i] == Some(list[i])
    ensures ReadUntilNil(slots) == list
  {
    if list != [] {
      ListPointerReadsBack(list[1..], slots[1..]);
    }
  }

  /** A rebuilt first entry is never just the words: some segment misfits, so hiragana is appended. */
  lemma RebuiltFirstEntry(candidate: Candidate, hiragana: string)
    requires ReadingLength(candidate.data) > |hiragana|
    ensures var k := FitCount(candidate.data, hiragana);
            k < |candidate.data| && ReadingLength(candidate.data[..k]) <= |hiragana| &&
            FirstEntry(candidate, hiragana) ==
              Words(candidate.data[..k]) + hiragana[ReadingLength(candidate.data[..k])..]
  {
    LongReadingsMisfit(candidate.data, hiragana);
    ConstructShape(candidate.data, hiragana);
  }
}
