/**
 * The Swift conversion server of the current revision
 * (server-swift/Sources/azookey-server/azookey_server.swift). The converter
 * library is an oracle: its candidates and its `prefixComplete` are parameters.
 * Swift's `String.count` (grapheme clusters) is taken as the number of chars.
 */
module SwiftServer {
  import opened Ints

  /** One segment of a conversion candidate: the written word and its reading. */
  datatype Segment = Segment(word: string, ruby: string)

  datatype Candidate = Candidate(text: string, data: seq<Segment>, correspondingCount: I32)

  /** The library's composing text, seen through its convert target. */
  datatype ComposingText = ComposingText(convertTarget: string)

  const EmptyComposingText := ComposingText([])

  /** A candidate as handed to the Rust side. */
  datatype FfiCandidate = FfiCandidate(text: string, subtext: string, hiragana: string, correspondingCount: I32)

  /** The candidate string rebuilt from segment readings, per `constructCandidateString`. */
  function Construct(data: seq<Segment>, remaining: string): string
  {
    if data == [] then []
    else if |remaining| < |data[0].ruby| then remaining
    else data[0].word + Construct(data[1..], remaining[|data[0].ruby|..])
  }

  /** The sum of the readings' lengths. */
  function ReadingLength(data: seq<Segment>): nat
  {
    if data == [] then 0 else |data[0].ruby| + ReadingLength(data[1..])
  }

  function Words(data: seq<Segment>): string
  {
    if data == [] then [] else data[0].word + Words(data[1..])
  }

  /** How many leading segments have their reading consumed before one no longer fits. */
  function FitCount(data: seq<Segment>, remaining: string): (k: nat)
    ensures k <= |data|
  {
    if data == [] || |remaining| < |data[0].ruby| then 0
    else 1 + FitCount(data[1..], remaining[|data[0].ruby|..])
  }

  /**
   * The shape of the rebuilt string: the words of the segments that fit, then,
   * if some segment did not fit, the hiragana still unconsumed at that point.
   * Hiragana left after the last segment is dropped.
   */
  lemma {:induction false} ConstructShape(data: seq<Segment>, hiragana: string)
    ensures var k := FitCount(data, hiragana);
            && ReadingLength(data[..k]) <= |hiragana|
            && Construct(data, hiragana) ==
                 Words(data[..k]) + (if k < |data| then hiragana[ReadingLength(data[..k])..] else [])
  {
    if data != [] && |hiragana| >= |data[0].ruby| {
      var n := |data[0].ruby|;
      var rest := hiragana[n..];
      ConstructShape(data[1..], rest);
      var k := FitCount(data, hiragana);
      assert data[..k][0] == data[0];
      assert data[..k][1..] == data[1..][..k - 1];
      assert hiragana[n..][ReadingLength(data[1..][..k - 1])..] == hiragana[n + ReadingLength(data[1..][..k - 1])..];
    } else {
      assert data[..0] == [];
    }
  }

  /** When the readings fit into the hiragana, the result is all the words. */
  lemma {:induction false} ConstructAllFit(data: seq<Segment>, hiragana: string)
    requires ReadingLength(data) <= |hiragana|
    ensures Construct(data, hiragana) == Words(data)
  {
    if data != [] {
      ConstructAllFit(data[1..], hiragana[|data[0].ruby|..]);
    }
  }

  /** When the readings are longer than the hiragana, some segment does not fit. */
  lemma {:induction false} LongReadingsMisfit(data: seq<Segment>, hiragana: string)
    requires ReadingLength(data) > |hiragana|
    ensures FitCount(data, hiragana) < |data|
  {
    if |hiragana| >= |data[0].ruby| {
      LongReadingsMisfit(data[1..], hiragana[|data[0].ruby|..]);
    }
  }

  /** `constructCandidateString`: the loop with its `break`. */
  method ConstructCandidateString(candidate: Candidate, hiragana: string) returns (result: string)
    ensures result == Construct(candidate.data, hiragana)
  {
    var data := candidate.data;
    var remainingHiragana := hiragana;
    result := [];
    var i := 0;
    while i < |data|
      invariant 0 <= i <= |data|
      invariant result + Construct(data[i..], remainingHiragana) == Construct(data, hiragana)
    {
      var segment := data[i];
      assert data[i..][0] == segment && data[i..][1..] == data[i + 1..];
      if |remainingHiragana| < |segment.ruby| {
        result := result + remainingHiragana;
        return;
      }
      remainingHiragana := remainingHiragana[|segment.ruby|..];
      result := result + segment.word;
      i := i + 1;
    }
  }

  /** The list `get_composed_text` reports: one entry per main result. */
  predicate ComposedFrom(result: seq<FfiCandidate>, mainResults: seq<Candidate>, composing: ComposingText,
                         prefixComplete: (ComposingText, int) -> ComposingText)
  {
    && |result| == |mainResults|
    && forall i :: 0 <= i < |result| ==>
         result[i] == FfiCandidate(
           Construct(mainResults[i].data, composing.convertTarget),
           prefixComplete(composing, mainResults[i].correspondingCount).convertTarget,
           composing.convertTarget,
           mainResults[i].correspondingCount)
  }

  /** The server's global state: the composing text and the configured context. */
  class Server {
    var composingText: ComposingText
    var context: string
    var hasContext: bool
    const requestCandidates: (ComposingText, string) -> seq<Candidate>
    const prefixComplete: (ComposingText, int) -> ComposingText

    constructor (requestCandidates: (ComposingText, string) -> seq<Candidate>,
                 prefixComplete: (ComposingText, int) -> ComposingText)
      ensures composingText == EmptyComposingText && !hasContext
      ensures this.requestCandidates == requestCandidates && this.prefixComplete == prefixComplete
    {
      composingText := EmptyComposingText;
      context, hasContext := [], false;
      this.requestCandidates := requestCandidates;
      this.prefixComplete := prefixComplete;
    }

    /** `config["context"] as? String ?? ""`. */
    function ContextOrEmpty(): (r: string)
      reads this
      ensures hasContext ==> r == context
      ensures !hasContext ==> r == []
    {
      if hasContext then context else []
    }

    /** `clear_text`: a new, empty composing text; the context stays. */
    method ClearText()
      modifies this
      ensures composingText == EmptyComposingText
      ensures context == old(context) && hasContext == old(hasContext)
    {
      composingText := EmptyComposingText;
    }

    /** `set_context` stores the string; the composing text stays. */
    method SetContext(s: string)
      modifies this
      ensures hasContext && context == s && ContextOrEmpty() == s
      ensures composingText == old(composingText)
    {
      context, hasContext := s, true;
    }

    /** `get_composed_text`: the candidates for the composing text, with the length reported. */
    method GetComposedText() returns (result: seq<FfiCandidate>, length: nat)
      ensures var mainResults := requestCandidates(composingText, ContextOrEmpty());
              ComposedFrom(result, mainResults, composingText, prefixComplete) && length == |mainResults|
    {
      var hiragana := composingText.convertTarget;
      var contextString := ContextOrEmpty();
      var converted := requestCandidates(composingText, contextString);
      result := [];
      var i := 0;
      while i < |converted|
        invariant 0 <= i <= |converted|
        invariant ComposedFrom(result, converted[..i], composingText, prefixComplete)
      {
        var candidate := converted[i];
        var text := ConstructCandidateString(candidate, hiragana);
        var correspondingCount := candidate.correspondingCount;
        var afterComposingText := prefixComplete(composingText, correspondingCount);
        var subtext := afterComposingText.convertTarget;
        result := result + [FfiCandidate(text, subtext, hiragana, correspondingCount)];
        i := i + 1;
      }
      assert converted[..i] == converted;
      length := |result|;
    }
  }
}
