/**
 * The client's projection of a conversion-server reply onto `Candidates`
 * (crates/client/src/engine/ipc_service.rs). The transport is a log of the
 * requests sent and an oracle for the replies.
 */
module IpcService {
  import opened Wrappers
  import opened Ints

  /** One conversion suggestion as the server sends it. */
  datatype Suggestion = Suggestion(text: string, subtext: string, hiragana: string, correspondingCount: I32)

  datatype ComposingText = ComposingText(hiragana: string, suggestions: seq<Suggestion>)

  /** The four parallel vectors the client keeps. */
  datatype Candidates = Candidates(
    texts: seq<string>,
    subTexts: seq<string>,
    hiraganas: seq<string>,
    correspondingCount: seq<I32>)

  datatype Request =
    | AppendTextRequest(textToAppend: string)
    | RemoveTextRequest
    | ClearTextRequest
    | ShrinkTextRequest(offset: I32)

  const MissingComposingText := "composing_text is None"

  /** The parallel vectors have one entry per suggestion, in the server's order. */
  predicate AlignedWith(c: Candidates, suggestions: seq<Suggestion>)
  {
    && |c.texts| == |suggestions| && |c.subTexts| == |suggestions|
    && |c.hiraganas| == |suggestions| && |c.correspondingCount| == |suggestions|
    && forall i :: 0 <= i < |suggestions| ==>
         && c.texts[i] == suggestions[i].text
         && c.subTexts[i] == suggestions[i].subtext
         && c.hiraganas[i] == suggestions[i].hiragana
         && c.correspondingCount[i] == suggestions[i].correspondingCount
  }

  /** The projection shared by `append_text`, `remove_text` and `shrink_text`. */
  function ToCandidates(composingText: Option<ComposingText>): (r: Result<Candidates, string>)
    ensures composingText.None? <==> r.Failure?
    ensures r.Failure? ==> r.error == MissingComposingText
    ensures r.Success? ==> AlignedWith(r.value, composingText.value.suggestions)
  {
    match composingText
    case None => Failure(MissingComposingText)
    case Some(ct) =>
      var s := ct.suggestions;
      Success(Candidates(
        seq(|s|, i requires 0 <= i < |s| => s[i].text),
        seq(|s|, i requires 0 <= i < |s| => s[i].subtext),
        seq(|s|, i requires 0 <= i < |s| => s[i].hiragana),
        seq(|s|, i requires 0 <= i < |s| => s[i].correspondingCount)))
  }

  /** Reads the parallel vectors back as suggestions, the other way round. */
  function Zip(c: Candidates): (r: seq<Suggestion>)
    requires |c.subTexts| == |c.texts| && |c.hiraganas| == |c.texts| && |c.correspondingCount| == |c.texts|
    ensures |r| == |c.texts|
  {
    seq(|c.texts|, i requires 0 <= i < |c.texts| =>
      Suggestion(c.texts[i], c.subTexts[i], c.hiraganas[i], c.correspondingCount[i]))
  }

  /** Nothing is lost by the projection: zipping the vectors gives the suggestions back. */
  lemma ZipRecoversSuggestions(ct: ComposingText)
    ensures var r := ToCandidates(Some(ct));
            r.Success? && Zip(r.value) == ct.suggestions
  {
    var r := ToCandidates(Some(ct));
    assert AlignedWith(r.value, ct.suggestions);
    assert forall i :: 0 <= i < |ct.suggestions| ==> Zip(r.value)[i] == ct.suggestions[i];
  }

  /** Aligned vectors are determined by the suggestions: the projection is the only one. */
  lemma AlignedIsUnique(c: Candidates, suggestions: seq<Suggestion>)
    requires AlignedWith(c, suggestions)
    ensures ToCandidates(Some(ComposingText([], suggestions))) == Success(c)
  {
    var r := ToCandidates(Some(ComposingText([], suggestions))).value;
    assert r.texts == c.texts;
    assert r.subTexts == c.subTexts;
    assert r.hiraganas == c.hiraganas;
    assert r.correspondingCount == c.correspondingCount;
  }

  /** The conversion-server client: the requests sent so far and the server as an oracle. */
  class IpcClient {
    var requests: seq<Request>
    const server: seq<Request> -> Option<ComposingText>

    constructor (server: seq<Request> -> Option<ComposingText>)
      ensures requests == [] && this.server == server
    {
      requests := [];
      this.server := server;
    }

    /** Sends one request and projects the reply. */
    method Send(request: Request) returns (r: Result<Candidates, string>)
      modifies this
      ensures requests == old(requests) + [request]
      ensures r == ToCandidates(server(requests))
    {
      requests := requests + [request];
      r := ToCandidates(server(requests));
    }

    /** `append_text`: the text is sent as given. */
    method AppendText(text: string) returns (r: Result<Candidates, string>)
      modifies this
      ensures requests == old(requests) + [AppendTextRequest(text)]
      ensures r == ToCandidates(server(requests))
    {
      r := Send(AppendTextRequest(text));
    }

    method RemoveText() returns (r: Result<Candidates, string>)
      modifies this
      ensures requests == old(requests) + [RemoveTextRequest]
      ensures r == ToCandidates(server(requests))
    {
      r := Send(RemoveTextRequest);
    }

    /** `clear_text` ignores the reply. */
    method ClearText()
      modifies this
      ensures requests == old(requests) + [ClearTextRequest]
    {
      requests := requests + [ClearTextRequest];
    }

    /** `shrink_text`: the offset is sent as given. */
    method ShrinkText(offset: I32) returns (r: Result<Candidates, string>)
      modifies this
      ensures requests == old(requests) + [ShrinkTextRequest(offset)]
      ensures r == ToCandidates(server(requests))
    {
      r := Send(ShrinkTextRequest(offset));
    }
  }
}
