/**
 * The Rust conversion server's own logic (crates/server/src/main.rs):
 * duplicate removal in `get_composed_text`, context trimming in
 * `set_context`, and the `as i8` narrowing of request offsets. The Swift
 * converter behind the FFI is an input: its candidate array is a parameter.
 */
module KkcServer {
  import opened Ints

  /** A candidate as the FFI hands it over (strings already decoded). */
  datatype FfiCandidate = FfiCandidate(text: string, subtext: string, hiragana: string, correspondingCount: I32)

  /** The server's reply entry: this revision carries no hiragana per suggestion. */
  datatype Suggestion = Suggestion(text: string, subtext: string, correspondingCount: I32)

  function ToSuggestion(c: FfiCandidate): Suggestion
  {
    Suggestion(c.text, c.subtext, c.correspondingCount)
  }

  /** Some suggestion in `kept` already has text `t` (the `any` test). */
  predicate HasText(kept: seq<Suggestion>, t: string)
  {
    exists k :: 0 <= k < |kept| && kept[k].text == t
  }

  /** No earlier entry of `xs` has the text of entry `i`. */
  predicate IsFirst(xs: seq<Suggestion>, i: nat)
    requires i < |xs|
  {
    forall j :: 0 <= j < i ==> xs[j].text != xs[i].text
  }

  /** The specification: each entry whose text is new so far is kept, in order. */
  function KeepFirst(xs: seq<Suggestion>): seq<Suggestion>
  {
    if xs == [] then []
    else
      var prefix := xs[..|xs| - 1];
      if IsFirst(xs, |xs| - 1) then KeepFirst(prefix) + [xs[|xs| - 1]] else KeepFirst(prefix)
  }

  /** The indices of the kept entries: the first occurrence of each text. */
  function KeptIndices(xs: seq<Suggestion>): seq<nat>
  {
    if xs == [] then []
    else
      var prefix := xs[..|xs| - 1];
      if IsFirst(xs, |xs| - 1) then KeptIndices(prefix) + [|xs| - 1] else KeptIndices(prefix)
  }

  /** The kept texts are exactly the texts of the input. */
  lemma {:induction false} KeptTexts(xs: seq<Suggestion>, t: string)
    ensures HasText(KeepFirst(xs), t) <==> HasText(xs, t)
  {
    if xs != [] {
      var prefix := xs[..|xs| - 1];
      var x := xs[|xs| - 1];
      KeptTexts(prefix, t);
      if HasText(prefix, t) {
        var k :| 0 <= k < |prefix| && prefix[k].text == t;
        assert xs[k].text == t;
      }
      if HasText(xs, t) && !HasText(prefix, t) {
        assert x.text == t;
        assert IsFirst(xs, |xs| - 1);
        assert KeepFirst(xs)[|KeepFirst(xs)| - 1] == x;
      }
      if !IsFirst(xs, |xs| - 1) {
        var j :| 0 <= j < |xs| - 1 && xs[j].text == x.text;
        assert prefix[j].text == x.text;
      }
    }
  }

  predicate DistinctTexts(r: seq<Suggestion>)
  {
    forall i, j :: 0 <= i < j < |r| ==> r[i].text != r[j].text
  }

  /** No two kept suggestions share a text. */
  lemma {:induction false} KeepFirstDistinct(xs: seq<Suggestion>)
    ensures DistinctTexts(KeepFirst(xs))
  {
    if xs != [] {
      var prefix := xs[..|xs| - 1];
      var x := xs[|xs| - 1];
      KeepFirstDistinct(prefix);
      if IsFirst(xs, |xs| - 1) {
        var p := KeepFirst(prefix);
        var r := KeepFirst(xs);
        assert r == p + [x];
        assert !HasText(prefix, x.text) by {
          assert forall k :: 0 <= k < |prefix| ==> prefix[k] == xs[k];
        }
        KeptTexts(prefix, x.text);
        forall i, j | 0 <= i < j < |r|
          ensures r[i].text != r[j].text
        {
          if j < |p| {
            assert r[i] == p[i] && r[j] == p[j];
            assert p[i].text != p[j].text;
          } else {
            assert r[i] == p[i] && r[j] == x;
            assert !(p[i].text == x.text);
          }
        }
      } else {
        assert KeepFirst(xs) == KeepFirst(prefix);
      }
    }
  }

  /**
   * The kept suggestions are the input entries at `KeptIndices`: strictly
   * increasing positions, each the first occurrence of its text, and every
   * first occurrence is among them.
   */
  lemma {:induction false} KeepFirstOrigins(xs: seq<Suggestion>)
    ensures var r, idx := KeepFirst(xs), KeptIndices(xs);
            && |idx| == |r| <= |xs|
            && (forall k :: 0 <= k < |idx| ==> idx[k] < |xs| && r[k] == xs[idx[k]] && IsFirst(xs, idx[k]))
            && (forall k, l :: 0 <= k < l < |idx| ==> idx[k] < idx[l])
            && (forall i :: 0 <= i < |xs| && IsFirst(xs, i) ==> i in idx)
  {
    if xs != [] {
      var prefix := xs[..|xs| - 1];
      KeepFirstOrigins(prefix);
      var r, idx := KeepFirst(xs), KeptIndices(xs);
      var pr, pidx := KeepFirst(prefix), KeptIndices(prefix);
      assert forall i :: 0 <= i < |prefix| ==> (IsFirst(prefix, i) <==> IsFirst(xs, i)) by {
        forall i | 0 <= i < |prefix| ensures IsFirst(prefix, i) <==> IsFirst(xs, i) {
          assert forall j :: 0 <= j < i ==> prefix[j] == xs[j];
        }
      }
      if IsFirst(xs, |xs| - 1) {
        assert r == pr + [xs[|xs| - 1]] && idx == pidx + [|xs| - 1];
      } else {
        assert r == pr && idx == pidx;
      }
    }
  }

  /** The server-side `any` check, written as the loop it stands for. */
  method AnyText(kept: seq<Suggestion>, t: string) returns (found: bool)
    ensures found <==> HasText(kept, t)
  {
    var k := 0;
    while k < |kept|
      invariant 0 <= k <= |kept|
      invariant forall l :: 0 <= l < k ==> kept[l].text != t
    {
      if kept[k].text == t {
        return true;
      }
      k := k + 1;
    }
    return false;
  }

  /** The candidates as suggestions, before duplicates are removed. */
  function Projected(candidates: seq<FfiCandidate>): (r: seq<Suggestion>)
    ensures |r| == |candidates|
    ensures forall i :: 0 <= i < |candidates| ==> r[i] == ToSuggestion(candidates[i])
  {
    seq(|candidates|, i requires 0 <= i < |candidates| => ToSuggestion(candidates[i]))
  }

  /** `get_composed_text`: the first `length` candidates, without repeated texts. */
  method GetComposedText(candidates: seq<FfiCandidate>, length: nat) returns (suggestions: seq<Suggestion>)
    requires length <= |candidates|
    ensures suggestions == KeepFirst(Projected(candidates[..length]))
  {
    suggestions := [];
    var index := 0;
    while index < length
      invariant 0 <= index <= length
      invariant suggestions == KeepFirst(Projected(candidates[..index]))
    {
      var suggestion := ToSuggestion(candidates[index]);
      var xs := Projected(candidates[..index + 1]);
      assert xs[..index] == Projected(candidates[..index]);
      assert xs[index] == suggestion;
      var seen := AnyText(suggestions, suggestion.text);
      KeptTexts(xs[..index], suggestion.text);
      if seen {
        var j :| 0 <= j < index && xs[..index][j].text == suggestion.text;
        assert !IsFirst(xs, index);
        index := index + 1;
        continue;
      }
      assert IsFirst(xs, index) by {
        forall j | 0 <= j < index ensures xs[j].text != suggestion.text {
          assert xs[..index][j] == xs[j];
        }
      }
      suggestions := suggestions + [suggestion];
      index := index + 1;
    }
  }

  /** `str::split('\r')`, built up one character at a time. */
  function SplitCr(s: string): (r: seq<string>)
    ensures |r| >= 1
  {
    if s == [] then [[]]
    else
      var p := SplitCr(s[..|s| - 1]);
      var c := s[|s| - 1];
      if c == '\r' then p + [[]] else p[..|p| - 1] + [p[|p| - 1] + [c]]
  }

  /** `pieces.join("\r")`. */
  function JoinCr(pieces: seq<string>): string
    requires |pieces| >= 1
  {
    if |pieces| == 1 then pieces[0] else JoinCr(pieces[..|pieces| - 1]) + ['\r'] + pieces[|pieces| - 1]
  }

  /** Extending the last piece by `c` extends the joined string by `c`. */
  lemma JoinCrExtendLast(p: seq<string>, c: char)
    requires |p| >= 1
    ensures JoinCr(p[..|p| - 1] + [p[|p| - 1] + [c]]) == JoinCr(p) + [c]
  {
    var q := p[..|p| - 1];
    var r := q + [p[|p| - 1] + [c]];
    if |p| > 1 {
      assert r[..|r| - 1] == q;
      assert p[..|p| - 1] == q;
      calc {
        JoinCr(r);
        JoinCr(q) + ['\r'] + (p[|p| - 1] + [c]);
        (JoinCr(q) + ['\r'] + p[|p| - 1]) + [c];
        JoinCr(p) + [c];
      }
    }
  }

  /** Splitting loses nothing: joining the pieces gives the string back. */
  lemma {:induction false} SplitCrJoins(s: string)
    ensures JoinCr(SplitCr(s)) == s
  {
    if s != [] {
      var prefix := s[..|s| - 1];
      var c := s[|s| - 1];
      SplitCrJoins(prefix);
      var p := SplitCr(prefix);
      assert s == prefix + [c];
      if c != '\r' {
        JoinCrExtendLast(p, c);
      } else {
        assert (p + [[]])[..|p|] == p;
      }
    }
  }

  /** No piece of the split holds a '\r'. */
  lemma {:induction false} SplitCrPiecesHaveNoCr(s: string)
    ensures forall i, k :: 0 <= i < |SplitCr(s)| && 0 <= k < |SplitCr(s)[i]| ==> SplitCr(s)[i][k] != '\r'
  {
    if s != [] {
      SplitCrPiecesHaveNoCr(s[..|s| - 1]);
    }
  }

  /** `.filter(|s| !s.is_empty())`. */
  function NonEmpty(pieces: seq<string>): (r: seq<string>)
    ensures |r| <= |pieces|
    ensures forall i :: 0 <= i < |r| ==> r[i] != []
  {
    if pieces == [] then []
    else
      var p := NonEmpty(pieces[..|pieces| - 1]);
      if pieces[|pieces| - 1] == [] then p else p + [pieces[|pieces| - 1]]
  }

  /** `set_context`: the last non-empty line of the context, or "" when there is none. */
  function TrimContext(context: string): string
  {
    var pieces := NonEmpty(SplitCr(context));
    if pieces == [] then [] else pieces[|pieces| - 1]
  }

  /** The characters after the last '\r'. */
  function Tail(s: string): string
  {
    if s == [] || s[|s| - 1] == '\r' then [] else Tail(s[..|s| - 1]) + [s[|s| - 1]]
  }

  /** Reference definition: drop trailing '\r's, then take what follows the last one left. */
  function LastLine(s: string): string
  {
    if s == [] then []
    else if s[|s| - 1] == '\r' then LastLine(s[..|s| - 1])
    else Tail(s)
  }

  lemma {:induction false} SplitCrLast(s: string)
    ensures SplitCr(s)[|SplitCr(s)| - 1] == Tail(s)
  {
    if s != [] {
      SplitCrLast(s[..|s| - 1]);
    }
  }

  /** The trimmed context is the last line of the context. */
  lemma {:induction false} TrimContextIsLastLine(s: string)
    ensures TrimContext(s) == LastLine(s)
  {
    if s != [] {
      var prefix := s[..|s| - 1];
      var c := s[|s| - 1];
      var p := SplitCr(prefix);
      if c == '\r' {
        TrimContextIsLastLine(prefix);
        assert SplitCr(s) == p + [[]];
        assert (p + [[]])[..|p|] == p;
        assert NonEmpty(SplitCr(s)) == NonEmpty(p);
      } else {
        SplitCrLast(s);
        var pieces := SplitCr(s);
        assert pieces[|pieces| - 1] == p[|p| - 1] + [c];
        assert NonEmpty(pieces) == NonEmpty(pieces[..|pieces| - 1]) + [pieces[|pieces| - 1]];
      }
    }
  }

  /** What the trimmed context is: no '\r', and the whole string when there is no '\r'. */
  lemma {:induction false} TailHasNoCr(s: string)
    ensures forall k :: 0 <= k < |Tail(s)| ==> Tail(s)[k] != '\r'
    ensures (forall k :: 0 <= k < |s| ==> s[k] != '\r') ==> Tail(s) == s
  {
    if s != [] {
      var prefix := s[..|s| - 1];
      TailHasNoCr(prefix);
      if forall k :: 0 <= k < |s| ==> s[k] != '\r' {
        assert forall k :: 0 <= k < |prefix| ==> prefix[k] == s[k];
        assert s == prefix + [s[|s| - 1]];
      }
    }
  }

  lemma {:induction false} LastLineHasNoCr(s: string)
    ensures forall k :: 0 <= k < |LastLine(s)| ==> LastLine(s)[k] != '\r'
    ensures (forall k :: 0 <= k < |s| ==> s[k] != '\r') ==> LastLine(s) == s
  {
    if s != [] {
      if s[|s| - 1] == '\r' {
        LastLineHasNoCr(s[..|s| - 1]);
      } else {
        TailHasNoCr(s);
      }
    }
  }

  lemma TrimContextSamples()
    ensures TrimContext("ab\rcd\r\r") == "cd"
    ensures TrimContext("\r\r") == ""
    ensures TrimContext("") == ""
  {
    TrimContextIsLastLine("ab\rcd\r\r");
    assert "ab\rcd\r\r"[..6] == "ab\rcd\r";
    assert "ab\rcd\r"[..5] == "ab\rcd";
    assert "ab\rcd"[..4] == "ab\rc";
    assert "ab\rc"[..3] == "ab\r";
    TrimContextIsLastLine("\r\r");
    assert "\r\r"[..1] == "\r";
  }

  /** `move_cursor` and `shrink_text` narrow the 32-bit request offset to `i8` first. */
  function EngineOffset(requestOffset: I32): (r: I8)
    ensures (r - requestOffset) % 0x100 == 0
    ensures -0x80 <= requestOffset < 0x80 ==> r == requestOffset
  {
    AsI8(requestOffset)
  }
}
