/**
  `format_transcript_text` and `format_transcript_json`: the two ways the
  script turns the first dataset item of a finished run into output. Both
  keep, in order, the captions whose text is not blank once stripped; the
  text form joins them with newlines, the JSON form lists them with their
  timings and joins them with spaces.
 */
module Transcript {
  import opened Wrappers
  import opened Text

  /** A JSON number as it arrives from the dataset; it is copied, never computed with. */
  datatype Number = Int(i: int) | Float(x: real)

  /** One element of `captions`; `None` stands for a key the element does not have. */
  datatype Caption = Caption(text: Option<string>, start: Option<Number>, duration: Option<Number>)

  /** The dataset item: its `title`, `text` and `captions` keys, each possibly absent. */
  datatype Record = Record(title: Option<string>, text: Option<string>, captions: Option<seq<Caption>>)

  /** One element of the JSON output's `transcript` list. */
  datatype Entry = Entry(start: Number, duration: Number, text: string)

  /** The dictionary `format_transcript_json` returns. */
  datatype JsonTranscript = JsonTranscript(videoId: string, title: string, transcript: seq<Entry>, fullText: string)

  /** What the text form gives when there are neither captions nor a `text` key. */
  const NoContent := "No transcript content found."

  /** The title the JSON form uses when the item has none. */
  const UnknownTitle := "Unknown"

  /** `result.get("captions", [])`. */
  function CaptionsOf(r: Record): seq<Caption> {
    if r.captions.Some? then r.captions.value else []
  }

  /** `caption.get("text", "").strip()`. */
  function CaptionText(c: Caption): string {
    Strip(if c.text.Some? then c.text.value else "")
  }

  /** The loops keep a caption when its stripped text is not empty. */
  predicate Kept(c: Caption) {
    CaptionText(c) != ""
  }

  /** `caption.get(key, 0)` for `start` and `duration`. */
  function OrZero(n: Option<Number>): Number {
    if n.Some? then n.value else Int(0)
  }

  /** The `transcript` entry made from a caption. */
  function EntryOf(c: Caption): Entry {
    Entry(OrZero(c.start), OrZero(c.duration), CaptionText(c))
  }

  /** The stripped texts that are not empty, in caption order: what both loops collect. */
  function KeptTexts(cs: seq<Caption>): (ts: seq<string>)
    ensures |ts| <= |cs|
    ensures forall j | 0 <= j < |ts| :: ts[j] != ""
  {
    if cs == [] then []
    else
      var t := CaptionText(cs[|cs| - 1]);
      KeptTexts(cs[..|cs| - 1]) + (if t != "" then [t] else [])
  }

  /** The entries the JSON loop appends to `transcript`, in caption order. */
  function KeptEntries(cs: seq<Caption>): seq<Entry> {
    if cs == [] then []
    else
      var c := cs[|cs| - 1];
      KeptEntries(cs[..|cs| - 1]) + (if Kept(c) then [EntryOf(c)] else [])
  }

  /** The positions of the captions the loops keep, in order. */
  function KeptIndices(cs: seq<Caption>): (idx: seq<int>)
    ensures forall j | 0 <= j < |idx| :: 0 <= idx[j] < |cs|
  {
    if cs == [] then []
    else KeptIndices(cs[..|cs| - 1]) + (if Kept(cs[|cs| - 1]) then [|cs| - 1] else [])
  }

  /** The texts of a list of entries. */
  function TextsOf(es: seq<Entry>): (ts: seq<string>)
    ensures |ts| == |es| && forall j | 0 <= j < |es| :: ts[j] == es[j].text
  {
    seq(|es|, j requires 0 <= j < |es| => es[j].text)
  }

  /** The string `format_transcript_text(result)` returns. */
  function TextOutput(r: Record): string {
    var cs := CaptionsOf(r);
    if cs == [] then (if r.text.Some? then r.text.value else NoContent)
    else Join("\n", KeptTexts(cs))
  }

  /** The dictionary `format_transcript_json(result, video_id)` returns. */
  function JsonOutput(r: Record, videoId: string): JsonTranscript {
    var cs := CaptionsOf(r);
    JsonTranscript(
      videoId,
      if r.title.Some? then r.title.value else UnknownTitle,
      KeptEntries(cs),
      Join(" ", KeptTexts(cs)))
  }

  /** `format_transcript_text`: the fallback, then the loop collecting `lines`, then the join. */
  method FormatTranscriptText(r: Record) returns (out: string)
    ensures out == TextOutput(r)
  {
    var captions := CaptionsOf(r);
    if |captions| == 0 {
      if r.text.Some? {
        return r.text.value;
      }
      return NoContent;
    }
    var lines := [];
    for i := 0 to |captions|
      invariant lines == KeptTexts(captions[..i])
    {
      assert captions[..i + 1][..i] == captions[..i];
      var text := CaptionText(captions[i]);
      if text != "" {
        lines := lines + [text];
      }
    }
    assert captions[..|captions|] == captions;
    out := Join("\n", lines);
  }

  /** `format_transcript_json`: one loop appending to both `texts` and `transcript`, then the join. */
  method FormatTranscriptJson(r: Record, videoId: string) returns (out: JsonTranscript)
    ensures out == JsonOutput(r, videoId)
  {
    var captions := CaptionsOf(r);
    var title := if r.title.Some? then r.title.value else UnknownTitle;
    var transcript := [];
    var texts := [];
    for i := 0 to |captions|
      invariant texts == KeptTexts(captions[..i])
      invariant transcript == KeptEntries(captions[..i])
    {
      assert captions[..i + 1][..i] == captions[..i];
      var text := CaptionText(captions[i]);
      if text != "" {
        texts := texts + [text];
        transcript := transcript + [Entry(OrZero(captions[i].start), OrZero(captions[i].duration), text)];
      }
    }
    assert captions[..|captions|] == captions;
    out := JsonTranscript(videoId, title, transcript, Join(" ", texts));
  }

  /** The kept positions are increasing. */
  lemma {:induction false} IndicesIncreasing(cs: seq<Caption>)
    ensures forall j, k | 0 <= j < k < |KeptIndices(cs)| :: KeptIndices(cs)[j] < KeptIndices(cs)[k]
  {
    if cs != [] {
      var init := cs[..|cs| - 1];
      IndicesIncreasing(init);
      var idx0 := KeptIndices(init);
      var idx := KeptIndices(cs);
      assert forall j | 0 <= j < |idx0| :: idx[j] == idx0[j];
    }
  }

  /** A position is kept exactly when the caption there has a non-blank text. */
  lemma {:induction false} IndicesMembership(cs: seq<Caption>)
    ensures forall i | 0 <= i < |cs| :: i in KeptIndices(cs) <==> Kept(cs[i])
  {
    if cs != [] {
      var init := cs[..|cs| - 1];
      IndicesMembership(init);
      IndicesIncreasing(init);
      var idx0 := KeptIndices(init);
      var idx := KeptIndices(cs);
      assert |cs| - 1 !in idx0;
      forall i | 0 <= i < |cs| ensures i in idx <==> Kept(cs[i]) {
        if i < |cs| - 1 {
          assert cs[i] == init[i];
          assert i in idx <==> i in idx0;
        }
      }
    }
  }

  /** The entries collected are the entries made from the captions at the kept positions. */
  lemma {:induction false} EntriesAtIndices(cs: seq<Caption>)
    ensures |KeptEntries(cs)| == |KeptIndices(cs)|
    ensures forall j | 0 <= j < |KeptIndices(cs)| :: KeptEntries(cs)[j] == EntryOf(cs[KeptIndices(cs)[j]])
  {
    if cs != [] {
      var init := cs[..|cs| - 1];
      EntriesAtIndices(init);
      var idx0 := KeptIndices(init);
      var es0 := KeptEntries(init);
      var idx := KeptIndices(cs);
      var es := KeptEntries(cs);
      forall j | 0 <= j < |idx| ensures es[j] == EntryOf(cs[idx[j]]) {
        if j < |idx0| {
          assert es[j] == es0[j] && idx[j] == idx0[j];
          assert cs[idx0[j]] == init[idx0[j]];
        }
      }
    }
  }

  /**
    The loops keep exactly the captions whose stripped text is not empty, in
    their original order, and each kept one becomes the entry made from it.
   */
  lemma KeptSelection(cs: seq<Caption>)
    ensures var idx := KeptIndices(cs);
      (forall j | 0 <= j < |idx| :: 0 <= idx[j] < |cs|)
      && (forall j, k | 0 <= j < k < |idx| :: idx[j] < idx[k])
      && (forall i | 0 <= i < |cs| :: i in idx <==> CaptionText(cs[i]) != "")
      && |KeptEntries(cs)| == |idx|
      && (forall j | 0 <= j < |idx| :: KeptEntries(cs)[j] == EntryOf(cs[idx[j]]))
  {
    IndicesIncreasing(cs);
    IndicesMembership(cs);
    EntriesAtIndices(cs);
  }

  /** Taking the texts of entries commutes with appending one. */
  lemma TextsOfSnoc(es: seq<Entry>, tail: seq<Entry>)
    ensures TextsOf(es + tail) == TextsOf(es) + TextsOf(tail)
  {
    assert forall j | 0 <= j < |es| :: (es + tail)[j] == es[j];
  }

  /** The texts collected are the texts of the entries collected. */
  lemma {:induction false} KeptTextsOfEntries(cs: seq<Caption>)
    ensures KeptTexts(cs) == TextsOf(KeptEntries(cs))
  {
    if cs != [] {
      var init := cs[..|cs| - 1];
      var c := cs[|cs| - 1];
      KeptTextsOfEntries(init);
      var tail := if Kept(c) then [EntryOf(c)] else [];
      TextsOfSnoc(KeptEntries(init), tail);
      assert TextsOf(tail) == (if Kept(c) then [CaptionText(c)] else []);
    }
  }

  /** Every transcript entry holds a non-empty text that stripping leaves unchanged. */
  lemma EntriesTrimmed(r: Record, videoId: string)
    ensures var es := JsonOutput(r, videoId).transcript;
      |es| <= |CaptionsOf(r)|
      && forall j | 0 <= j < |es| :: es[j].text != "" && Strip(es[j].text) == es[j].text
  {
    var cs := CaptionsOf(r);
    KeptTextsOfEntries(cs);
    var es := KeptEntries(cs);
    forall j | 0 <= j < |es| ensures es[j].text != "" && Strip(es[j].text) == es[j].text {
      assert es[j].text == KeptTexts(cs)[j];
      KeptSelection(cs);
      StripIdempotent(if cs[KeptIndices(cs)[j]].text.Some? then cs[KeptIndices(cs)[j]].text.value else "");
    }
  }

  /** `full_text` is the space-join of exactly the `transcript` texts. */
  lemma FullTextJoinsTranscript(r: Record, videoId: string)
    ensures var out := JsonOutput(r, videoId);
      out.fullText == Join(" ", TextsOf(out.transcript))
  {
    KeptTextsOfEntries(CaptionsOf(r));
  }

  /**
    With captions present, the text form holds the same texts as the JSON
    `transcript`, joined with newlines instead of spaces.
   */
  lemma TextMatchesJson(r: Record, videoId: string)
    requires CaptionsOf(r) != []
    ensures TextOutput(r) == Join("\n", TextsOf(JsonOutput(r, videoId).transcript))
  {
    KeptTextsOfEntries(CaptionsOf(r));
  }

  /**
    With captions present, the text form is empty exactly when every
    caption's text is blank; the placeholder is not used then.
   */
  lemma TextEmptyIffAllBlank(r: Record)
    requires CaptionsOf(r) != []
    ensures TextOutput(r) == "" <==> forall i | 0 <= i < |CaptionsOf(r)| :: CaptionText(CaptionsOf(r)[i]) == ""
  {
    var cs := CaptionsOf(r);
    JoinEmpty("\n", KeptTexts(cs));
    KeptTextsOfEntries(cs);
    KeptSelection(cs);
    if KeptTexts(cs) != [] {
      var i := KeptIndices(cs)[0];
      assert CaptionText(cs[i]) != "";
    }
  }

  /**
    Without captions the text form falls back to the `text` key, then to the
    placeholder, while the JSON form has an empty transcript and no fallback.
   */
  lemma NoCaptionsFallback(r: Record, videoId: string)
    requires CaptionsOf(r) == []
    ensures TextOutput(r) == (if r.text.Some? then r.text.value else NoContent)
    ensures JsonOutput(r, videoId).transcript == [] && JsonOutput(r, videoId).fullText == ""
  {
  }

  /** The video ID is passed through, and the title is the placeholder exactly when the key is absent. */
  lemma JsonHeader(r: Record, videoId: string)
    ensures JsonOutput(r, videoId).videoId == videoId
    ensures r.title.Some? ==> JsonOutput(r, videoId).title == r.title.value
    ensures r.title.None? ==> JsonOutput(r, videoId).title == UnknownTitle
  {
  }

  /**
    When no kept text holds a newline, splitting the text form at newlines
    gives the kept texts back: the lines are recoverable from the output.
   */
  lemma TextLinesRecoverable(r: Record)
    requires KeptTexts(CaptionsOf(r)) != []
    requires forall j | 0 <= j < |KeptTexts(CaptionsOf(r))| :: '\n' !in KeptTexts(CaptionsOf(r))[j]
    ensures Split(TextOutput(r), '\n') == KeptTexts(CaptionsOf(r))
  {
    assert CaptionsOf(r) != [];
    SplitJoin(KeptTexts(CaptionsOf(r)), '\n');
  }

  /** Unfolding step for the examples: what the loops collect from a single caption. */
  lemma KeptOne(c: Caption)
    ensures KeptTexts([c]) == (if Kept(c) then [CaptionText(c)] else [])
    ensures KeptEntries([c]) == (if Kept(c) then [EntryOf(c)] else [])
  {
    assert [c][..0] == [];
  }

  /** Unfolding step for the examples: what the loops collect from two captions. */
  lemma KeptTwo(c0: Caption, c1: Caption)
    ensures KeptTexts([c0, c1]) == KeptTexts([c0]) + (if Kept(c1) then [CaptionText(c1)] else [])
    ensures KeptEntries([c0, c1]) == KeptEntries([c0]) + (if Kept(c1) then [EntryOf(c1)] else [])
  {
    assert [c0, c1][..1] == [c0];
  }

  /** Unfolding step for the examples: what the loops collect from three captions. */
  lemma KeptThree(c0: Caption, c1: Caption, c2: Caption)
    ensures KeptTexts([c0, c1, c2]) == KeptTexts([c0, c1]) + (if Kept(c2) then [CaptionText(c2)] else [])
  {
    assert [c0, c1, c2][..2] == [c0, c1];
  }

  /** The stripped text of a caption holding `" b "`. */
  lemma PaddedCaption(c: Caption)
    requires c.text == Some(" b ")
    ensures CaptionText(c) == "b"
  {
    var b := c.text.value;
    StripDropFirst(b);
    assert b[1..] == "b ";
    StripDropLast(b[1..]);
    assert b[1..][..1] == "b";
    StripUnchanged("b");
  }

  /** Captions `"a"`, `" b "` and `""` give the text form `"a\nb"`: blanks dropped, the rest stripped. */
  lemma TextExample(c0: Caption, c1: Caption, c2: Caption)
    requires c0.text == Some("a") && c1.text == Some(" b ") && c2.text == Some("")
    ensures TextOutput(Record(None, None, Some([c0, c1, c2]))) == "a\nb"
  {
    TextExampleLines(c0, c1, c2);
    var ts := KeptTexts([c0, c1, c2]);
    assert ts[1..] == ["b"];
    assert Join("\n", ts) == "a" + "\n" + "b";
    assert "a" + "\n" + "b" == "a\nb";
  }

  /** The lines collected from the captions of the text example. */
  lemma TextExampleLines(c0: Caption, c1: Caption, c2: Caption)
    requires c0.text == Some("a") && c1.text == Some(" b ") && c2.text == Some("")
    ensures KeptTexts([c0, c1, c2]) == ["a", "b"]
  {
    assert CaptionText(c0) == "a" && CaptionText(c1) == "b" && CaptionText(c2) == "" by {
      StripUnchanged(c0.text.value);
      PaddedCaption(c1);
      StripUnchanged(c2.text.value);
    }
    KeptOfThree(c0, c1, c2);
  }

  /** Three captions stripping to `"a"`, `"b"` and nothing give the lines `"a"` and `"b"`. */
  lemma KeptOfThree(c0: Caption, c1: Caption, c2: Caption)
    requires CaptionText(c0) == "a" && CaptionText(c1) == "b" && CaptionText(c2) == ""
    ensures KeptTexts([c0, c1, c2]) == ["a", "b"]
  {
    KeptOne(c0);
    assert KeptTexts([c0]) == ["a"];
    KeptTwo(c0, c1);
    assert KeptTexts([c0, c1]) == ["a", "b"];
    KeptThree(c0, c1, c2);
  }

  /**
    A caption `"hi"` at 1 lasting 2 followed by a blank one, for video
    `abc12345678` and an item without a title, give one entry and `full_text` `"hi"`.
   */
  lemma JsonExample(c0: Caption, c1: Caption, r: Record)
    requires c0 == Caption(Some("hi"), Some(Int(1)), Some(Int(2)))
    requires c1 == Caption(Some(""), Some(Int(3)), Some(Int(1)))
    requires r == Record(None, None, Some([c0, c1]))
    ensures JsonOutput(r, "abc12345678") == JsonTranscript("abc12345678", "Unknown", [Entry(Int(1), Int(2), "hi")], "hi")
  {
    StripUnchanged(c0.text.value);
    StripUnchanged(c1.text.value);
    KeptOne(c0);
    KeptTwo(c0, c1);
  }
}
