/** The deterministic parts of the request sent to the evaluator: the rubric
    lines embedded in its instructions, the content parts, and the verdict
    enumeration of the response schema. The call itself is not modelled. */
module Prompt {
  import opened Types
  import opened Catalog
  import opened Text

  /** One rubric line of the instructions: `- [id] name: description (Valor: weight pts)`. */
  function ScorecardLine(c: Criterion): string
  {
    "- [" + c.id + "] " + c.name + ": " + c.description + " (Valor: " + IntToString(c.weight) + " pts)"
  }

  function ScorecardLines(cat: seq<Criterion>): (lines: seq<string>)
    ensures |lines| == |cat|
    ensures forall i :: 0 <= i < |cat| ==> lines[i] == ScorecardLine(cat[i])
  {
    seq(|cat|, i requires 0 <= i < |cat| => ScorecardLine(cat[i]))
  }

  /** The rubric block of the instructions: one line per entry, joined by newlines. */
  function ScorecardText(cat: seq<Criterion>): string
  {
    Join(ScorecardLines(cat), "\n")
  }

  /** No text field of the entry contains a line break. */
  predicate SingleLine(c: Criterion)
  {
    '\n' !in c.id && '\n' !in c.name && '\n' !in c.description
  }

  lemma IntToStringSingleLine(i: int)
    ensures '\n' !in IntToString(i)
  {
    var s := IntToString(i);
    assert forall k :: 0 <= k < |s| ==> s[k] == '-' || '0' <= s[k] <= '9' by {
      if i < 0 {
        assert forall k :: 1 <= k < |s| ==> s[k] == s[1..][k - 1];
      }
    }
  }

  lemma ScorecardLineSingleLine(c: Criterion)
    requires SingleLine(c)
    ensures '\n' !in ScorecardLine(c)
  {
    IntToStringSingleLine(c.weight);
  }

  /** The rubric block has exactly one line per entry, in rubric order: splitting
      it at line breaks gives back the lines, so there is no trailing newline. */
  lemma ScorecardTextLines(cat: seq<Criterion>)
    requires |cat| > 0
    requires forall c :: c in cat ==> SingleLine(c)
    ensures Split(ScorecardText(cat), '\n') == ScorecardLines(cat)
    ensures |Split(ScorecardText(cat), '\n')| == |cat|
  {
    var lines := ScorecardLines(cat);
    forall k | 0 <= k < |lines|
      ensures '\n' !in lines[k]
    {
      assert cat[k] in cat;
      ScorecardLineSingleLine(cat[k]);
    }
    SplitJoin(lines, '\n');
  }


  // ---------------------------------------------------------------------
  // Content parts

  /** Base64 audio and its MIME type, as read from the attached file. */
  datatype AudioData = AudioData(data: string, mimeType: string)

  datatype Part = InlineData(data: string, mimeType: string) | TextPart(text: string)

  const TranscriptPrefix: string := "Transcrição: "

  /** The content parts: the audio first when there is audio, then the
      transcript, unaltered, when it is not blank. */
  function Parts(transcript: string, audio: Option<AudioData>): (parts: seq<Part>)
    ensures |parts| == (if audio.Some? then 1 else 0) + (if IsBlank(transcript) then 0 else 1)
    ensures audio.Some? <==> (|parts| > 0 && parts[0].InlineData?)
    ensures audio.Some? ==> parts[0] == InlineData(audio.value.data, audio.value.mimeType)
    ensures TextPart(TranscriptPrefix + transcript) in parts <==> !IsBlank(transcript)
    ensures forall k :: 0 <= k < |parts| && parts[k].TextPart? ==> k == |parts| - 1 && parts[k].text == TranscriptPrefix + transcript
  {
    var audioPart := if audio.Some? then [InlineData(audio.value.data, audio.value.mimeType)] else [];
    var textPart := if Trim(transcript) != "" then [TextPart(TranscriptPrefix + transcript)] else [];
    audioPart + textPart
  }

  // ---------------------------------------------------------------------
  // Response schema

  /** The verdict enumeration the response schema allows, for the overall
      status and for each item. */
  const SchemaStatusEnum: seq<string> := ["CONFORME", "NÃO CONFORME", "FALHA GRAVE (NCG)"]

  /** The schema's enumeration is exactly the three verdicts, in declaration
      order, so every schema-valid label reads back as a verdict. */
  lemma SchemaEnumMatchesStatus()
    ensures SchemaStatusEnum == [StatusLabel(Conforme), StatusLabel(NaoConforme), StatusLabel(FalhaGrave)]
    ensures forall l :: l in SchemaStatusEnum ==> ParseStatus(l).Some?
    ensures forall s: Status :: StatusLabel(s) in SchemaStatusEnum
  {
  }
}
