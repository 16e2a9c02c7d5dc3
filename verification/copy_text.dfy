/** The copy button of the timestamp panel: each displayed entry becomes one
    line of clipboard text, and the text fallback of the normaliser reads
    such text back. */
module CopyText {
  import opened Optional
  import opened JsText
  import opened Entries
  import opened Timecode
  import opened Normalizer

  /** `JSON.stringify(ts)` for an entry that has only the `timestamp`,
      `description` and `text` keys, none of them truthy: every field it has
      is then the empty string, so the dump lists the present field names,
      each with `""`, in declaration order. */
  function JsonDump(e: Entry): (r: string)
    ensures |r| >= 2 && r[0] == '{' && r[|r| - 1] == '}'
  {
    var fields :=
      (if e.timestamp.Some? then ["\"timestamp\":\"\""] else []) +
      (if e.description.Some? then ["\"description\":\"\""] else []) +
      (if e.text.Some? then ["\"text\":\"\""] else []);
    "{" + Join(fields, ',') + "}"
  }

  /** One line of the copied text. The first applicable form wins:
      `t - d`, `t - text`, `t`, `d`, `text`, and the JSON dump of the entry
      when none of its fields is truthy. */
  function FormatEntry(e: Entry): (r: string)
    ensures r != []
    ensures Truthy(e.timestamp) ==> e.timestamp.value <= r
    ensures Truthy(e.timestamp) && Truthy(e.description) ==>
              r == e.timestamp.value + " - " + e.description.value
    ensures Truthy(e.timestamp) && !Truthy(e.description) && Truthy(e.text) ==>
              r == e.timestamp.value + " - " + e.text.value
    ensures Truthy(e.timestamp) && !Truthy(e.description) && !Truthy(e.text) ==> r == e.timestamp.value
    ensures !Truthy(e.timestamp) && Truthy(e.description) ==> r == e.description.value
    ensures !Truthy(e.timestamp) && !Truthy(e.description) && Truthy(e.text) ==> r == e.text.value
    ensures !Truthy(e.timestamp) && !Truthy(e.description) && !Truthy(e.text) ==> r == JsonDump(e)
  {
    if Truthy(e.timestamp) && Truthy(e.description) then e.timestamp.value + " - " + e.description.value
    else if Truthy(e.timestamp) && Truthy(e.text) then e.timestamp.value + " - " + e.text.value
    else if Truthy(e.timestamp) then e.timestamp.value
    else if Truthy(e.description) then e.description.value
    else if Truthy(e.text) then e.text.value
    else JsonDump(e)
  }

  /** `timestamps.map(format)`. */
  function FormatAll(es: seq<Entry>): (r: seq<string>)
    ensures |r| == |es|
    ensures forall k :: 0 <= k < |r| ==> r[k] == FormatEntry(es[k])
  {
    if |es| == 0 then [] else [FormatEntry(es[0])] + FormatAll(es[1..])
  }

  /** The text `handleCopyTimestamps` writes to the clipboard: the entries'
      lines joined by line breaks, or nothing at all for a missing or empty
      list. */
  function CopiedText(timestamps: Option<seq<Entry>>): (r: Option<string>)
    ensures r.None? <==> timestamps.None? || timestamps.value == []
  {
    if timestamps.None? || timestamps.value == [] then None
    else Some(Join(FormatAll(timestamps.value), '\n'))
  }

  /** Whether the panel renders at all: not for a missing or empty list. */
  predicate Renders(timestamps: Option<seq<Entry>>) {
    timestamps.Some? && timestamps.value != []
  }

  /** The panel renders exactly when there is something to copy. */
  lemma RendersIffCopies(timestamps: Option<seq<Entry>>)
    ensures Renders(timestamps) <==> CopiedText(timestamps).Some?
  {
  }

  /** The copied text has one line per entry, in entry order, whenever no
      formatted entry itself holds a line break. */
  lemma CopiedTextLines(es: seq<Entry>)
    requires es != []
    requires forall k :: 0 <= k < |es| ==> '\n' !in FormatEntry(es[k])
    ensures Split(CopiedText(Some(es)).value, '\n') == FormatAll(es)
  {
    SplitJoin(FormatAll(es), '\n');
  }

  /** A truthy description wins over `text`: the `text` field of such an
      entry never reaches the copied line. */
  lemma DescriptionHidesText(e: Entry, other: Option<string>)
    requires Truthy(e.description)
    ensures FormatEntry(e) == FormatEntry(e.(text := other))
  {
  }

  /** Only truthy fields matter: two entries with the same truthy fields,
      at least one of them, format to the same line, whatever falsy values
      the remaining fields hold. */
  lemma OnlyTruthyFieldsCount(e: Entry, e': Entry)
    requires Truthy(e.timestamp) || Truthy(e.description) || Truthy(e.text)
    requires Truthy(e.timestamp) == Truthy(e'.timestamp) && (Truthy(e.timestamp) ==> e.timestamp == e'.timestamp)
    requires Truthy(e.description) == Truthy(e'.description) && (Truthy(e.description) ==> e.description == e'.description)
    requires Truthy(e.text) == Truthy(e'.text) && (Truthy(e.text) ==> e.text == e'.text)
    ensures FormatEntry(e) == FormatEntry(e')
  {
  }

  /** The text a parsed timecode line keeps as its description holds no line
      terminator and is already trimmed. */
  lemma ParsedDescriptionClean(line: string)
    requires MatchTimecodeLine(line).Some?
    ensures var d := Trim(line[MatchTimecodeLine(line).value.bodyStart..]);
            Trim(d) == d && NoLineTerminator(d)
  {
    var body := line[MatchTimecodeLine(line).value.bodyStart..];
    var lo, hi := TrimIsSlice(body);
    SliceKeepsNoLineTerminator(body, lo, hi);
  }

  /** Round trip: an entry parsed from a timecode line with a non-empty
      description copies to `t - d`, which parses back to the same entry. */
  lemma TimedEntryRoundTrip(line: string)
    requires ParseLine(line).timestamp.Some? && ParseLine(line).description != Some("")
    ensures ParseLine(FormatEntry(ParseLine(line))) == ParseLine(line)
  {
    var mt := MatchTimecodeLine(line).value;
    var t, d := line[..mt.timeEnd], Trim(line[mt.bodyStart..]);
    ParsedDescriptionClean(line);
    assert FormatEntry(ParseLine(line)) == t + " - " + d;
    ParseSpacedHyphenLine(t, d);
  }

  /** The exception to the round trip: a timecode line whose description
      trims to nothing copies as the bare timecode, which parses back as a
      description without a timestamp. */
  lemma EmptyDescriptionLosesTimestamp(line: string)
    requires ParseLine(line).timestamp.Some? && ParseLine(line).description == Some("")
    ensures var t := ParseLine(line).timestamp.value;
            FormatEntry(ParseLine(line)) == t &&
            ParseLine(t) == Entry(None, Some(t), None)
  {
    var e := ParseLine(line);
    var t := e.timestamp.value;
    TimecodeEdges(t);
    assert FormatEntry(e) == t;
    BareTimecodeIsDescription(t);
  }

  /** A bare timecode has no dash, so it is not a timecode line, and it has
      no white space to trim. */
  lemma BareTimecodeIsDescription(t: string)
    requires IsTimecode(t)
    ensures ParseLine(t) == Entry(None, Some(t), None)
  {
    BareTimecodeNoDash(t);
    BareTimecodeTrimmed(t);
    ParseLineSpec(t);
  }

  lemma BareTimecodeNoDash(t: string)
    requires IsTimecode(t)
    ensures !IsTimecodeLine(t)
  {
    TimecodeChars(t);
  }

  lemma BareTimecodeTrimmed(t: string)
    requires IsTimecode(t)
    ensures Trim(t) == t
  {
    TimecodeEdges(t);
    var c0, c1 := t[0], t[|t| - 1];
    assert !IsSpace(c0) && !IsSpace(c1);
    assert TrimStart(t) == t;
    assert TrimEnd(t) == t;
  }

  /** An entry the text fallback produces from a clean `t - d` line. */
  predicate IsCleanTimedEntry(e: Entry) {
    && e.timestamp.Some? && IsTimecode(e.timestamp.value)
    && e.description.Some? && e.description.value != []
    && Trim(e.description.value) == e.description.value
    && NoLineTerminator(e.description.value)
    && e.text.None?
  }

  /** Round trip over a whole list: copying clean timed entries and feeding
      the copied text to the normaliser's text fallback gives back the same
      list. */
  lemma {:induction false} CopyThenParseRoundTrip(es: seq<Entry>)
    requires es != []
    requires forall k :: 0 <= k < |es| ==> IsCleanTimedEntry(es[k])
    ensures Normalize(Payload(None, CopiedText(Some(es)))) == es
  {
    var text := Join(FormatAll(es), '\n');
    assert CopiedText(Some(es)) == Some(text);
    assert text != [] by {
      JoinStartsWithHead(FormatAll(es), '\n');
    }
    CopyThenParseLines(es);
  }

  lemma {:induction false} CopyThenParseLines(es: seq<Entry>)
    requires es != []
    requires forall k :: 0 <= k < |es| ==> IsCleanTimedEntry(es[k])
    ensures ParseTimestampsString(Join(FormatAll(es), '\n')) == es
  {
    if |es| == 1 {
      SingleEntryCopy(es);
    } else {
      var e, tail := es[0], es[1..];
      assert es == [e] + tail;
      CleanEntryLine(e);
      CleanTail(es);
      CopyThenParseLines(tail);
      JoinFormatAllCons(es);
      ParseLineThenRest(FormatEntry(e), Join(FormatAll(tail), '\n'), e, tail);
    }
  }

  lemma CleanTail(es: seq<Entry>)
    requires es != []
    requires forall k :: 0 <= k < |es| ==> IsCleanTimedEntry(es[k])
    ensures forall k :: 0 <= k < |es| - 1 ==> IsCleanTimedEntry(es[1..][k])
  {
    forall k | 0 <= k < |es| - 1
      ensures IsCleanTimedEntry(es[1..][k])
    {
      assert es[1..][k] == es[k + 1];
    }
  }

  lemma SingleEntryCopy(es: seq<Entry>)
    requires |es| == 1 && IsCleanTimedEntry(es[0])
    ensures ParseTimestampsString(Join(FormatAll(es), '\n')) == es
  {
    var e := es[0];
    assert es == [e];
    CleanEntryLine(e);
  }

  /** A clean timed entry copies to a single line that parses back to it. */
  lemma CleanEntryLine(e: Entry)
    requires IsCleanTimedEntry(e)
    ensures '\n' !in FormatEntry(e)
    ensures ParseTimestampsString(FormatEntry(e)) == [e]
    ensures Join(FormatAll([e]), '\n') == FormatEntry(e)
  {
    var t, d := e.timestamp.value, e.description.value;
    assert FormatEntry(e) == t + " - " + d;
    ParseSpacedHyphenText(t, d);
    SpacedHyphenLineShape(t, d);
  }

  lemma ParseLineThenRest(line: string, rest: string, e: Entry, tail: seq<Entry>)
    requires '\n' !in line
    requires ParseTimestampsString(line) == [e] && ParseTimestampsString(rest) == tail
    ensures ParseTimestampsString(line + "\n" + rest) == [e] + tail
  {
    ParseTimestampsStringAppend(line, rest);
  }

  /** The copied text of several entries is the first line, a line break and
      the copied text of the rest. */
  lemma JoinFormatAllCons(es: seq<Entry>)
    requires |es| > 1
    ensures Join(FormatAll(es), '\n') == FormatEntry(es[0]) + "\n" + Join(FormatAll(es[1..]), '\n')
  {
    var lines := FormatAll(es);
    assert lines[1..] == FormatAll(es[1..]);
  }
}
