/** The client's response normaliser: how a generation payload becomes the
    list of timestamp objects it displays. */
module Normalizer {
  import opened Optional
  import opened JsText
  import opened Entries
  import opened Timecode

  /** The two fields of the generation payload the client reads.
      `timestampsList` is `None` when `timestamps_list` is absent or not an
      array; `timestampsString` is `None` when `timestamps_string` is absent. */
  datatype Payload = Payload(timestampsList: Option<seq<Entry>>, timestampsString: Option<string>)

  /** `lines.filter(line => line.trim())`. */
  function KeepNonBlank(lines: seq<string>): (r: seq<string>)
    ensures |r| <= |lines|
    ensures forall k :: 0 <= k < |r| ==> !IsBlank(r[k]) && r[k] in lines
    ensures forall k :: 0 <= k < |lines| && !IsBlank(lines[k]) ==> lines[k] in r
  {
    if |lines| == 0 then []
    else
      var rest := KeepNonBlank(lines[1..]);
      if IsBlank(lines[0]) then rest else [lines[0]] + rest
  }

  /** `filter` keeps order and repetitions: filtering a concatenation is
      filtering each part. */
  lemma {:induction false} KeepNonBlankAppend(a: seq<string>, b: seq<string>)
    ensures KeepNonBlank(a + b) == KeepNonBlank(a) + KeepNonBlank(b)
    decreases |a|
  {
    if a == [] {
      assert a + b == b;
    } else {
      assert (a + b)[1..] == a[1..] + b;
      KeepNonBlankAppend(a[1..], b);
    }
  }

  /** A single line is kept exactly when it is not blank. */
  lemma KeepNonBlankOne(line: string)
    ensures KeepNonBlank([line]) == if IsBlank(line) then [] else [line]
  {
  }

  /** `lines.map(parseLine)`. */
  function ParseLines(lines: seq<string>): (r: seq<Entry>)
    ensures |r| == |lines|
    ensures forall k :: 0 <= k < |lines| ==> r[k] == ParseLine(lines[k])
  {
    if |lines| == 0 then [] else [ParseLine(lines[0])] + ParseLines(lines[1..])
  }

  /** The text fallback before its empty-result guard: one entry per
      non-blank line of `timestamps_string`, in line order. */
  function ParseTimestampsString(s: string): seq<Entry> {
    ParseLines(KeepNonBlank(Split(s, '\n')))
  }

  /** The list the client displays for a successful payload. A non-empty
      `timestamps_list` is used as it is; otherwise a non-empty
      `timestamps_string` is parsed line by line, and when it has no
      non-blank line the whole string becomes one description; otherwise
      the list is empty. */
  function Normalize(p: Payload): (r: seq<Entry>)
    ensures p.timestampsList.Some? && |p.timestampsList.value| > 0 ==> r == p.timestampsList.value
    ensures r == [] <==>
              (p.timestampsList.None? || p.timestampsList.value == []) && !Truthy(p.timestampsString)
  {
    if p.timestampsList.Some? && |p.timestampsList.value| > 0 then p.timestampsList.value
    else if Truthy(p.timestampsString) then
      var parsed := ParseTimestampsString(p.timestampsString.value);
      if |parsed| > 0 then parsed else [Entry(None, p.timestampsString, None)]
    else []
  }

  /** Lines are independent: the text before a line break and the text after
      it parse separately, and their entries appear in the same order. */
  lemma ParseTimestampsStringAppend(a: string, b: string)
    requires '\n' !in a
    ensures ParseTimestampsString(a + "\n" + b) == ParseTimestampsString(a) + ParseTimestampsString(b)
  {
    SplitAppend(a, b, '\n');
    var rest := Split(b, '\n');
    assert Split(a, '\n') == [a];
    assert ([a] + rest)[1..] == rest;
    ParseLinesAppend(KeepNonBlank([a]), KeepNonBlank(rest));
  }

  lemma {:induction false} ParseLinesAppend(x: seq<string>, y: seq<string>)
    ensures ParseLines(x + y) == ParseLines(x) + ParseLines(y)
  {
    if x == [] {
      assert x + y == y;
    } else {
      assert (x + y)[1..] == x[1..] + y;
      ParseLinesAppend(x[1..], y);
    }
  }

  /** A single line yields nothing when blank and its parsed entry otherwise. */
  lemma ParseTimestampsStringLine(s: string)
    requires '\n' !in s
    ensures ParseTimestampsString(s) == if IsBlank(s) then [] else [ParseLine(s)]
  {
    assert Split(s, '\n') == [s];
  }

  /** The text fallback yields nothing exactly when the string is all white
      space (a line break is white space too); this is when the client falls
      back to the whole string as one description. */
  lemma ParseTimestampsStringEmptyIff(s: string)
    ensures ParseTimestampsString(s) == [] <==> AllSpace(s)
  {
    var lines := Split(s, '\n');
    KeepNonBlankEmptyIff(lines);
    AllSpaceJoin(lines);
  }

  lemma {:induction false} KeepNonBlankEmptyIff(lines: seq<string>)
    ensures KeepNonBlank(lines) == [] <==> forall k :: 0 <= k < |lines| ==> AllSpace(lines[k])
  {
    if |lines| > 0 {
      BlankIffAllSpace(lines[0]);
      KeepNonBlankEmptyIff(lines[1..]);
      assert forall k :: 1 <= k < |lines| ==> lines[k] == lines[1..][k - 1];
    }
  }

  lemma {:induction false} AllSpaceJoin(parts: seq<string>)
    ensures AllSpace(Join(parts, '\n')) <==> forall k :: 0 <= k < |parts| ==> AllSpace(parts[k])
  {
    if |parts| > 1 {
      AllSpaceJoin(parts[1..]);
      AllSpaceConcat(parts[0], "\n" + Join(parts[1..], '\n'));
      AllSpaceConcat("\n", Join(parts[1..], '\n'));
      assert parts[0] + "\n" + Join(parts[1..], '\n') == parts[0] + ("\n" + Join(parts[1..], '\n'));
      assert forall k :: 1 <= k < |parts| ==> parts[k] == parts[1..][k - 1];
    }
  }

  lemma AllSpaceConcat(x: string, y: string)
    ensures AllSpace(x + y) <==> AllSpace(x) && AllSpace(y)
  {
    if AllSpace(x + y) {
      assert forall k :: 0 <= k < |x| ==> x[k] == (x + y)[k];
      assert forall k :: 0 <= k < |y| ==> y[k] == (x + y)[k + |x|];
    }
  }

  /** The text fallback in full: when the list is unusable and the string is
      non-empty, the client shows the parsed lines, or the whole string as a
      single description when every line is blank. */
  lemma NormalizeTextFallback(p: Payload)
    requires p.timestampsList.None? || p.timestampsList.value == []
    requires Truthy(p.timestampsString)
    ensures AllSpace(p.timestampsString.value) ==> Normalize(p) == [Entry(None, p.timestampsString, None)]
    ensures !AllSpace(p.timestampsString.value) ==> Normalize(p) == ParseTimestampsString(p.timestampsString.value)
  {
    ParseTimestampsStringEmptyIff(p.timestampsString.value);
  }

  /** A line `t - d` made of a timecode and a clean description is one line
      of the text fallback and parses to exactly that entry. */
  lemma ParseSpacedHyphenText(t: string, d: string)
    requires IsTimecode(t) && d != [] && Trim(d) == d && NoLineTerminator(d)
    ensures ParseTimestampsString(t + " - " + d) == [Entry(Some(t), Some(d), None)]
  {
    ParseSpacedHyphenLine(t, d);
    SpacedHyphenLineShape(t, d);
    ParseTimestampsStringLine(t + " - " + d);
  }

  /** A line `t - d` built from a timecode and a description without line
      terminators is a single, non-blank line. */
  lemma SpacedHyphenLineShape(t: string, d: string)
    requires IsTimecode(t) && NoLineTerminator(d)
    ensures '\n' !in t + " - " + d
    ensures !IsBlank(t + " - " + d)
  {
    TimecodeChars(t);
    assert '\n' !in t;
    assert '\n' !in d by {
      forall k | 0 <= k < |d|
        ensures d[k] != '\n'
      {
        assert !IsLineTerminator(d[k]);
      }
    }
    assert '\n' !in " - ";
    var line := t + " - " + d;
    BlankIffAllSpace(line);
    assert line[|t| + 1] == '-';
  }
}
