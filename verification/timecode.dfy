/** The timestamp objects shared by the client components. */
module Entries {
  import opened Optional

  /** One timestamp object as the client handles it: `{timestamp?, description?, text?}`.
      A field that is `None` is absent from the object. */
  datatype Entry = Entry(timestamp: Option<string>, description: Option<string>, text: Option<string>)

  /** JavaScript truthiness of an optional string field: present and non-empty. */
  predicate Truthy(f: Option<string>) {
    f.Some? && f.value != []
  }
}

/** The timecode-line pattern of the client's text fallback,
    `^(\d{1,2}:\d{2}(?::\d{2})?)\s*[-–—]\s*(.+)$`, written as a recogniser
    over strings and proved equal to the declarative reading of the pattern. */
module Timecode {
  import opened Optional
  import opened JsText
  import opened Entries

  predicate IsDigit(c: char) {
    '0' <= c <= '9'
  }

  /** `[-–—]`: hyphen-minus, en dash, em dash. */
  predicate IsDash(c: char) {
    c == '-' || c == '\U{2013}' || c == '\U{2014}'
  }

  /** `\d{1,2}:\d{2}`, matched in full. */
  predicate IsHoursMinutes(t: string) {
    || (|t| == 4 && IsDigit(t[0]) && t[1] == ':' && IsDigit(t[2]) && IsDigit(t[3]))
    || (|t| == 5 && IsDigit(t[0]) && IsDigit(t[1]) && t[2] == ':' && IsDigit(t[3]) && IsDigit(t[4]))
  }

  /** `\d{1,2}:\d{2}(?::\d{2})?`, matched in full: the first capture group. */
  predicate IsTimecode(t: string) {
    || IsHoursMinutes(t)
    || (|t| >= 7 && IsHoursMinutes(t[..|t| - 3])
        && t[|t| - 3] == ':' && IsDigit(t[|t| - 2]) && IsDigit(t[|t| - 1]))
  }

  /** The pattern matches `line` with the first group ending at `i`, the dash
      at `j` and the second group starting at `m`:
      line == group1 + spaces + dash + spaces + group2, where group2 is
      non-empty and, like every `.`, holds no line terminator. */
  ghost predicate MatchesAt(line: string, i: int, j: int, m: int) {
    && 0 < i <= j < m < |line|
    && IsTimecode(line[..i])
    && AllSpace(line[i..j])
    && IsDash(line[j])
    && AllSpace(line[j + 1..m])
    && NoLineTerminator(line[m..])
  }

  ghost predicate IsTimecodeLine(line: string) {
    exists i, j, m :: MatchesAt(line, i, j, m)
  }

  /** Where a successful match puts its parts: the end of the timecode, the
      dash, and the start of the second capture group. */
  datatype TimecodeMatch = TimecodeMatch(timeEnd: nat, dash: nat, bodyStart: nat)

  /** The end of the leading timecode, if the line starts with one. The regex
      engine's backtracking has only one way to succeed here: the digits
      before the first colon must be all the leading digits, and the
      optional seconds are taken whenever they are present, because what
      follows the timecode can start neither with a digit nor with a colon. */
  function TimecodeEnd(line: string): (r: Option<nat>)
    ensures r.Some? ==> r.value <= |line| && IsTimecode(line[..r.value])
  {
    var h := if |line| >= 2 && IsDigit(line[0]) && IsDigit(line[1]) then 2
             else if |line| >= 1 && IsDigit(line[0]) then 1
             else 0;
    if h == 0 || |line| < h + 3 || line[h] != ':' || !IsDigit(line[h + 1]) || !IsDigit(line[h + 2]) then
      None
    else
      var base := h + 3;
      assert IsHoursMinutes(line[..base]);
      if |line| >= base + 3 && line[base] == ':' && IsDigit(line[base + 1]) && IsDigit(line[base + 2]) then
        assert line[..base + 3][..base] == line[..base];
        Some(base + 3)
      else
        Some(base)
  }

  /** The first position at or after `p` that is not white space. */
  function SkipSpace(line: string, p: nat): (q: nat)
    requires p <= |line|
    ensures p <= q <= |line| && AllSpace(line[p..q])
    ensures q == |line| || !IsSpace(line[q])
    decreases |line| - p
  {
    if p < |line| && IsSpace(line[p]) then
      var q := SkipSpace(line, p + 1);
      assert line[p..q] == [line[p]] + line[p + 1..q];
      q
    else p
  }

  /** Where the second capture group starts after the dash at `j`: past the
      white space, except that when white space runs to the end of the line
      the engine gives one character back to `(.+)`. `None` when the group
      would be empty or would hold a line terminator. */
  function BodyStart(line: string, j: nat): (r: Option<nat>)
    requires j < |line|
    ensures r.Some? ==> j < r.value < |line| && AllSpace(line[j + 1..r.value]) && NoLineTerminator(line[r.value..])
  {
    var k := SkipSpace(line, j + 1);
    var m := if k < |line| then k else |line| - 1;
    if m > j && NoLineTerminator(line[m..]) then
      AllSpaceSubslice(line, j + 1, k, j + 1, m);
      Some(m)
    else None
  }

  /** `line.match(...)` for the timecode pattern: where the parts lie, or
      `None` when the line does not match. */
  function MatchTimecodeLine(line: string): (r: Option<TimecodeMatch>)
    ensures r.Some? ==> MatchesAt(line, r.value.timeEnd, r.value.dash, r.value.bodyStart)
  {
    match TimecodeEnd(line)
    case None => None
    case Some(i) =>
      var j := SkipSpace(line, i);
      if j < |line| && IsDash(line[j]) then
        match BodyStart(line, j)
        case None => None
        case Some(m) => Some(TimecodeMatch(i, j, m))
      else None
  }

  /** What follows a complete timecode is neither a digit nor a colon, so the
      recogniser finds exactly that timecode. */
  lemma TimecodeEndFindsBoundary(line: string, i: nat)
    requires 0 < i < |line| && IsTimecode(line[..i])
    requires !IsDigit(line[i]) && line[i] != ':'
    ensures TimecodeEnd(line) == Some(i)
  {
    var t := line[..i];
    if IsHoursMinutes(t) {
      assert forall k :: 0 <= k < i ==> line[k] == t[k];
    } else {
      var u := t[..|t| - 3];
      assert forall k :: 0 <= k < i - 3 ==> line[k] == u[k];
      assert forall k :: 0 <= k < i ==> line[k] == t[k];
    }
  }

  /** Completeness: whenever the pattern matches, the recogniser matches too,
      at the same timecode and dash, and its second group is the shortest
      one the pattern allows, as the regex engine's greedy `\s*` makes it. */
  lemma MatchTimecodeLineComplete(line: string, i: int, j: int, m: int)
    requires MatchesAt(line, i, j, m)
    ensures MatchTimecodeLine(line).Some?
    ensures MatchTimecodeLine(line).value.timeEnd == i
    ensures MatchTimecodeLine(line).value.dash == j
    ensures m <= MatchTimecodeLine(line).value.bodyStart
  {
    assert !IsDigit(line[i]) && line[i] != ':' by {
      if i < j {
        assert line[i] == line[i..j][0];
      }
    }
    TimecodeEndFindsBoundary(line, i);
    SkipSpaceStopsAt(line, i, j);
    BodyStartComplete(line, j, m);
  }

  /** The body found after the dash starts no earlier than any body the
      pattern allows. */
  lemma BodyStartComplete(line: string, j: nat, m: nat)
    requires j < m < |line| && AllSpace(line[j + 1..m]) && NoLineTerminator(line[m..])
    ensures BodyStart(line, j).Some? && m <= BodyStart(line, j).value
  {
    var k := SkipSpace(line, j + 1);
    SkipSpaceOverRun(line, j + 1, m);
    var mr := if k < |line| then k else |line| - 1;
    SliceKeepsNoLineTerminator(line[m..], mr - m, |line| - m);
    assert line[m..][mr - m..|line| - m] == line[mr..];
  }

  /** `SkipSpace` passes every white-space run. */
  lemma SkipSpaceOverRun(line: string, p: nat, q: nat)
    requires p <= q <= |line| && AllSpace(line[p..q])
    ensures q <= SkipSpace(line, p)
    decreases q - p
  {
    if p < q {
      assert line[p] == line[p..q][0];
      assert line[p + 1..q] == line[p..q][1..];
      SkipSpaceOverRun(line, p + 1, q);
    }
  }

  /** `SkipSpace` stops at the first character after a white-space run that
      is not white space. */
  lemma SkipSpaceStopsAt(line: string, p: nat, q: nat)
    requires p <= q < |line| && AllSpace(line[p..q]) && !IsSpace(line[q])
    ensures SkipSpace(line, p) == q
  {
    SkipSpaceOverRun(line, p, q);
  }

  /** The pattern's declarative reading and the recogniser agree. */
  lemma MatchTimecodeLineIff(line: string)
    ensures MatchTimecodeLine(line).Some? <==> IsTimecodeLine(line)
  {
    if IsTimecodeLine(line) {
      var i, j, m :| MatchesAt(line, i, j, m);
      MatchTimecodeLineComplete(line, i, j, m);
    }
  }

  /** The entry one line of `timestamps_string` becomes: a timed entry with the
      trimmed second group as description when the pattern matches, and
      otherwise the trimmed line as a description alone. */
  function ParseLine(line: string): (e: Entry)
    ensures e.text.None? && e.description.Some?
    ensures e.timestamp.Some? ==> IsTimecode(e.timestamp.value)
  {
    match MatchTimecodeLine(line)
    case Some(mt) => Entry(Some(line[..mt.timeEnd]), Some(Trim(line[mt.bodyStart..])), None)
    case None => Entry(None, Some(Trim(line)), None)
  }

  /** Whichever way the pattern is laid over a line, the parsed entry's
      timestamp is the first group and its description is the trimmed text
      after the dash. */
  lemma ParseLineAt(line: string, i: int, j: int, m: int)
    requires MatchesAt(line, i, j, m)
    ensures ParseLine(line).timestamp == Some(line[..i])
    ensures ParseLine(line).description == Some(Trim(line[j + 1..]))
  {
    MatchTimecodeLineComplete(line, i, j, m);
    var mr := MatchTimecodeLine(line).value.bodyStart;
    assert MatchesAt(line, i, j, mr);
    assert line[j + 1..] == line[j + 1..mr] + line[mr..];
    TrimSkipsSpace(line[j + 1..mr], line[mr..]);
  }

  /** The parsed entry against the pattern: a line gets a timestamp exactly
      when it is a timecode line; a line that is not one becomes its trimmed
      self as a description. */
  lemma ParseLineSpec(line: string)
    ensures ParseLine(line).timestamp.Some? <==> IsTimecodeLine(line)
    ensures !IsTimecodeLine(line) ==> ParseLine(line) == Entry(None, Some(Trim(line)), None)
  {
    MatchTimecodeLineIff(line);
  }

  /** A timecode, a spaced hyphen and a clean description parse back into
      exactly that timecode and description. */
  lemma ParseSpacedHyphenLine(t: string, d: string)
    requires IsTimecode(t) && d != [] && Trim(d) == d && NoLineTerminator(d)
    ensures ParseLine(t + " - " + d) == Entry(Some(t), Some(d), None)
  {
    var line := t + " - " + d;
    assert line[..|t|] == t && line[|t| + 2..] == " " + d && MatchesAt(line, |t|, |t| + 1, |t| + 3) by {
      SpacedHyphenMatches(t, d);
    }
    ParseLineFromParts(line, |t|, t, d);
  }

  lemma ParseLineFromParts(line: string, n: nat, t: string, d: string)
    requires MatchesAt(line, n, n + 1, n + 3)
    requires line[..n] == t && line[n + 2..] == " " + d && Trim(d) == d
    ensures ParseLine(line) == Entry(Some(t), Some(d), None)
  {
    ParseLineAt(line, n, n + 1, n + 3);
    TrimSkipsSpace(" ", d);
  }

  /** How the pattern lies over `t - d`: the timecode, the spaced hyphen, and
      the description as the second group. */
  lemma SpacedHyphenMatches(t: string, d: string)
    requires IsTimecode(t) && d != [] && NoLineTerminator(d)
    ensures var line := t + " - " + d;
            && line[..|t|] == t
            && line[|t| + 2..] == " " + d
            && MatchesAt(line, |t|, |t| + 1, |t| + 3)
  {
    var line := t + " - " + d;
    var n := |t|;
    assert line[..n] == t;
    assert line[n..n + 1] == " " && line[n + 2..n + 3] == " ";
    assert line[n + 1] == '-';
    assert line[n + 3..] == d;
    assert line[n + 2..] == " " + d;
  }

  /** A timecode starts and ends with a digit. */
  lemma TimecodeEdges(t: string)
    requires IsTimecode(t)
    ensures |t| >= 4 && IsDigit(t[0]) && IsDigit(t[|t| - 1])
  {
    if !IsHoursMinutes(t) {
      assert t[0] == t[..|t| - 3][0];
    }
  }

  /** A timecode is made of digits and colons only. */
  lemma TimecodeChars(t: string)
    requires IsTimecode(t)
    ensures forall k :: 0 <= k < |t| ==> IsDigit(t[k]) || t[k] == ':'
  {
    if !IsHoursMinutes(t) {
      var u := t[..|t| - 3];
      assert forall k :: 0 <= k < |u| ==> t[k] == u[k];
    }
  }
}
