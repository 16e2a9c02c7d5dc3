/** The client's URL check,
    `^(https?:\/\/)?(www\.)?(youtube\.com\/(watch\?v=|embed\/)|youtu\.be\/)([a-zA-Z0-9_-]{11})(\S*)?$`,
    written as a recogniser over strings and proved equal to the declarative
    reading of the pattern. */
module YouTubeUrl {
  import opened JsText

  /** The alternatives of the three prefix groups, in pattern order. */
  const Schemes: seq<string> := ["", "http://", "https://"]
  const WwwPrefixes: seq<string> := ["", "www."]
  const Hosts: seq<string> := ["youtube.com/watch?v=", "youtube.com/embed/", "youtu.be/"]

  /** `[a-zA-Z0-9_-]`. */
  predicate IsIdChar(c: char) {
    ('a' <= c <= 'z') || ('A' <= c <= 'Z') || ('0' <= c <= '9') || c == '_' || c == '-'
  }

  /** `([a-zA-Z0-9_-]{11})(\S*)?$`: eleven identifier characters, then any
      run of non-white-space up to the end of the input. */
  predicate IsIdAndTail(rest: string) {
    && |rest| >= 11
    && (forall k :: 0 <= k < 11 ==> IsIdChar(rest[k]))
    && (forall k :: 11 <= k < |rest| ==> !IsSpace(rest[k]))
  }

  /** One way of choosing the optional scheme, the optional `www.` and the host. */
  function Prefix(a: nat, b: nat, c: nat): string
    requires a < 3 && b < 2 && c < 3
  {
    Schemes[a] + WwwPrefixes[b] + Hosts[c]
  }

  /** The pattern matches `url` when some choice of prefix groups is a prefix
      of `url` and the rest is an identifier followed by non-white-space. */
  ghost predicate MatchesPattern(url: string) {
    exists a: nat, b: nat, c: nat ::
      a < 3 && b < 2 && c < 3 && Prefix(a, b, c) <= url && IsIdAndTail(url[|Prefix(a, b, c)|..])
  }

  /** `(https?:\/\/)?`: a scheme is taken whenever one is present, since
      neither `www.` nor a host can start with `h`. */
  function DropScheme(s: string): string {
    if Schemes[2] <= s then s[|Schemes[2]|..]
    else if Schemes[1] <= s then s[|Schemes[1]|..]
    else s
  }

  /** `(www\.)?`: taken whenever present, since no host starts with `w`. */
  function DropWww(s: string): string {
    if WwwPrefixes[1] <= s then s[|WwwPrefixes[1]|..] else s
  }

  /** The host alternatives; they differ within their first twelve characters,
      so at most one of them is a prefix. */
  function HostEnd(s: string): (n: nat)
    ensures n <= |s|
  {
    if Hosts[0] <= s then |Hosts[0]|
    else if Hosts[1] <= s then |Hosts[1]|
    else if Hosts[2] <= s then |Hosts[2]|
    else 0
  }

  /** `YOUTUBE_URL_REGEX.test(url)`. */
  predicate IsYouTubeUrl(url: string) {
    var s := DropWww(DropScheme(url));
    var n := HostEnd(s);
    n > 0 && IsIdAndTail(s[n..])
  }

  lemma SchemeChoice(a: nat, rest: string)
    requires a < 3 && rest != [] && (rest[0] == 'w' || rest[0] == 'y')
    ensures DropScheme(Schemes[a] + rest) == rest
  {
    var s := Schemes[a] + rest;
    if a == 0 {
      assert s[0] == rest[0];
    } else if a == 1 {
      assert s[4] == ':';
      assert s[7..] == rest;
    } else {
      assert s[8..] == rest;
    }
  }

  lemma WwwChoice(b: nat, rest: string)
    requires b < 2 && rest != [] && rest[0] == 'y'
    ensures DropWww(WwwPrefixes[b] + rest) == rest
  {
    var s := WwwPrefixes[b] + rest;
    if b == 0 {
      assert s[0] == 'y';
    } else {
      assert s[4..] == rest;
    }
  }

  lemma HostChoice(c: nat, rest: string)
    requires c < 3
    ensures HostEnd(Hosts[c] + rest) == |Hosts[c]|
    ensures (Hosts[c] + rest)[|Hosts[c]|..] == rest
  {
    var s := Hosts[c] + rest;
    if c == 1 {
      assert s[12] == 'e';
    } else if c == 2 {
      assert s[5] == '.';
    }
  }

  lemma DropSchemeSplits(s: string) returns (a: nat)
    ensures a < 3 && s == Schemes[a] + DropScheme(s)
  {
    a := if Schemes[2] <= s then 2 else if Schemes[1] <= s then 1 else 0;
  }

  lemma DropWwwSplits(s: string) returns (b: nat)
    ensures b < 2 && s == WwwPrefixes[b] + DropWww(s)
  {
    b := if WwwPrefixes[1] <= s then 1 else 0;
  }

  lemma HostEndSplits(s: string) returns (c: nat)
    requires HostEnd(s) > 0
    ensures c < 3 && s == Hosts[c] + s[HostEnd(s)..]
  {
    c := if Hosts[0] <= s then 0 else if Hosts[1] <= s then 1 else 2;
  }

  /** Soundness of the recogniser: an accepted URL matches the pattern. */
  lemma RecognisedMatchesPattern(url: string)
    requires IsYouTubeUrl(url)
    ensures MatchesPattern(url)
  {
    var s1 := DropScheme(url);
    var s2 := DropWww(s1);
    var rest := s2[HostEnd(s2)..];
    var a := DropSchemeSplits(url);
    var b := DropWwwSplits(s1);
    var c := HostEndSplits(s2);
    PatternWitness(url, a, b, c, rest);
  }

  lemma PatternWitness(url: string, a: nat, b: nat, c: nat, rest: string)
    requires a < 3 && b < 2 && c < 3 && IsIdAndTail(rest)
    requires url == Schemes[a] + (WwwPrefixes[b] + (Hosts[c] + rest))
    ensures MatchesPattern(url)
  {
    var p := Prefix(a, b, c);
    ThreeParts(Schemes[a], WwwPrefixes[b], Hosts[c], rest);
    assert p <= url && IsIdAndTail(url[|p|..]);
  }

  /** A text made of three parts and a rest starts with the three parts, and
      the rest is what follows them. */
  lemma ThreeParts(x: string, y: string, z: string, rest: string)
    ensures x + y + z <= x + (y + (z + rest))
    ensures (x + (y + (z + rest)))[|x + y + z|..] == rest
  {
    assert x + (y + (z + rest)) == (x + y + z) + rest;
  }

  /** Completeness of the recogniser: every way the pattern can match leads
      the recogniser to the same rest of the URL. */
  lemma PatternRecognised(url: string, a: nat, b: nat, c: nat)
    requires a < 3 && b < 2 && c < 3 && Prefix(a, b, c) <= url
    requires IsIdAndTail(url[|Prefix(a, b, c)|..])
    ensures IsYouTubeUrl(url)
  {
    var rest := url[|Prefix(a, b, c)|..];
    var afterWww := Hosts[c] + rest;
    var afterScheme := WwwPrefixes[b] + afterWww;
    ThreeParts(Schemes[a], WwwPrefixes[b], Hosts[c], rest);
    assert url == Schemes[a] + afterScheme;
    assert afterScheme[0] == (if b == 0 then 'y' else 'w');
    SchemeChoice(a, afterScheme);
    WwwChoice(b, afterWww);
    HostChoice(c, rest);
  }

  /** The recogniser accepts exactly the URLs the pattern matches. */
  lemma IsYouTubeUrlIff(url: string)
    ensures IsYouTubeUrl(url) <==> MatchesPattern(url)
  {
    if MatchesPattern(url) {
      var a: nat, b: nat, c: nat :|
        a < 3 && b < 2 && c < 3 && Prefix(a, b, c) <= url && IsIdAndTail(url[|Prefix(a, b, c)|..]);
      PatternRecognised(url, a, b, c);
    }
    if IsYouTubeUrl(url) {
      RecognisedMatchesPattern(url);
    }
  }
}
