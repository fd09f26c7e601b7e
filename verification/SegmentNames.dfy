/**
 Segment file names of econith-vps-collector/storage.py: `<channel>_<hour>__<seq>.parquet`, the regular
 expression that reads the number back, and the glob by which a restarted writer finds its segments.
 */
module SegmentNames {
  import opened Basics

  // ---------------------------------------------------------------- decimal numbers

  predicate IsDigit(c: char) {
    '0' <= c <= '9'
  }

  predicate AllDigits(s: string) {
    forall i :: 0 <= i < |s| ==> IsDigit(s[i])
  }

  function DigitValue(c: char): (d: nat)
    requires IsDigit(c)
    ensures d <= 9
  {
    c as int - '0' as int
  }

  function DigitChar(d: nat): (c: char)
    requires d <= 9
    ensures IsDigit(c) && DigitValue(c) == d
  {
    '0' + d as char
  }

  function Value(s: string): nat
    requires AllDigits(s)
  {
    if s == "" then 0 else 10 * Value(s[..|s| - 1]) + DigitValue(s[|s| - 1])
  }

  function Decimal(n: nat): (s: string)
    ensures s != "" && AllDigits(s)
  {
    if n <= 9 then [DigitChar(n)] else Decimal(n / 10) + [DigitChar(n % 10)]
  }

  /** Python's :05d for a natural number: at least five digits, more when needed. */
  function Padded(s: string): (p: string)
    requires AllDigits(s)
    ensures AllDigits(p) && |p| >= |s| && |p| >= 5
    decreases if |s| < 5 then 5 - |s| else 0
  {
    if |s| >= 5 then s else Padded("0" + s)
  }

  lemma {:induction false} DecimalReadsBack(n: nat)
    ensures Value(Decimal(n)) == n
  {
    if n <= 9 {
      assert Decimal(n)[..0] == "";
      assert Value("") == 0;
    } else {
      DecimalReadsBack(n / 10);
      assert Decimal(n)[..|Decimal(n)| - 1] == Decimal(n / 10);
    }
  }

  lemma {:induction false} LeadingZero(s: string)
    requires AllDigits(s)
    ensures AllDigits("0" + s) && Value("0" + s) == Value(s)
  {
    if s == "" {
      assert ("0" + s)[..0] == "";
    } else {
      LeadingZero(s[..|s| - 1]);
      assert ("0" + s)[..|s|] == "0" + s[..|s| - 1];
    }
  }

  lemma {:induction false} PaddingKeepsValue(s: string)
    requires AllDigits(s)
    ensures Value(Padded(s)) == Value(s)
    decreases if |s| < 5 then 5 - |s| else 0
  {
    if |s| < 5 {
      LeadingZero(s);
      PaddingKeepsValue("0" + s);
    }
  }

  // ---------------------------------------------------------------- names

  const SUFFIX := ".parquet"

  predicate ValidHour(hour: string) {
    |hour| == 2 && AllDigits(hour)
  }

  function Stem(channel: string, hour: string): string {
    channel + "_" + hour
  }

  function SegmentName(stem: string, n: nat): string {
    stem + "__" + Padded(Decimal(n)) + SUFFIX
  }

  /** The regular expression `__(\d+)\.parquet$` matches at i. */
  predicate MatchesAt(name: string, i: nat)
    requires i <= |name|
  {
    && |name| - i > 2 + |SUFFIX|
    && name[i] == '_' && name[i + 1] == '_'
    && name[|name| - |SUFFIX|..] == SUFFIX
    && AllDigits(name[i + 2..|name| - |SUFFIX|])
  }

  /** re.search: the leftmost match from i on, or the length of the name. */
  function Search(name: string, i: nat): (k: nat)
    requires i <= |name|
    ensures i <= k <= |name|
    ensures k < |name| ==> MatchesAt(name, k)
    decreases |name| - i
  {
    if i == |name| then i else if MatchesAt(name, i) then i else Search(name, i + 1)
  }

  function SeqOf(name: string): Option<nat> {
    var k := Search(name, 0);
    if k == |name| then None else Some(Value(name[k + 2..|name| - |SUFFIX|]))
  }

  datatype Parsed = Parsed(channel: string, hour: string, n: nat)

  function Parse(name: string): Option<Parsed> {
    var k := Search(name, 0);
    if k == |name| || k < 3 || name[k - 3] != '_' || !ValidHour(name[k - 2..k]) then None
    else Some(Parsed(name[..k - 3], name[k - 2..k], Value(name[k + 2..|name| - |SUFFIX|])))
  }

  lemma {:induction false} SearchFindsOnly(name: string, i: nat, k: nat)
    requires i <= k < |name| && MatchesAt(name, k)
    requires forall j :: i <= j < k ==> !MatchesAt(name, j)
    ensures Search(name, i) == k
    decreases k - i
  {
    if i < k {
      SearchFindsOnly(name, i + 1, k);
    }
  }

  /** In a printed name the expression matches at the end of the stem and nowhere before. */
  lemma PrintedNameSplits(stem: string, n: nat)
    requires stem != "" && IsDigit(stem[|stem| - 1])
    ensures var name, k := SegmentName(stem, n), |stem|;
      && Search(name, 0) == k < |name|
      && name[..k] == stem
      && name[k + 2..|name| - |SUFFIX|] == Padded(Decimal(n))
  {
    var name, k, digits := SegmentName(stem, n), |stem|, Padded(Decimal(n));
    assert |name| == k + 2 + |digits| + |SUFFIX|;
    assert name[k + 2..|name| - |SUFFIX|] == digits;
    assert name[|name| - |SUFFIX|..] == SUFFIX;
    assert MatchesAt(name, k);
    forall j | 0 <= j < k ensures !MatchesAt(name, j) {
      if j + 1 == k {
        assert name[j] == stem[k - 1];
      } else {
        var middle := name[j + 2..|name| - |SUFFIX|];
        assert middle[k - j - 2] == name[k] == '_';
      }
    }
    SearchFindsOnly(name, 0, k);
  }

  lemma NumberReadsBack(stem: string, n: nat)
    requires stem != "" && IsDigit(stem[|stem| - 1])
    ensures SeqOf(SegmentName(stem, n)) == Some(n)
  {
    PrintedNameSplits(stem, n);
    PaddingKeepsValue(Decimal(n));
    DecimalReadsBack(n);
  }

  /** Channel, hour and number are recoverable from a printed name, whatever the channel contains. */
  lemma NameReadsBack(channel: string, hour: string, n: nat)
    requires ValidHour(hour)
    ensures Parse(SegmentName(Stem(channel, hour), n)) == Some(Parsed(channel, hour, n))
  {
    var stem := Stem(channel, hour);
    var name := SegmentName(stem, n);
    assert stem[|stem| - 1] == hour[1];
    PrintedNameSplits(stem, n);
    PaddingKeepsValue(Decimal(n));
    DecimalReadsBack(n);
    assert name[..|stem|][..|channel|] == channel;
    assert name[|stem| - 2..|stem|] == hour;
    assert name[..|stem| - 3] == channel;
  }

  // ---------------------------------------------------------------- the glob

  /** Index of the bracket that closes the class opened at p[0], or the length of p. */
  function ClassEnd(p: string, from: nat): (k: nat)
    requires from <= |p|
    ensures from <= k <= |p|
    decreases |p| - from
  {
    if from == |p| || p[from] == ']' then from else ClassEnd(p, from + 1)
  }

  /** A closing bracket directly after the opening one, or after its '!', is a member. */
  function ClassClose(p: string): (k: nat)
    requires p != ""
    ensures 1 <= k <= |p|
  {
    var first := if |p| > 1 && p[1] == '!' then 2 else 1;
    if first < |p| && p[first] == ']' then ClassEnd(p, first + 1) else ClassEnd(p, first)
  }

  predicate Member(items: string, c: char) {
    if items == "" then false
    else if |items| >= 3 && items[1] == '-' then items[0] <= c <= items[2] || Member(items[3..], c)
    else items[0] == c || Member(items[1..], c)
  }

  predicate InClass(body: string, c: char) {
    if body != "" && body[0] == '!' then !Member(body[1..], c) else Member(body, c)
  }

  /** Shell pattern matching of one path component. */
  predicate GlobMatch(p: string, s: string)
    decreases |p| + |s|
  {
    if p == "" then s == ""
    else if p[0] == '*' then GlobMatch(p[1..], s) || (s != "" && GlobMatch(p, s[1..]))
    else if s == "" then false
    else if p[0] == '?' then GlobMatch(p[1..], s[1..])
    else if p[0] == '[' && ClassClose(p) < |p| then
      InClass(p[1..ClassClose(p)], s[0]) && GlobMatch(p[ClassClose(p) + 1..], s[1..])
    else p[0] == s[0] && GlobMatch(p[1..], s[1..])
  }

  predicate BracketFree(s: string) {
    forall i :: 0 <= i < |s| ==> s[i] != '['
  }

  lemma {:induction false} LiteralPrefixMatches(q: string, p: string, s: string)
    requires BracketFree(q) && GlobMatch(p, s)
    ensures GlobMatch(q + p, q + s)
  {
    if q == "" {
      assert q + p == p && q + s == s;
    } else {
      LiteralPrefixMatches(q[1..], p, s);
      assert (q + p)[1..] == q[1..] + p && (q + s)[1..] == q[1..] + s;
    }
  }

  lemma {:induction false} StarAbsorbs(d: string, p: string, s: string)
    requires GlobMatch(p, s)
    ensures GlobMatch("*" + p, d + s)
  {
    assert ("*" + p)[1..] == p;
    if d == "" {
      assert d + s == s;
    } else {
      StarAbsorbs(d[1..], p, s);
      assert (d + s)[1..] == d[1..] + s;
    }
  }

  function Pattern(stem: string): string {
    stem + "__*" + SUFFIX
  }

  const TAIL := "__*" + SUFFIX

  /** The check on a stem: read as a pattern, it matches the name of its own first segment. */
  predicate FindsOwn(stem: string) {
    GlobMatch(Pattern(stem), SegmentName(stem, 0))
  }

  /** What follows the stem in a name: two underscores, digits and the suffix. */
  predicate IsEnd(e: string) {
    |e| > 2 + |SUFFIX| && e[..2] == "__" && e[|e| - |SUFFIX|..] == SUFFIX && AllDigits(e[2..|e| - |SUFFIX|])
  }

  predicate HasDouble(x: string) {
    exists k :: 0 <= k < |x| - 1 && x[k] == '_' && x[k + 1] == '_'
  }

  lemma DoubleLater(x: string, k: nat)
    requires k <= |x| && HasDouble(x[k..])
    ensures HasDouble(x)
  {
    var j :| 0 <= j < |x[k..]| - 1 && x[k..][j] == '_' && x[k..][j + 1] == '_';
    assert x[k + j] == '_' && x[k + j + 1] == '_';
  }

  /** Past its first character the end of a name has no double underscore left. */
  lemma EndHasOneDouble(e: string)
    requires IsEnd(e)
    ensures !HasDouble(e[1..])
  {
    forall k | 2 <= k < |e| ensures e[k] != '_' {
      if k < |e| - |SUFFIX| {
        assert e[2..|e| - |SUFFIX|][k - 2] == e[k];
      } else {
        assert SUFFIX[k - (|e| - |SUFFIX|)] == e[k];
      }
    }
  }

  lemma CloseIsBracket(p: string)
    requires p != "" && ClassClose(p) < |p|
    ensures p[ClassClose(p)] == ']'
  {
    var first := if |p| > 1 && p[1] == '!' then 2 else 1;
    ClassEndIsBracket(p, if first < |p| && p[first] == ']' then first + 1 else first);
  }

  lemma {:induction false} ClassEndIsBracket(p: string, from: nat)
    requires from <= |p| && ClassEnd(p, from) < |p|
    ensures p[ClassEnd(p, from)] == ']'
    decreases |p| - from
  {
    if p[from] != ']' {
      ClassEndIsBracket(p, from + 1);
    }
  }

  /** A bracket that opens in q closes in q, if at all: the tail holds no closing one. */
  lemma ClosesInStem(q: string)
    requires q != "" && ClassClose(q + TAIL) < |q + TAIL|
    ensures ClassClose(q + TAIL) < |q|
  {
    CloseIsBracket(q + TAIL);
    assert forall i :: 0 <= i < |TAIL| ==> TAIL[i] != ']';
  }

  /** What is left of pattern q + TAIL and of the name after one non-star token has matched. */
  function AfterToken(q: string): (rest: string)
    requires q != "" && q[0] != '*'
    ensures |rest| < |q|
  {
    if q[0] == '[' && ClassClose(q + TAIL) < |q + TAIL| then
      ClosesInStem(q);
      q[ClassClose(q + TAIL) + 1..]
    else q[1..]
  }

  predicate TokenAccepts(q: string, c: char)
    requires q != "" && q[0] != '*'
  {
    if q[0] == '?' then true
    else if q[0] == '[' && ClassClose(q + TAIL) < |q + TAIL| then InClass((q + TAIL)[1..ClassClose(q + TAIL)], c)
    else q[0] == c
  }

  lemma OneToken(q: string, x: string)
    requires q != "" && q[0] != '*'
    ensures GlobMatch(q + TAIL, x) <==> x != "" && TokenAccepts(q, x[0]) && GlobMatch(AfterToken(q) + TAIL, x[1..])
  {
    var p := q + TAIL;
    assert p[0] == q[0];
    if q[0] == '[' && ClassClose(p) < |p| {
      ClosesInStem(q);
      assert p[ClassClose(p) + 1..] == AfterToken(q) + TAIL;
    } else {
      assert p[1..] == AfterToken(q) + TAIL;
    }
  }

  lemma OneStar(q: string, x: string)
    requires q != "" && q[0] == '*'
    ensures GlobMatch(q + TAIL, x) <==> GlobMatch(q[1..] + TAIL, x) || (x != "" && GlobMatch(q + TAIL, x[1..]))
  {
    assert (q + TAIL)[1..] == q[1..] + TAIL;
  }

  lemma BareTail(x: string)
    requires GlobMatch(TAIL, x)
    ensures |x| >= 2 && x[0] == '_' && x[1] == '_'
  {
    assert TAIL[0] == '_' && TAIL[1..][0] == '_';
  }

  lemma {:induction false} MatchNeedsDouble(q: string, x: string)
    requires GlobMatch(q + TAIL, x)
    ensures HasDouble(x)
    decreases |q| + |x|
  {
    if q == "" {
      assert q + TAIL == TAIL;
      BareTail(x);
    } else if q[0] == '*' {
      OneStar(q, x);
      if GlobMatch(q[1..] + TAIL, x) {
        MatchNeedsDouble(q[1..], x);
      } else {
        MatchNeedsDouble(q, x[1..]);
        DoubleLater(x, 1);
      }
    } else {
      OneToken(q, x);
      MatchNeedsDouble(AfterToken(q), x[1..]);
      DoubleLater(x, 1);
    }
  }

  lemma TailAcceptsAny(d: string)
    ensures GlobMatch(TAIL, "__" + (d + SUFFIX))
  {
    assert GlobMatch("", "");
    LiteralPrefixMatches(SUFFIX, "", "");
    assert SUFFIX + "" == SUFFIX;
    StarAbsorbs(d, SUFFIX, SUFFIX);
    LiteralPrefixMatches("__", "*" + SUFFIX, d + SUFFIX);
    assert "__" + ("*" + SUFFIX) == TAIL;
  }

  lemma TailAccepts(s: string, e: string)
    requires IsEnd(e) && |s + e| >= 2 && (s + e)[..2] == "__"
    ensures GlobMatch(TAIL, s + e)
  {
    var x := s + e;
    var d := x[2..|x| - |SUFFIX|];
    assert x[|x| - |SUFFIX|..] == SUFFIX;
    assert x == x[..2] + (d + x[|x| - |SUFFIX|..]);
    TailAcceptsAny(d);
  }

  lemma ShiftEnd(s: string, e: string)
    requires s != ""
    ensures (s + e)[1..] == s[1..] + e && (s + e)[0] == s[0]
  {
  }

  /** Whether the pattern matches does not depend on the number in the name. */
  lemma {:induction false} AnyEndMatches(q: string, s: string, e: string, e': string)
    requires IsEnd(e) && IsEnd(e') && GlobMatch(q + TAIL, s + e)
    ensures GlobMatch(q + TAIL, s + e')
    decreases |q| + |s|
  {
    EndHasOneDouble(e);
    if s == "" {
      assert s + e == e && s + e' == e';
    } else {
      ShiftEnd(s, e);
      ShiftEnd(s, e');
    }
    if q == "" {
      assert q + TAIL == TAIL;
      BareTail(s + e);
      TailAccepts(s, e');
    } else if q[0] == '*' {
      OneStar(q, s + e);
      OneStar(q, s + e');
      if GlobMatch(q[1..] + TAIL, s + e) {
        AnyEndMatches(q[1..], s, e, e');
      } else if s == "" {
        MatchNeedsDouble(q, e[1..]);
      } else {
        AnyEndMatches(q, s[1..], e, e');
      }
    } else {
      OneToken(q, s + e);
      OneToken(q, s + e');
      if s == "" {
        MatchNeedsDouble(AfterToken(q), e[1..]);
      } else {
        AnyEndMatches(AfterToken(q), s[1..], e, e');
      }
    }
  }

  lemma NameHasEnd(stem: string, n: nat) returns (e: string)
    ensures IsEnd(e) && SegmentName(stem, n) == stem + e
  {
    var digits := Padded(Decimal(n));
    e := "__" + digits + SUFFIX;
    assert e[2..|e| - |SUFFIX|] == digits;
    assert SegmentName(stem, n) == stem + e;
  }

  /** A stem that finds its first segment finds every one of its segments, whatever the number. */
  lemma OwnSegmentsMatch(stem: string, n: nat)
    requires FindsOwn(stem)
    ensures GlobMatch(Pattern(stem), SegmentName(stem, n))
  {
    var e := NameHasEnd(stem, 0);
    var e' := NameHasEnd(stem, n);
    assert Pattern(stem) == stem + TAIL;
    AnyEndMatches(stem, stem, e, e');
  }

  lemma TailAcceptsEnd(e: string)
    requires IsEnd(e)
    ensures GlobMatch(TAIL, e)
  {
    assert "" + e == e;
    TailAccepts("", e);
  }

  /** Every stem without an opening bracket passes the check. */
  lemma BracketFreeFindsOwn(stem: string)
    requires BracketFree(stem)
    ensures FindsOwn(stem)
  {
    var e := NameHasEnd(stem, 0);
    TailAcceptsEnd(e);
    LiteralPrefixMatches(stem, TAIL, e);
    assert Pattern(stem) == stem + TAIL;
  }

  // ---------------------------------------------------------------- the next free number

  /** The highest number among the listed names that the pattern and the expression accept, or -1. */
  function Highest(listing: seq<string>, stem: string): (h: int)
    ensures h >= -1
  {
    if listing == [] then -1
    else
      var name := listing[|listing| - 1];
      var h := Highest(listing[..|listing| - 1], stem);
      if GlobMatch(Pattern(stem), name) && SeqOf(name).Some? then MaxInt(h, SeqOf(name).value) else h
  }

  method ScanNextSeq(listing: seq<string>, stem: string) returns (next: nat)
    ensures next == Highest(listing, stem) + 1
  {
    var highest := -1;
    for i := 0 to |listing|
      invariant highest == Highest(listing[..i], stem)
    {
      assert listing[..i + 1][..i] == listing[..i];
      if GlobMatch(Pattern(stem), listing[i]) {
        var m := SeqOf(listing[i]);
        if m.Some? {
          highest := MaxInt(highest, m.value);
        }
      }
    }
    assert listing[..|listing|] == listing;
    next := highest + 1;
  }

  lemma {:induction false} HighestBounds(listing: seq<string>, stem: string, name: string)
    requires name in listing && GlobMatch(Pattern(stem), name) && SeqOf(name).Some?
    ensures SeqOf(name).value <= Highest(listing, stem)
  {
    if name != listing[|listing| - 1] {
      HighestBounds(listing[..|listing| - 1], stem, name);
    }
  }

  /** From the scanned number on, no segment of the family exists. */
  lemma ScannedNumbersAreFree(listing: seq<string>, stem: string, n: nat)
    requires stem != "" && IsDigit(stem[|stem| - 1]) && FindsOwn(stem)
    requires n > Highest(listing, stem)
    ensures SegmentName(stem, n) !in listing
  {
    if SegmentName(stem, n) in listing {
      OwnSegmentsMatch(stem, n);
      NumberReadsBack(stem, n);
      HighestBounds(listing, stem, SegmentName(stem, n));
    }
  }

  ghost predicate ScanIsSafe(stem: string) {
    forall listing: seq<string>, n: nat :: n > Highest(listing, stem) ==> SegmentName(stem, n) !in listing
  }

  /** In every directory the scan returns a free number exactly when the stem passes the check. */
  lemma ScanIsSafeExactlyWhenStemFindsOwn(stem: string)
    requires stem != "" && IsDigit(stem[|stem| - 1])
    ensures ScanIsSafe(stem) <==> FindsOwn(stem)
  {
    if FindsOwn(stem) {
      forall listing: seq<string>, n: nat | n > Highest(listing, stem) ensures SegmentName(stem, n) !in listing {
        ScannedNumbersAreFree(listing, stem, n);
      }
    } else {
      var listing := [SegmentName(stem, 0)];
      MissedSegment(stem);
      assert SegmentName(stem, 0) in listing;
    }
  }

  lemma MissedSegment(stem: string)
    requires !FindsOwn(stem)
    ensures Highest([SegmentName(stem, 0)], stem) == -1
  {
    var listing := [SegmentName(stem, 0)];
    assert listing[..0] == [];
  }

  /** With brackets in the channel the pattern is a character class and the scan misses the family. */
  lemma BracketedChannelIsMissed()
    ensures !FindsOwn(Stem("[x]", "07"))
    ensures Highest([SegmentName(Stem("[x]", "07"), 0)], Stem("[x]", "07")) == -1
  {
    var stem := Stem("[x]", "07");
    var name, p := SegmentName(stem, 0), Pattern(Stem("[x]", "07"));
    assert p[0] == '[' && p[1] == 'x' && p[2] == ']' && name[0] == '[';
    assert ClassEnd(p, 2) == 2 && ClassEnd(p, 1) == 2;
    assert ClassClose(p) == 2;
    assert p[1..2] == "x";
    assert "x"[1..] == "";
    assert !Member("x", '[');
    assert !GlobMatch(p, name);
    MissedSegment(stem);
  }
}
