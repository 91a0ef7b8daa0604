/**
 Report budgets (digcore/diagnose/report.go): truncation at UTF-8 boundaries and the
 description and comment formats that must fit their limits. Valid UTF-8 is the grammar of
 section 4 of RFC 3629.
 */
module Report {
  import opened Common

  const MAX_DESCRIPTION_BYTES: nat := 2048
  const MAX_COMMENT_RUNES: nat := 1024

  // ---------------------------------------------------------------- UTF-8

  predicate Continuation(b: byte) { 0x80 <= b <= 0xBF }

  /** utf8.RuneStart. */
  predicate RuneStart(b: byte) { !Continuation(b) }

  /** The length of the well-formed character at the front of `s`, 0 if there is none. */
  function RuneLen(s: seq<byte>): (n: nat)
    ensures n <= 4 && n <= |s|
    ensures n > 0 ==> RuneStart(s[0]) && forall i :: 1 <= i < n ==> Continuation(s[i])
  {
    if s == [] then 0
    else if s[0] <= 0x7F then 1
    else if 0xC2 <= s[0] <= 0xDF && |s| >= 2 && Continuation(s[1]) then 2
    else if |s| >= 3 && Second3(s[0], s[1]) && Continuation(s[2]) then 3
    else if |s| >= 4 && Second4(s[0], s[1]) && Continuation(s[2]) && Continuation(s[3]) then 4
    else 0
  }

  /** Three-byte characters: no overlong forms, no surrogates. */
  predicate Second3(a: byte, b: byte) {
    || (a == 0xE0 && 0xA0 <= b <= 0xBF)
    || (0xE1 <= a <= 0xEC && Continuation(b))
    || (a == 0xED && 0x80 <= b <= 0x9F)
    || (0xEE <= a <= 0xEF && Continuation(b))
  }

  /** Four-byte characters: no overlong forms, nothing above U+10FFFF. */
  predicate Second4(a: byte, b: byte) {
    || (a == 0xF0 && 0x90 <= b <= 0xBF)
    || (0xF1 <= a <= 0xF3 && Continuation(b))
    || (a == 0xF4 && 0x80 <= b <= 0x8F)
  }

  predicate ValidUTF8(s: seq<byte>) {
    s == [] || (RuneLen(s) > 0 && ValidUTF8(s[RuneLen(s)..]))
  }

  /** The first character depends only on its own bytes. */
  lemma RuneLenLocal(s: seq<byte>, t: seq<byte>)
    requires RuneLen(s) > 0 && RuneLen(s) <= |t|
    requires forall i :: 0 <= i < RuneLen(s) ==> t[i] == s[i]
    ensures RuneLen(t) == RuneLen(s)
  {
    assert t[0] == s[0];
    assert RuneLen(s) >= 2 ==> t[1] == s[1];
    assert RuneLen(s) >= 3 ==> t[2] == s[2];
    assert RuneLen(s) >= 4 ==> t[3] == s[3];
  }

  /** In valid UTF-8 the valid prefixes are those that end where a character starts. */
  lemma {:induction false} ValidPrefixIff(s: seq<byte>, p: nat)
    requires ValidUTF8(s) && p <= |s|
    ensures ValidUTF8(s[..p]) <==> p == |s| || RuneStart(s[p])
  {
    if p == |s| {
      assert s[..p] == s;
    } else if p > 0 {
      var n := RuneLen(s);
      if n <= p {
        RuneLenLocal(s, s[..p]);
        assert s[..p][n..] == s[n..][..p - n];
        assert p < |s| ==> s[n..][p - n] == s[p];
        ValidPrefixIff(s[n..], p - n);
      } else {
        if RuneLen(s[..p]) > 0 {
          RuneLenLocal(s[..p], s);
        }
      }
    }
  }

  lemma {:induction false} ValidConcat(a: seq<byte>, b: seq<byte>)
    requires ValidUTF8(a) && ValidUTF8(b)
    ensures ValidUTF8(a + b)
  {
    if a == [] {
      assert a + b == b;
    } else {
      var n := RuneLen(a);
      RuneLenLocal(a, a + b);
      assert (a + b)[n..] == a[n..] + b;
      ValidConcat(a[n..], b);
    }
  }

  // ---------------------------------------------------------------- truncation

  /** Concatenation, with the empty cases apart. */
  function Join(a: seq<byte>, b: seq<byte>): (r: seq<byte>)
    ensures |r| == |a| + |b|
  {
    if a == [] then b else if b == [] then a else a + b
  }

  lemma JoinIsConcat(a: seq<byte>, b: seq<byte>)
    ensures Join(a, b) == a + b
  {
  }

  lemma JoinIsValid(a: seq<byte>, b: seq<byte>)
    requires ValidUTF8(a) && ValidUTF8(b)
    ensures ValidUTF8(Join(a, b))
  {
    if a != [] && b != [] {
      ValidConcat(a, b);
    }
  }

  /** The largest cut at or below `max` that does not fall inside a character. */
  function Cut(s: seq<byte>, max: nat): (p: nat)
    requires max < |s|
    ensures p <= max
    ensures p == 0 || RuneStart(s[p])
    ensures forall q :: p < q <= max ==> !RuneStart(s[q])
  {
    if max == 0 || RuneStart(s[max]) then max else Cut(s, max - 1)
  }

  function Truncated(s: seq<byte>, maxBytes: int): (r: seq<byte>)
    ensures |r| <= |s| && r == s[..|r|]
    ensures maxBytes >= 0 ==> |r| <= maxBytes
  {
    if |s| <= maxBytes then s
    else if maxBytes <= 0 then []
    else s[..Cut(s, maxBytes)]
  }

  method TruncateUTF8(s: seq<byte>, maxBytes: int) returns (r: seq<byte>)
    ensures r == Truncated(s, maxBytes)
  {
    if |s| <= maxBytes {
      return s;
    }
    if maxBytes <= 0 {
      return [];
    }
    var cut := maxBytes;
    while cut > 0 && !RuneStart(s[cut])
      invariant 0 <= cut <= maxBytes
      invariant Cut(s, maxBytes) == Cut(s, cut)
    {
      cut := cut - 1;
    }
    return s[..cut];
  }

  /** On valid UTF-8, truncation returns the longest valid prefix within the byte limit. */
  lemma TruncationIsLongest(s: seq<byte>, maxBytes: int, p: nat)
    requires ValidUTF8(s)
    ensures ValidUTF8(Truncated(s, maxBytes))
    ensures p <= |s| && p <= maxBytes && ValidUTF8(s[..p]) ==> p <= |Truncated(s, maxBytes)|
  {
    if 0 < maxBytes < |s| {
      var cut := Cut(s, maxBytes);
      ValidPrefixIff(s, cut);
      if p <= maxBytes {
        ValidPrefixIff(s, p);
      }
    }
  }

  // ---------------------------------------------------------------- description

  /** The report body cut to its budget, with the truncation mark when it has room. */
  function Fitted(report: seq<byte>, budget: nat, truncSuffix: seq<byte>): (body: seq<byte>)
    ensures |body| <= budget && (|report| <= budget ==> body == report)
  {
    if |report| <= budget then report
    else if budget > |truncSuffix| then Join(Truncated(report, budget - |truncSuffix|), truncSuffix)
    else Truncated(report, budget)
  }

  lemma FittedIsValid(report: seq<byte>, budget: nat, truncSuffix: seq<byte>)
    requires ValidUTF8(report) && ValidUTF8(truncSuffix)
    ensures ValidUTF8(Fitted(report, budget, truncSuffix))
  {
    if |report| > budget > |truncSuffix| {
      TruncationIsLongest(report, budget - |truncSuffix|, 0);
      JoinIsValid(Truncated(report, budget - |truncSuffix|), truncSuffix);
    } else {
      TruncationIsLongest(report, budget, 0);
    }
  }

  /** A report within its budget is kept whole; one that is cut is its longest valid front and
      the mark when that has room. */
  lemma FittedSays(report: seq<byte>, budget: nat, truncSuffix: seq<byte>, p: nat)
    requires ValidUTF8(report)
    ensures var r := Fitted(report, budget, truncSuffix);
      var marked := budget > |truncSuffix|;
      var room := if marked then budget - |truncSuffix| else budget;
      && (|report| <= budget ==> r == report)
      && (|report| > budget ==>
            var front := Truncated(report, room);
            && front <= report && |front| <= room && ValidUTF8(front)
            && (p <= room && p <= |report| && ValidUTF8(report[..p]) ==> p <= |front|)
            && r == if marked then front + truncSuffix else front)
  {
    var room := if budget > |truncSuffix| then budget - |truncSuffix| else budget;
    TruncationIsLongest(report, room, p);
    JoinIsConcat(Truncated(report, room), truncSuffix);
  }

  /** The description: header, fitted body and footer, or a cut header when header and
      footer alone do not fit; never more than 2048 bytes, and valid UTF-8 if its parts are. */
  method FormatReportDescription(header: seq<byte>, report: seq<byte>, footer: seq<byte>, truncSuffix: seq<byte>)
      returns (r: seq<byte>)
    ensures |r| <= MAX_DESCRIPTION_BYTES
    ensures var overhead := |header| + |footer|;
      r == if overhead >= MAX_DESCRIPTION_BYTES then Truncated(header, MAX_DESCRIPTION_BYTES)
           else header + Fitted(report, MAX_DESCRIPTION_BYTES - overhead, truncSuffix) + footer
    ensures ValidUTF8(header) && ValidUTF8(report) && ValidUTF8(footer) && ValidUTF8(truncSuffix) ==> ValidUTF8(r)
  {
    var overhead := |header| + |footer|;
    if overhead >= MAX_DESCRIPTION_BYTES {
      r := TruncateUTF8(header, MAX_DESCRIPTION_BYTES);
      if ValidUTF8(header) {
        TruncationIsLongest(header, MAX_DESCRIPTION_BYTES, 0);
      }
      return;
    }
    var body := FitBody(report, MAX_DESCRIPTION_BYTES - overhead, truncSuffix);
    if ValidUTF8(header) && ValidUTF8(body) && ValidUTF8(footer) {
      ValidConcat(header, body);
      ValidConcat(header + body, footer);
    }
    r := header + body + footer;
  }

  method FitBody(report: seq<byte>, budget: nat, truncSuffix: seq<byte>) returns (body: seq<byte>)
    ensures body == Fitted(report, budget, truncSuffix)
    ensures ValidUTF8(report) && ValidUTF8(truncSuffix) ==> ValidUTF8(body)
  {
    if ValidUTF8(report) && ValidUTF8(truncSuffix) {
      FittedIsValid(report, budget, truncSuffix);
    }
    body := report;
    if |body| > budget {
      if budget > |truncSuffix| {
        body := TruncateUTF8(body, budget - |truncSuffix|);
        JoinIsConcat(body, truncSuffix);
        body := body + truncSuffix;
      } else {
        body := TruncateUTF8(body, budget);
      }
    }
  }

  // ---------------------------------------------------------------- runes

  /** The bytes the next rune takes; an invalid byte is a rune of its own. */
  function Width(s: seq<byte>): (w: nat)
    requires s != []
    ensures 1 <= w <= |s|
  {
    if RuneLen(s) > 0 then RuneLen(s) else 1
  }

  /** utf8.RuneCountInString. */
  function RuneCount(s: seq<byte>): (n: nat) {
    if s == [] then 0 else 1 + RuneCount(s[Width(s)..])
  }

  /** U+FFFD, which stands for an invalid byte. */
  const REPLACEMENT: seq<byte> := [0xEF, 0xBF, 0xBD]

  /** The first rune as it is written back. */
  function FirstRune(s: seq<byte>): (c: seq<byte>)
    requires s != []
  {
    if RuneLen(s) > 0 then s[..RuneLen(s)] else REPLACEMENT
  }

  /** []rune(s), each rune as it is written back. */
  function Runes(s: seq<byte>): (rs: seq<seq<byte>>)
    ensures |rs| == RuneCount(s)
  {
    if s == [] then [] else [FirstRune(s)] + Runes(s[Width(s)..])
  }

  function Glue(rs: seq<seq<byte>>): (s: seq<byte>) {
    if rs == [] then [] else Join(rs[0], Glue(rs[1..]))
  }

  /** string([]rune(s)[:n]). */
  function FirstRunes(s: seq<byte>, n: nat): (r: seq<byte>)
    requires n <= RuneCount(s)
  {
    Glue(Runes(s)[..n])
  }

  function TruncatedRunes(s: seq<byte>, maxRunes: int): (r: seq<byte>) {
    if maxRunes <= 0 then [] else if RuneCount(s) <= maxRunes then s else FirstRunes(s, maxRunes)
  }

  lemma FirstRuneIsRune(s: seq<byte>)
    requires s != []
    ensures RuneLen(FirstRune(s)) == |FirstRune(s)| > 0
  {
    if RuneLen(s) > 0 {
      RuneLenLocal(s, s[..RuneLen(s)]);
    }
  }

  lemma RuneThen(c: seq<byte>, t: seq<byte>)
    requires RuneLen(c) == |c| > 0
    ensures RuneCount(Join(c, t)) == 1 + RuneCount(t)
    ensures ValidUTF8(t) ==> ValidUTF8(Join(c, t))
  {
    if t == [] {
      assert c[|c|..] == [];
    } else {
      RuneLenLocal(c, c + t);
      assert (c + t)[|c|..] == t;
    }
  }

  predicate IsRune(c: seq<byte>) {
    RuneLen(c) == |c| > 0
  }

  lemma {:induction false} RunesAreRunes(s: seq<byte>, i: nat)
    requires i < |Runes(s)|
    ensures IsRune(Runes(s)[i])
  {
    if i == 0 {
      FirstRuneIsRune(s);
    } else {
      RunesAreRunes(s[Width(s)..], i - 1);
    }
  }

  /** Runes written one after the other read back as that many, and are valid. */
  lemma {:induction false} GlueCount(rs: seq<seq<byte>>)
    requires forall i :: 0 <= i < |rs| ==> IsRune(rs[i])
    ensures RuneCount(Glue(rs)) == |rs| && ValidUTF8(Glue(rs))
  {
    if rs != [] {
      GlueCount(rs[1..]);
      RuneThen(rs[0], Glue(rs[1..]));
    }
  }

  /** The first n runes are n runes, and valid whatever they came from. */
  lemma FirstRunesCount(s: seq<byte>, n: nat)
    requires n <= RuneCount(s)
    ensures RuneCount(FirstRunes(s, n)) == n && ValidUTF8(FirstRunes(s, n))
  {
    forall i | 0 <= i < n
      ensures IsRune(Runes(s)[..n][i])
    {
      RunesAreRunes(s, i);
    }
    GlueCount(Runes(s)[..n]);
  }

  /** On valid UTF-8 they are a prefix. */
  lemma {:induction false} FirstRunesIsPrefix(s: seq<byte>, n: nat)
    requires ValidUTF8(s) && n <= RuneCount(s)
    ensures FirstRunes(s, n) <= s
  {
    if n > 0 {
      var rest := s[Width(s)..];
      FirstRunesIsPrefix(rest, n - 1);
      GlueFront(FirstRune(s), Runes(rest), n);
      assert s == FirstRune(s) + rest;
    }
  }

  lemma GlueFront(c: seq<byte>, rs: seq<seq<byte>>, n: nat)
    requires 0 < n <= |rs| + 1
    ensures Glue(([c] + rs)[..n]) == c + Glue(rs[..n - 1])
  {
    assert ([c] + rs)[..n][1..] == rs[..n - 1];
    JoinIsConcat(c, Glue(rs[..n - 1]));
  }

  lemma TruncatedRunesFit(s: seq<byte>, maxRunes: nat)
    ensures RuneCount(TruncatedRunes(s, maxRunes)) <= maxRunes
  {
    if 0 < maxRunes < RuneCount(s) {
      FirstRunesCount(s, maxRunes);
    }
  }

  lemma TruncatedRunesValid(s: seq<byte>, maxRunes: nat)
    requires ValidUTF8(s)
    ensures ValidUTF8(TruncatedRunes(s, maxRunes)) && TruncatedRunes(s, maxRunes) <= s
  {
    if 0 < maxRunes < RuneCount(s) {
      FirstRunesCount(s, maxRunes);
      FirstRunesIsPrefix(s, maxRunes);
    }
  }

  /** Leading continuation bytes count one each. */
  lemma {:induction false} ContinuationsCount(s: seq<byte>, m: nat)
    requires m <= |s| && forall i :: 0 <= i < m ==> Continuation(s[i])
    ensures RuneCount(s) == m + RuneCount(s[m..])
  {
    if m > 0 {
      assert RuneLen(s) == 0;
      ContinuationsCount(s[1..], m - 1);
      assert s[1..][m - 1..] == s[m..];
    }
  }

  /** Joining never makes more runes: bytes that were invalid apart may complete each other. */
  lemma {:induction false} JoinedRunes(a: seq<byte>, b: seq<byte>)
    ensures RuneCount(a + b) <= RuneCount(a) + RuneCount(b)
  {
    if a == [] {
      assert a + b == b;
    } else if RuneLen(a + b) <= |a| {
      SameWidth(a, b);
      assert (a + b)[Width(a)..] == a[Width(a)..] + b;
      JoinedRunes(a[Width(a)..], b);
    } else {
      CompletedRune(a, b);
    }
  }

  lemma SameWidth(a: seq<byte>, b: seq<byte>)
    requires a != [] && RuneLen(a + b) <= |a|
    ensures Width(a + b) == Width(a)
  {
    if RuneLen(a + b) > 0 {
      RuneLenLocal(a + b, a);
    } else if RuneLen(a) > 0 {
      RuneLenLocal(a, a + b);
    }
  }

  lemma CompletedRune(a: seq<byte>, b: seq<byte>)
    requires a != [] && RuneLen(a + b) > |a|
    ensures RuneCount(a + b) <= RuneCount(a) + RuneCount(b)
  {
    var s, v := a + b, RuneLen(a + b);
    if RuneLen(a) > 0 {
      RuneLenLocal(a, s);
      assert false;
    }
    BrokenRuneCount(a, s);
    assert forall i :: 0 <= i < v - |a| ==> b[i] == s[|a| + i];
    ContinuationsCount(b, v - |a|);
    DropIntoSecond(a, b, v);
  }

  lemma DropIntoSecond(a: seq<byte>, b: seq<byte>, v: nat)
    requires |a| <= v <= |a| + |b|
    ensures (a + b)[v..] == b[v - |a|..]
  {
  }

  /** The front of a rune, cut short, counts one per byte. */
  lemma BrokenRuneCount(a: seq<byte>, s: seq<byte>)
    requires a != [] && a <= s && RuneLen(a) == 0 && |a| < RuneLen(s)
    ensures RuneCount(a) == |a|
  {
    assert forall i :: 0 <= i < |a| - 1 ==> a[1..][i] == s[i + 1];
    ContinuationsCount(a[1..], |a| - 1);
    assert a[1..][|a| - 1..] == [];
  }

  // ---------------------------------------------------------------- comment

  function FittedRunes(body: seq<byte>, budget: nat, truncSuffix: seq<byte>): (r: seq<byte>) {
    if RuneCount(body) <= budget then body
    else if budget > RuneCount(truncSuffix) then
      Join(TruncatedRunes(body, budget - RuneCount(truncSuffix)), truncSuffix)
    else TruncatedRunes(body, budget)
  }

  lemma JoinFits(a: seq<byte>, b: seq<byte>, n: nat)
    requires RuneCount(a) + RuneCount(b) <= n
    ensures RuneCount(Join(a, b)) <= n
  {
    if a != [] && b != [] {
      JoinedRunes(a, b);
    }
  }

  lemma FittedRunesFit(body: seq<byte>, budget: nat, truncSuffix: seq<byte>)
    ensures RuneCount(FittedRunes(body, budget, truncSuffix)) <= budget
  {
    if RuneCount(body) > budget {
      if budget > RuneCount(truncSuffix) {
        var n := budget - RuneCount(truncSuffix);
        TruncatedRunesFit(body, n);
        JoinFits(TruncatedRunes(body, n), truncSuffix, budget);
      } else {
        TruncatedRunesFit(body, budget);
      }
    }
  }

  lemma FittedRunesValid(body: seq<byte>, budget: nat, truncSuffix: seq<byte>)
    requires ValidUTF8(body) && ValidUTF8(truncSuffix)
    ensures ValidUTF8(FittedRunes(body, budget, truncSuffix))
  {
    if RuneCount(body) > budget {
      if budget > RuneCount(truncSuffix) {
        MarkedRunesValid(body, budget - RuneCount(truncSuffix), truncSuffix);
      } else {
        CutRunesValid(body, budget);
      }
    }
  }

  lemma CutRunesValid(body: seq<byte>, n: nat)
    requires ValidUTF8(body)
    ensures ValidUTF8(TruncatedRunes(body, n))
  {
    TruncatedRunesValid(body, n);
  }

  lemma MarkedRunesValid(body: seq<byte>, n: nat, truncSuffix: seq<byte>)
    requires ValidUTF8(body) && ValidUTF8(truncSuffix)
    ensures ValidUTF8(Join(TruncatedRunes(body, n), truncSuffix))
  {
    CutRunesValid(body, n);
    JoinIsValid(TruncatedRunes(body, n), truncSuffix);
  }

  /** A body within its budget is kept whole; one that is cut is a front of the report, as
      many runes as the budget leaves, and the mark when it has room. */
  lemma FittedRunesSays(body: seq<byte>, budget: nat, truncSuffix: seq<byte>)
    requires ValidUTF8(body)
    ensures var r := FittedRunes(body, budget, truncSuffix);
      var marked := budget > RuneCount(truncSuffix);
      var runes := if marked then budget - RuneCount(truncSuffix) else budget;
      && (RuneCount(body) <= budget ==> r == body)
      && (RuneCount(body) > budget ==>
            var front := TruncatedRunes(body, runes);
            && front <= body && RuneCount(front) == runes
            && r == if marked then front + truncSuffix else front)
  {
    if RuneCount(body) > budget {
      var runes := if budget > RuneCount(truncSuffix) then budget - RuneCount(truncSuffix) else budget;
      TruncatedRunesValid(body, runes);
      if runes > 0 {
        FirstRunesCount(body, runes);
      }
      JoinIsConcat(TruncatedRunes(body, runes), truncSuffix);
    }
  }

  /** The comment: the trimmed report or a placeholder, cut to fit, and the footer. On any
      bytes it has at most 1024 runes and its footer survives whole whenever it is shorter;
      it is valid UTF-8 if its parts are. */
  function Comment(body: seq<byte>, footer: seq<byte>, truncSuffix: seq<byte>): (r: seq<byte>) {
    if RuneCount(footer) >= MAX_COMMENT_RUNES then TruncatedRunes(footer, MAX_COMMENT_RUNES)
    else Join(FittedRunes(body, MAX_COMMENT_RUNES - RuneCount(footer), truncSuffix), footer)
  }

  lemma CommentFits(body: seq<byte>, footer: seq<byte>, truncSuffix: seq<byte>)
    ensures RuneCount(Comment(body, footer, truncSuffix)) <= MAX_COMMENT_RUNES
  {
    if RuneCount(footer) >= MAX_COMMENT_RUNES {
      TruncatedRunesFit(footer, MAX_COMMENT_RUNES);
    } else {
      var budget := MAX_COMMENT_RUNES - RuneCount(footer);
      FittedRunesFit(body, budget, truncSuffix);
      JoinFits(FittedRunes(body, budget, truncSuffix), footer, MAX_COMMENT_RUNES);
    }
  }

  lemma CommentEnds(body: seq<byte>, footer: seq<byte>, truncSuffix: seq<byte>)
    requires RuneCount(footer) < MAX_COMMENT_RUNES
    ensures EndsIn(Comment(body, footer, truncSuffix), footer)
  {
  }

  predicate EndsIn(s: seq<byte>, t: seq<byte>) {
    |t| <= |s| && s[|s| - |t|..] == t
  }

  method FormatReportComment(trimmed: seq<byte>, placeholder: seq<byte>, footer: seq<byte>, truncSuffix: seq<byte>)
      returns (r: seq<byte>)
    ensures RuneCount(r) <= MAX_COMMENT_RUNES
    ensures RuneCount(footer) < MAX_COMMENT_RUNES ==> EndsIn(r, footer)
    ensures r == Comment(if trimmed == [] then placeholder else trimmed, footer, truncSuffix)
    ensures ValidUTF8(trimmed) && ValidUTF8(placeholder) && ValidUTF8(footer) && ValidUTF8(truncSuffix) ==>
      ValidUTF8(r)
  {
    var body := trimmed;
    if body == [] {
      body := placeholder;
    }
    CommentFits(body, footer, truncSuffix);
    if RuneCount(footer) < MAX_COMMENT_RUNES {
      CommentEnds(body, footer, truncSuffix);
    }
    r := PutTogether(body, footer, truncSuffix);
  }

  method PutTogether(report: seq<byte>, footer: seq<byte>, truncSuffix: seq<byte>) returns (r: seq<byte>)
    ensures r == Comment(report, footer, truncSuffix)
    ensures ValidUTF8(report) && ValidUTF8(footer) && ValidUTF8(truncSuffix) ==> ValidUTF8(r)
  {
    if RuneCount(footer) >= MAX_COMMENT_RUNES {
      if ValidUTF8(footer) {
        TruncatedRunesValid(footer, MAX_COMMENT_RUNES);
      }
      return TruncatedRunes(footer, MAX_COMMENT_RUNES);
    }
    var body := FitRunes(report, MAX_COMMENT_RUNES - RuneCount(footer), truncSuffix);
    JoinIsConcat(body, footer);
    if ValidUTF8(body) && ValidUTF8(footer) {
      ValidConcat(body, footer);
    }
    return body + footer;
  }

  method FitRunes(report: seq<byte>, budget: nat, truncSuffix: seq<byte>) returns (body: seq<byte>)
    ensures body == FittedRunes(report, budget, truncSuffix)
    ensures ValidUTF8(report) && ValidUTF8(truncSuffix) ==> ValidUTF8(body)
  {
    if ValidUTF8(report) && ValidUTF8(truncSuffix) {
      FittedRunesValid(report, budget, truncSuffix);
    }
    body := report;
    if RuneCount(body) > budget {
      var suffixRunes := RuneCount(truncSuffix);
      if budget > suffixRunes {
        body := TruncatedRunes(body, budget - suffixRunes);
        JoinIsConcat(body, truncSuffix);
        body := body + truncSuffix;
      } else {
        body := TruncatedRunes(body, budget);
      }
    }
  }
}
