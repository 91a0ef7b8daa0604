/**
 The reply reader (plugins/redis/accessor.go) on arbitrary bytes: which texts are numbers,
 where a line ends, and what is made of every input, malformed ones included.
 */
module RespInput {
  import opened Common
  import opened Resp

  // ---------------------------------------------------------------- numbers

  function Zeros(k: nat): (s: seq<byte>) {
    seq(k, _ => 48)
  }

  lemma {:induction false} ZerosAreZero(k: nat)
    ensures AllDigits(Zeros(k)) && DigitsValue(Zeros(k)) == 0
  {
    if k > 0 {
      ZerosAreZero(k - 1);
      assert Zeros(k)[..k - 1] == Zeros(k - 1);
    }
  }

  lemma {:induction false} PaddedValue(k: nat, n: nat)
    ensures AllDigits(Zeros(k) + Digits(n)) && DigitsValue(Zeros(k) + Digits(n)) == n
  {
    var s := Zeros(k) + Digits(n);
    if n < 10 {
      ZerosAreZero(k);
      assert s[..|s| - 1] == Zeros(k);
    } else {
      PaddedValue(k, n / 10);
      assert s[..|s| - 1] == Zeros(k) + Digits(n / 10);
    }
  }

  /** Any digits are the printed form of their value behind some zeros. */
  lemma {:induction false} DigitsArePadded(ds: seq<byte>) returns (k: nat)
    requires ds != [] && AllDigits(ds)
    ensures ds == Zeros(k) + Digits(DigitsValue(ds))
  {
    var n := |ds| - 1;
    k := 0;
    if n == 0 {
      assert ds[..0] == [];
    } else {
      k := DigitsArePadded(ds[..n]);
      var v := DigitsValue(ds[..n]);
      assert ds == ds[..n] + [ds[n]];
      NextDigit(k, v, ds[n]);
      if v == 0 {
        k := k + 1;
      }
    }
  }

  lemma NextDigit(k: nat, v: nat, d: byte)
    requires 48 <= d <= 57
    ensures Zeros(k) + Digits(v) + [d] == Zeros(if v == 0 then k + 1 else k) + Digits(v * 10 + (d - 48))
  {
    if v != 0 {
      assert Digits(v * 10 + (d - 48)) == Digits(v) + [d];
    }
  }

  lemma {:induction false} NoLeadingZero(n: nat)
    ensures Digits(n)[0] == 48 <==> n == 0
    ensures AllDigits(Digits(n))
  {
    if n >= 10 {
      NoLeadingZero(n / 10);
    }
  }

  function Magnitude(n: int): (m: nat) {
    if n < 0 then -n else n
  }

  /** The digits of `n` behind `k` zeros. */
  function Padded(n: int, k: nat): (s: seq<byte>) {
    Zeros(k) + Digits(Magnitude(n))
  }

  /** `s` is `n` written with `k` zeros in front and a fitting sign. */
  predicate Written(s: seq<byte>, n: int, k: nat) {
    || (n >= 0 && (s == Padded(n, k) || s == [PLUS] + Padded(n, k)))
    || (n <= 0 && s == [MINUS] + Padded(n, k))
  }

  /** A text is read as the 64-bit number `n` exactly when it is `n` in decimal, with an
      optional sign and any number of leading zeros. */
  lemma ParseIntIff(s: seq<byte>, n: int)
    ensures ParseInt(s) == Some(n)
      <==> MIN_INT64 <= n <= MAX_INT64 && exists k :: Written(s, n, k)
  {
    if ParseInt(s) == Some(n) {
      var k := ParsedIsWritten(s, n);
    }
    if MIN_INT64 <= n <= MAX_INT64 {
      if k :| Written(s, n, k) {
        WrittenIsParsed(s, n, k);
      }
    }
  }

  lemma ParsedIsWritten(s: seq<byte>, n: int) returns (k: nat)
    requires ParseInt(s) == Some(n)
    ensures Written(s, n, k)
  {
    if s[0] == PLUS || s[0] == MINUS {
      k := DigitsArePadded(s[1..]);
      assert s == [s[0]] + s[1..];
      assert s[1..] == Padded(n, k);
    } else {
      k := DigitsArePadded(s);
      assert s == Padded(n, k);
    }
  }

  lemma WrittenIsParsed(s: seq<byte>, n: int, k: nat)
    requires MIN_INT64 <= n <= MAX_INT64 && Written(s, n, k)
    ensures ParseInt(s) == Some(n)
  {
    PaddedValue(k, Magnitude(n));
    BodyIsParsed(s, n, Padded(n, k));
  }

  lemma BodyIsParsed(s: seq<byte>, n: int, body: seq<byte>)
    requires body != [] && AllDigits(body) && DigitsValue(body) == Magnitude(n)
    requires MIN_INT64 <= n <= MAX_INT64
    requires || (n >= 0 && (s == body || s == [PLUS] + body))
             || (n <= 0 && s == [MINUS] + body)
    ensures ParseInt(s) == Some(n)
  {
    if s != body {
      assert s[1..] == body;
    }
  }

  /** Integers come back printed without a plus sign or leading zeros. */
  lemma PrintedPlainly(n: int)
    ensures var s := Itoa(n);
      && Written(s, n, 0)
      && (n < 0 ==> |s| > 1 && s[0] == MINUS && s[1] != 48)
      && (n > 0 ==> s[0] != PLUS && s[0] != 48)
      && (n == 0 ==> s == [48])
  {
    NoLeadingZero(Magnitude(n));
    assert Padded(n, 0) == Digits(Magnitude(n));
  }

  // ---------------------------------------------------------------- lines

  predicate LineEnd(line: seq<byte>, eol: seq<byte>) {
    eol == CRLF || (eol == [LF] && (line == [] || line[|line| - 1] != CR))
  }

  /** A line ends at the first newline; one carriage return in front of it belongs to the end. */
  lemma ReadAnyLine(line: seq<byte>, eol: seq<byte>, rest: seq<byte>)
    requires LF !in line && LineEnd(line, eol)
    ensures ReadLine(line + eol + rest) == Got(line, rest)
  {
    if eol == CRLF {
      ReadLineOf(line, rest);
    } else {
      FirstLFSkips(line, rest);
      var s := line + eol + rest;
      assert s[..|line|] == line && s[|line| + 1..] == rest;
    }
  }

  /** Every input has a line, or no newline at all. */
  lemma SplitLine(bs: seq<byte>) returns (line: seq<byte>, eol: seq<byte>, rest: seq<byte>)
    requires LF in bs
    ensures LF !in line && LineEnd(line, eol) && bs == line + eol + rest
  {
    var i := FirstLF(bs);
    assert bs[..|bs|] == bs;
    rest := bs[i + 1..];
    if i > 0 && bs[i - 1] == CR {
      line, eol := bs[..i - 1], CRLF;
      assert forall j :: 0 <= j < i - 1 ==> bs[j] == bs[..i][j];
      assert bs[i - 1..i + 1] == CRLF;
    } else {
      line, eol := bs[..i], [LF];
    }
  }

  lemma NoLine(bs: seq<byte>)
    requires LF !in bs
    ensures ReadLine(bs) == Fail(Eof, [])
  {
  }

  // ---------------------------------------------------------------- every input

  /** What follows a length line: a negative length is nil, one over 1 MiB is refused, and
      otherwise the payload and two more bytes, whatever they are, must be there. */
  function Payload(n: int, rest: seq<byte>): (r: Read<Value>) {
    if n < 0 then Got(Nil, rest)
    else if n > 1048576 then Fail(TooBig, rest)
    else if |rest| < n + 2 then Fail(Eof, [])
    else Got(Str(rest[..n]), rest[n + 2..])
  }

  /** What follows a count line: nil for a negative count, else that many values. */
  function Items(n: int, rest: seq<byte>): (r: Read<Value>) {
    if n < 0 then Got(Nil, rest)
    else
      match ReadElems(n, rest)
      case Got(vs, rest') => Got(Arr(vs), rest')
      case Fail(e, rest') => Fail(e, rest')
  }

  /** The answer to a prefix and the line behind it, by kind. */
  ghost predicate Answers(prefix: byte, line: seq<byte>, bs: seq<byte>, rest: seq<byte>, r: Read<Value>) {
    && (prefix == PLUS ==> r == Got(Str(line), rest))
    && (prefix == MINUS ==> r == Fail(ServerError(line), rest))
    && (prefix in {COLON, DOLLAR, STAR} && ParseInt(line).None? ==> r == Fail(BadNumber, rest))
    && (ParseInt(line).Some? ==>
          var n := ParseInt(line).value;
          && (prefix == COLON ==> r == Got(Str(Itoa(n)), rest))
          && (prefix == DOLLAR ==> r == Payload(n, rest))
          && (prefix == STAR ==> r == Items(n, rest)))
    && (prefix !in {PLUS, MINUS, COLON, DOLLAR, STAR} ==> r == Fail(BadPrefix, bs))
  }

  lemma TaggedAnswers(prefix: byte, line: seq<byte>, bs: seq<byte>, rest: seq<byte>)
    requires ReadLine(bs) == Got(line, rest)
    ensures Answers(prefix, line, bs, rest, ReadTagged(prefix, bs))
  {
  }

  /** The reader on a line of any kind, with either line ending, followed by anything. */
  lemma ReadAnything(prefix: byte, line: seq<byte>, eol: seq<byte>, rest: seq<byte>)
    requires LF !in line && LineEnd(line, eol)
    ensures Answers(prefix, line, line + eol + rest, rest, ReadValue([prefix] + (line + eol + rest)))
  {
    var bs := line + eol + rest;
    assert ([prefix] + bs)[1..] == bs;
    ReadAnyLine(line, eol, rest);
    TaggedAnswers(prefix, line, bs, rest);
  }

  /** Without a newline behind the prefix nothing is read. */
  lemma ReadNothing(prefix: byte, bs: seq<byte>)
    requires LF !in bs
    ensures ReadValue([prefix] + bs)
      == if prefix in {PLUS, MINUS, COLON, DOLLAR, STAR} then Fail(Eof, []) else Fail(BadPrefix, bs)
  {
    assert ([prefix] + bs)[1..] == bs;
    NoLine(bs);
  }

  // ---------------------------------------------------------------- elements

  /** Each position but the last holds a value, and the next position is behind it. */
  ghost predicate Chained(read: seq<byte> -> Read<Value>, at: seq<seq<byte>>) {
    && at != []
    && forall i :: 0 <= i < |at| - 1 ==> read(at[i]).Got? && read(at[i]).rest == at[i + 1]
  }

  /** The elements of an array are read one behind the other: all of them, each from where
      the one before ended, or up to the first that fails. */
  ghost predicate InOrder(read: seq<byte> -> Read<Value>, n: nat, at: seq<seq<byte>>, r: Read<seq<Value>>) {
    && Chained(read, at)
    && match r
       case Got(vs, rest) =>
         && |at| == n + 1 && |vs| == n && rest == at[n]
         && forall i :: 0 <= i < n ==> read(at[i]).value == vs[i]
       case Fail(e, rest) => |at| <= n && read(at[|at| - 1]) == Fail(e, rest)
  }

  lemma {:induction false} ElementsInOrder(n: nat, bs: seq<byte>) returns (at: seq<seq<byte>>)
    ensures at != [] && at[0] == bs && InOrder(ReadValue, n, at, ReadElems(n, bs))
  {
    at := [bs];
    if n > 0 && ReadValue(bs).Got? {
      var later := ElementsInOrder(n - 1, ReadValue(bs).rest);
      at := OneMore(ReadValue, n, bs, later, ReadElems(n - 1, ReadValue(bs).rest), ReadElems(n, bs));
    }
  }

  lemma OneMore(read: seq<byte> -> Read<Value>, n: nat, bs: seq<byte>, later: seq<seq<byte>>,
                r: Read<seq<Value>>, r': Read<seq<Value>>) returns (at: seq<seq<byte>>)
    requires n > 0 && read(bs).Got? && InOrder(read, n - 1, later, r) && later[0] == read(bs).rest
    requires r' == if r.Got? then Got([read(bs).value] + r.value, r.rest) else r
    ensures at != [] && at[0] == bs && InOrder(read, n, at, r')
  {
    at := [bs] + later;
    assert forall i :: 0 < i < |at| ==> at[i] == later[i - 1];
    assert r.Got? ==> forall i :: 0 < i < n ==> r'.value[i] == r.value[i - 1];
  }
}
