/**
 The Redis wire protocol client (plugins/redis/accessor.go): a printer for commands and
 a recursive reader for RESP2 replies.
 */
module Resp {
  import opened Common

  const MAX_BULK_SIZE: nat := 1048576
  const MAX_INT64: int := 9223372036854775807
  const MIN_INT64: int := -9223372036854775808

  const PLUS: byte := 43
  const MINUS: byte := 45
  const COLON: byte := 58
  const DOLLAR: byte := 36
  const STAR: byte := 42
  const CRLF: seq<byte> := [CR, LF]

  // ---------------------------------------------------------------- decimal numbers

  function Digits(n: nat): (s: seq<byte>)
    ensures s != []
  {
    if n < 10 then [48 + n] else Digits(n / 10) + [48 + n % 10]
  }

  function Itoa(n: int): (s: seq<byte>) {
    if n < 0 then [MINUS] + Digits(-n) else Digits(n)
  }

  predicate AllDigits(s: seq<byte>) {
    forall i :: 0 <= i < |s| ==> 48 <= s[i] <= 57
  }

  function DigitsValue(s: seq<byte>): (n: nat)
    requires AllDigits(s)
  {
    if s == [] then 0 else DigitsValue(s[..|s| - 1]) * 10 + (s[|s| - 1] - 48)
  }

  /** strconv.ParseInt(s, 10, 64). */
  function ParseInt(s: seq<byte>): (r: Option<int>) {
    if s == [] then None
    else
      var body := if s[0] == PLUS || s[0] == MINUS then s[1..] else s;
      if body == [] || !AllDigits(body) then None
      else
        var v: int := if s[0] == MINUS then 0 - DigitsValue(body) else DigitsValue(body);
        if MIN_INT64 <= v <= MAX_INT64 then Some(v) else None
  }

  lemma {:induction false} DigitsRoundTrip(n: nat)
    ensures AllDigits(Digits(n)) && DigitsValue(Digits(n)) == n
  {
    if n < 10 {
      assert Digits(n)[..0] == [];
    } else {
      DigitsRoundTrip(n / 10);
      assert Digits(n)[..|Digits(n)| - 1] == Digits(n / 10);
    }
  }

  lemma ItoaRoundTrip(n: int)
    requires MIN_INT64 <= n <= MAX_INT64
    ensures ParseInt(Itoa(n)) == Some(n)
    ensures LF !in Itoa(n)
  {
    var m := if n < 0 then -n else n;
    DigitsRoundTrip(m);
    if n < 0 {
      assert Itoa(n)[1..] == Digits(m);
    }
  }

  // ---------------------------------------------------------------- reading

  /** What the client hands to its callers: nil, a string, or a list. */
  datatype Value = Nil | Str(s: seq<byte>) | Arr(elems: seq<Value>)

  datatype Error = Eof | BadNumber | TooBig | BadPrefix | ServerError(msg: seq<byte>)

  /** The result of a read and the bytes the reader is left with. */
  datatype Read<+T> = Got(value: T, rest: seq<byte>) | Fail(error: Error, rest: seq<byte>)

  function FirstLF(bs: seq<byte>): (i: nat)
    ensures i <= |bs|
    ensures LF !in bs[..i]
    ensures i < |bs| ==> bs[i] == LF
  {
    if bs == [] || bs[0] == LF then 0
    else
      var i := FirstLF(bs[1..]);
      assert bs[..i + 1] == [bs[0]] + bs[1..][..i];
      i + 1
  }

  function TrimCR(line: seq<byte>): (r: seq<byte>) {
    if line != [] && line[|line| - 1] == CR then line[..|line| - 1] else line
  }

  function ReadLine(bs: seq<byte>): (r: Read<seq<byte>>)
    ensures if r.Got? then |r.rest| < |bs| else |r.rest| <= |bs|
  {
    var i := FirstLF(bs);
    if i == |bs| then Fail(Eof, []) else Got(TrimCR(bs[..i]), bs[i + 1..])
  }

  function ReadNumber(bs: seq<byte>): (r: Read<int>)
    ensures if r.Got? then |r.rest| < |bs| else |r.rest| <= |bs|
  {
    match ReadLine(bs)
    case Fail(e, rest) => Fail(e, rest)
    case Got(line, rest) =>
      match ParseInt(line)
      case None => Fail(BadNumber, rest)
      case Some(n) => Got(n, rest)
  }

  function ReadBulk(bs: seq<byte>): (r: Read<Value>)
    ensures if r.Got? then |r.rest| < |bs| else |r.rest| <= |bs|
  {
    match ReadNumber(bs)
    case Fail(e, rest) => Fail(e, rest)
    case Got(size, rest) =>
      if size < 0 then Got(Nil, rest)
      else if size > MAX_BULK_SIZE then Fail(TooBig, rest)
      else if size + 2 > |rest| then Fail(Eof, [])
      else Got(Str(rest[..size]), rest[size + 2..])
  }

  function ReadValue(bs: seq<byte>): (r: Read<Value>)
    ensures if r.Got? then |r.rest| < |bs| else |r.rest| <= |bs|
    decreases |bs|, 2
  {
    if bs == [] then Fail(Eof, []) else ReadTagged(bs[0], bs[1..])
  }

  /** What follows the prefix byte of a reply. */
  function ReadTagged(prefix: byte, bs: seq<byte>): (r: Read<Value>)
    ensures |r.rest| <= |bs|
    decreases |bs|, 3
  {
    if prefix == PLUS then
      match ReadLine(bs)
      case Fail(e, rest) => Fail(e, rest)
      case Got(line, rest) => Got(Str(line), rest)
    else if prefix == MINUS then
      match ReadLine(bs)
      case Fail(e, rest) => Fail(e, rest)
      case Got(line, rest) => Fail(ServerError(line), rest)
    else if prefix == COLON then
      match ReadNumber(bs)
      case Fail(e, rest) => Fail(e, rest)
      case Got(n, rest) => Got(Str(Itoa(n)), rest)
    else if prefix == DOLLAR then ReadBulk(bs)
    else if prefix == STAR then
      match ReadNumber(bs)
      case Fail(e, rest) => Fail(e, rest)
      case Got(count, rest) =>
        if count < 0 then Got(Nil, rest)
        else
          match ReadElems(count, rest)
          case Fail(e, rest') => Fail(e, rest')
          case Got(elems, rest') => Got(Arr(elems), rest')
    else Fail(BadPrefix, bs)
  }

  /** `count` values in a row; the first failure aborts and leaves the rest unread. */
  function ReadElems(count: nat, bs: seq<byte>): (r: Read<seq<Value>>)
    ensures |r.rest| <= |bs|
    decreases |bs|, 4
  {
    if count == 0 then Got([], bs)
    else
      match ReadValue(bs)
      case Fail(e, rest) => Fail(e, rest)
      case Got(v, rest) =>
        match ReadElems(count - 1, rest)
        case Fail(e, rest') => Fail(e, rest')
        case Got(vs, rest') => Got([v] + vs, rest')
  }

  // ---------------------------------------------------------------- what servers send

  /** RESP2 replies. */
  datatype Reply =
    | Simple(text: seq<byte>)
    | Err(msg: seq<byte>)
    | Int(n: int)
    | Bulk(data: seq<byte>)
    | NullBulk
    | NullArray
    | Array(elems: seq<Reply>)

  function Header(prefix: byte, n: int): (bs: seq<byte>) {
    [prefix] + Itoa(n) + CRLF
  }

  function Encode(r: Reply): (bs: seq<byte>)
    decreases r, 0
  {
    match r
    case Simple(text) => [PLUS] + text + CRLF
    case Err(msg) => [MINUS] + msg + CRLF
    case Int(n) => Header(COLON, n)
    case Bulk(data) => Header(DOLLAR, |data|) + data + CRLF
    case NullBulk => Header(DOLLAR, -1)
    case NullArray => Header(STAR, -1)
    case Array(elems) => Header(STAR, |elems|) + EncodeAll(elems)
  }

  function EncodeAll(rs: seq<Reply>): (bs: seq<byte>)
    decreases rs, 1
  {
    if rs == [] then [] else Encode(rs[0]) + EncodeAll(rs[1..])
  }

  /** Replies a server may send: line payloads without a newline, 64-bit numbers, bulk
      strings within the client's limit. */
  predicate Legal(r: Reply)
    decreases r, 0
  {
    match r
    case Simple(text) => LF !in text
    case Err(msg) => LF !in msg
    case Int(n) => MIN_INT64 <= n <= MAX_INT64
    case Bulk(data) => |data| <= MAX_BULK_SIZE
    case NullBulk => true
    case NullArray => true
    case Array(elems) => |elems| <= MAX_INT64 && AllLegal(elems)
  }

  predicate AllLegal(rs: seq<Reply>)
    decreases rs, 1
  {
    rs == [] || (Legal(rs[0]) && AllLegal(rs[1..]))
  }

  /** The value a reply stands for; an error reply stands for none. */
  function Denote(r: Reply): (v: Value)
    decreases r, 0
  {
    match r
    case Simple(text) => Str(text)
    case Err(_) => Nil
    case Int(n) => Str(Itoa(n))
    case Bulk(data) => Str(data)
    case NullBulk => Nil
    case NullArray => Nil
    case Array(elems) => Arr(DenoteAll(elems))
  }

  function DenoteAll(rs: seq<Reply>): (vs: seq<Value>)
    decreases rs, 1
  {
    if rs == [] then [] else [Denote(rs[0])] + DenoteAll(rs[1..])
  }

  /** The first error in reading order, and the bytes of the reply that follow it. */
  datatype Abort = Abort(msg: seq<byte>, unread: seq<byte>)

  function FirstError(r: Reply): (a: Option<Abort>)
    decreases r, 0
  {
    match r
    case Err(msg) => Some(Abort(msg, []))
    case Array(elems) => FirstErrorIn(elems)
    case _ => None
  }

  function FirstErrorIn(rs: seq<Reply>): (a: Option<Abort>)
    decreases rs, 1
  {
    if rs == [] then None
    else
      match FirstError(rs[0])
      case Some(a) => Some(Abort(a.msg, a.unread + EncodeAll(rs[1..])))
      case None => FirstErrorIn(rs[1..])
  }

  /** What reading the encoding of a reply must yield. */
  function Expected<T>(a: Option<Abort>, v: T, rest: seq<byte>): (r: Read<T>) {
    match a
    case None => Got(v, rest)
    case Some(abort) => Fail(ServerError(abort.msg), abort.unread + rest)
  }

  // ---------------------------------------------------------------- framing

  lemma {:induction false} FirstLFSkips(a: seq<byte>, b: seq<byte>)
    requires LF !in a
    ensures FirstLF(a + [LF] + b) == |a|
  {
    var s := a + [LF] + b;
    if a != [] {
      assert s[1..] == a[1..] + [LF] + b;
      FirstLFSkips(a[1..], b);
    }
  }

  lemma ReadLineOf(line: seq<byte>, rest: seq<byte>)
    requires LF !in line
    ensures ReadLine(line + CRLF + rest) == Got(line, rest)
  {
    var s := line + CRLF + rest;
    assert s == (line + [CR]) + [LF] + rest;
    FirstLFSkips(line + [CR], rest);
    assert s[..|line| + 1] == line + [CR];
    assert (line + [CR])[..|line|] == line;
    assert s[|line| + 2..] == rest;
  }

  lemma ReadNumberOf(prefix: byte, n: int, rest: seq<byte>)
    requires MIN_INT64 <= n <= MAX_INT64
    ensures var bs := Header(prefix, n) + rest;
      bs[0] == prefix && ReadNumber(bs[1..]) == Got(n, rest)
  {
    ItoaRoundTrip(n);
    ReadLineOf(Itoa(n), rest);
    assert (Header(prefix, n) + rest)[1..] == Itoa(n) + CRLF + rest;
  }

  lemma ReadBulkOf(data: seq<byte>, rest: seq<byte>)
    requires |data| <= MAX_INT64
    ensures ReadValue(Encode(Bulk(data)) + rest) ==
      if |data| <= MAX_BULK_SIZE then Got(Str(data), rest) else Fail(TooBig, data + CRLF + rest)
  {
    var head, tail := Header(DOLLAR, |data|), data + CRLF + rest;
    ReadNumberOf(DOLLAR, |data|, tail);
    Assoc(head, data, CRLF, rest);
    BulkPayload((head + tail)[1..], data, rest);
  }

  lemma Assoc<T>(a: seq<T>, b: seq<T>, c: seq<T>, d: seq<T>)
    ensures a + b + c + d == a + (b + c + d)
  {
  }

  lemma BulkPayload(bs: seq<byte>, data: seq<byte>, rest: seq<byte>)
    requires ReadNumber(bs) == Got(|data|, data + CRLF + rest)
    ensures ReadBulk(bs) ==
      if |data| <= MAX_BULK_SIZE then Got(Str(data), rest) else Fail(TooBig, data + CRLF + rest)
  {
    var tail := data + CRLF + rest;
    assert tail[..|data|] == data && tail[|data| + 2..] == rest;
  }

  /** Reading what a server sent, followed by anything: an error-free reply comes back
      whole and leaves exactly the rest; a reply with an error inside fails with the
      first error and leaves what follows it inside the reply unread. */
  lemma {:induction false} ReadEncoded(r: Reply, rest: seq<byte>)
    requires Legal(r)
    ensures ReadValue(Encode(r) + rest) == Expected(FirstError(r), Denote(r), rest)
    decreases r, 0
  {
    match r
    case Simple(text) =>
      ReadTextOf(PLUS, text, rest);
    case Err(msg) =>
      ReadTextOf(MINUS, msg, rest);
    case Int(n) =>
      ReadIntOf(n, rest);
    case Bulk(data) =>
      ReadBulkOf(data, rest);
    case NullBulk =>
      ReadNumberOf(DOLLAR, -1, rest);
    case NullArray =>
      ReadNumberOf(STAR, -1, rest);
    case Array(elems) =>
      ReadArrayOf(elems, rest);
      ReadEncodedAll(elems, rest);
  }

  lemma ReadTextOf(prefix: byte, text: seq<byte>, rest: seq<byte>)
    requires LF !in text && (prefix == PLUS || prefix == MINUS)
    ensures ReadValue([prefix] + text + CRLF + rest) ==
      if prefix == PLUS then Got(Str(text), rest) else Fail(ServerError(text), rest)
  {
    ReadLineOf(text, rest);
    assert ([prefix] + text + CRLF + rest)[1..] == text + CRLF + rest;
  }

  lemma ReadIntOf(n: int, rest: seq<byte>)
    requires MIN_INT64 <= n <= MAX_INT64
    ensures ReadValue(Header(COLON, n) + rest) == Got(Str(Itoa(n)), rest)
  {
    ReadNumberOf(COLON, n, rest);
  }

  lemma ReadArrayOf(elems: seq<Reply>, rest: seq<byte>)
    requires |elems| <= MAX_INT64
    ensures var r := ReadElems(|elems|, EncodeAll(elems) + rest);
      ReadValue(Encode(Array(elems)) + rest) ==
        if r.Fail? then Fail(r.error, r.rest) else Got(Arr(r.value), r.rest)
  {
    ReadNumberOf(STAR, |elems|, EncodeAll(elems) + rest);
    assert Encode(Array(elems)) + rest == Header(STAR, |elems|) + (EncodeAll(elems) + rest);
  }

  lemma {:induction false} ReadEncodedAll(rs: seq<Reply>, rest: seq<byte>)
    requires AllLegal(rs)
    ensures ReadElems(|rs|, EncodeAll(rs) + rest) == Expected(FirstErrorIn(rs), DenoteAll(rs), rest)
    decreases rs, 1
  {
    if rs == [] {
      assert EncodeAll(rs) + rest == rest;
    } else {
      var tail := EncodeAll(rs[1..]) + rest;
      assert EncodeAll(rs) + rest == Encode(rs[0]) + tail;
      ReadEncoded(rs[0], tail);
      if FirstError(rs[0]).None? {
        ReadEncodedAll(rs[1..], rest);
      }
      ReadFirstThenRest(rs, Encode(rs[0]) + tail, tail, rest);
    }
  }

  lemma {:induction false} ReadFirstThenRest(rs: seq<Reply>, bs: seq<byte>, tail: seq<byte>, rest: seq<byte>)
    requires rs != [] && tail == EncodeAll(rs[1..]) + rest
    requires ReadValue(bs) == Expected(FirstError(rs[0]), Denote(rs[0]), tail)
    requires FirstError(rs[0]).None? ==>
      ReadElems(|rs| - 1, tail) == Expected(FirstErrorIn(rs[1..]), DenoteAll(rs[1..]), rest)
    ensures ReadElems(|rs|, bs) == Expected(FirstErrorIn(rs), DenoteAll(rs), rest)
  {
    if FirstError(rs[0]).Some? {
      var a := FirstError(rs[0]).value;
      assert a.unread + tail == a.unread + EncodeAll(rs[1..]) + rest;
    }
  }

  predicate ErrorFree(r: Reply)
    decreases r, 0
  {
    match r
    case Err(_) => false
    case Array(elems) => AllErrorFree(elems)
    case _ => true
  }

  predicate AllErrorFree(rs: seq<Reply>)
    decreases rs, 1
  {
    rs == [] || (ErrorFree(rs[0]) && AllErrorFree(rs[1..]))
  }

  lemma {:induction false} ErrorFreeIff(r: Reply)
    ensures ErrorFree(r) <==> FirstError(r).None?
    decreases r, 0
  {
    if r.Array? {
      AllErrorFreeIff(r.elems);
    }
  }

  lemma {:induction false} AllErrorFreeIff(rs: seq<Reply>)
    ensures AllErrorFree(rs) <==> FirstErrorIn(rs).None?
    decreases rs, 1
  {
    if rs != [] {
      ErrorFreeIff(rs[0]);
      AllErrorFreeIff(rs[1..]);
    }
  }

  /** Framing round trip: the reply is recovered exactly when it holds no error, and the
      reader is left at the next reply exactly when no bytes follow the first error. */
  lemma FramingRoundTrip(r: Reply, rest: seq<byte>)
    requires Legal(r)
    ensures ErrorFree(r) <==> ReadValue(Encode(r) + rest) == Got(Denote(r), rest)
    ensures ReadValue(Encode(r) + rest).rest == rest <==>
      FirstError(r).None? || FirstError(r).value.unread == []
  {
    ReadEncoded(r, rest);
    ErrorFreeIff(r);
  }

  // ---------------------------------------------------------------- streams that end too soon

  lemma {:induction false} NoNewlineNoLine(bs: seq<byte>)
    requires LF !in bs
    ensures ReadLine(bs) == Fail(Eof, [])
  {
    assert FirstLF(bs) == |bs|;
  }

  lemma CutLine(line: seq<byte>, k: nat)
    requires LF !in line && k < |line| + 2
    ensures ReadLine((line + CRLF)[..k]) == Fail(Eof, [])
  {
    assert forall i :: 0 <= i < k ==> (line + CRLF)[..k][i] != LF;
    NoNewlineNoLine((line + CRLF)[..k]);
  }

  lemma CutHeader(n: int, k: nat)
    requires MIN_INT64 <= n <= MAX_INT64 && k < |Itoa(n)| + 2
    ensures ReadNumber((Itoa(n) + CRLF)[..k]) == Fail(Eof, [])
  {
    ItoaRoundTrip(n);
    CutLine(Itoa(n), k);
  }

  lemma CutFront(a: seq<byte>, b: seq<byte>, k: nat)
    requires k <= |a| + |b|
    ensures k <= |a| ==> (a + b)[..k] == a[..k]
    ensures k >= |a| ==> (a + b)[..k] == a + b[..k - |a|]
  {
  }

  /** What a cut reply is read as: its prefix byte, then the cut rest. */
  lemma CutTag(prefix: byte, rest: seq<byte>, k: nat)
    requires k <= |rest|
    ensures ReadValue(([prefix] + rest)[..k + 1]) == ReadTagged(prefix, rest[..k])
  {
    var e := ([prefix] + rest)[..k + 1];
    assert e[0] == prefix && e[1..] == rest[..k];
  }

  lemma CutBulk(data: seq<byte>, k: nat)
    requires |data| <= MAX_BULK_SIZE && k < |Itoa(|data|) + CRLF| + |data + CRLF|
    ensures ReadBulk((Itoa(|data|) + CRLF + (data + CRLF))[..k]) == Fail(Eof, [])
  {
    var head, tail := Itoa(|data|) + CRLF, data + CRLF;
    CutFront(head, tail, k);
    if k < |head| {
      CutHeader(|data|, k);
    } else {
      ItoaRoundTrip(|data|);
      ReadLineOf(Itoa(|data|), tail[..k - |head|]);
    }
  }

  lemma CutArray(count: nat, elems: seq<byte>, k: nat)
    requires count <= MAX_INT64 && k < |Itoa(count) + CRLF| + |elems|
    requires k >= |Itoa(count) + CRLF| ==>
      ReadElems(count, elems[..k - |Itoa(count) + CRLF|]) == Fail(Eof, [])
    ensures ReadTagged(STAR, (Itoa(count) + CRLF + elems)[..k]) == Fail(Eof, [])
  {
    var head := Itoa(count) + CRLF;
    CutFront(head, elems, k);
    if k < |head| {
      CutHeader(count, k);
    } else {
      ItoaRoundTrip(count);
      ReadLineOf(Itoa(count), elems[..k - |head|]);
    }
  }

  /** A reply without its prefix byte. */
  function Untagged(r: Reply): (bs: seq<byte>)
    requires !r.Err?
  {
    match r
    case Simple(text) => text + CRLF
    case Int(n) => Itoa(n) + CRLF
    case Bulk(data) => Itoa(|data|) + CRLF + (data + CRLF)
    case NullBulk => Itoa(-1) + CRLF
    case NullArray => Itoa(-1) + CRLF
    case Array(elems) => Itoa(|elems|) + CRLF + EncodeAll(elems)
  }

  function Tag(r: Reply): (prefix: byte)
    requires !r.Err?
  {
    match r
    case Simple(_) => PLUS
    case Int(_) => COLON
    case Bulk(_) => DOLLAR
    case NullBulk => DOLLAR
    case NullArray => STAR
    case Array(_) => STAR
  }

  lemma EncodeUntagged(r: Reply)
    requires !r.Err?
    ensures Encode(r) == [Tag(r)] + Untagged(r)
  {
  }

  /** A stream that ends inside an error-free reply, wherever that is, reads as the end of
      input with nothing left over. */
  lemma {:induction false} CutReplyFails(r: Reply, k: nat)
    requires Legal(r) && ErrorFree(r) && k < |Encode(r)|
    ensures ReadValue(Encode(r)[..k]) == Fail(Eof, [])
    decreases r, 2
  {
    if k > 0 {
      EncodeUntagged(r);
      CutTag(Tag(r), Untagged(r), k - 1);
      CutUntagged(r, k - 1);
    }
  }

  lemma {:induction false} CutUntagged(r: Reply, k: nat)
    requires Legal(r) && ErrorFree(r) && k < |Untagged(r)|
    ensures ReadTagged(Tag(r), Untagged(r)[..k]) == Fail(Eof, [])
    decreases r, 1
  {
    match r
    case Simple(text) => CutLine(text, k);
    case Int(n) => CutHeader(n, k);
    case NullBulk => CutHeader(-1, k);
    case NullArray => CutHeader(-1, k);
    case Bulk(data) => CutBulk(data, k);
    case Array(elems) =>
      var head := Itoa(|elems|) + CRLF;
      if k >= |head| {
        CutElementsFail(elems, k - |head|);
      }
      CutArray(|elems|, EncodeAll(elems), k);
  }

  lemma {:induction false} CutElementsFail(rs: seq<Reply>, k: nat)
    requires AllLegal(rs) && AllErrorFree(rs) && k < |EncodeAll(rs)|
    ensures ReadElems(|rs|, EncodeAll(rs)[..k]) == Fail(Eof, [])
    decreases rs, 1
  {
    var first, tail := Encode(rs[0]), EncodeAll(rs[1..]);
    if k < |first| {
      assert (first + tail)[..k] == first[..k];
      CutReplyFails(rs[0], k);
    } else {
      assert (first + tail)[..k] == first + tail[..k - |first|];
      ReadEncoded(rs[0], tail[..k - |first|]);
      ErrorFreeIff(rs[0]);
      CutElementsFail(rs[1..], k - |first|);
    }
  }

  // ---------------------------------------------------------------- commands

  function Bulks(args: seq<seq<byte>>): (rs: seq<Reply>)
    ensures |rs| == |args|
  {
    if args == [] then [] else [Bulk(args[0])] + Bulks(args[1..])
  }

  function Strs(args: seq<seq<byte>>): (vs: seq<Value>) {
    if args == [] then [] else [Str(args[0])] + Strs(args[1..])
  }

  predicate AllSmall(args: seq<seq<byte>>) {
    forall i :: 0 <= i < |args| ==> |args[i]| <= MAX_BULK_SIZE
  }

  predicate AllCountable(args: seq<seq<byte>>) {
    forall i :: 0 <= i < |args| ==> |args[i]| <= MAX_INT64
  }

  /** A command is an array of bulk strings. */
  function Command(args: seq<seq<byte>>): (bs: seq<byte>) {
    Encode(Array(Bulks(args)))
  }

  lemma {:induction false} ReadArguments(args: seq<seq<byte>>, rest: seq<byte>)
    requires AllCountable(args)
    ensures var r := ReadElems(|args|, EncodeAll(Bulks(args)) + rest);
      if AllSmall(args) then r == Got(Strs(args), rest) else r.Fail? && r.error == TooBig
  {
    if args == [] {
      assert EncodeAll(Bulks(args)) + rest == rest;
    } else {
      var rs := Bulks(args);
      var tail := EncodeAll(rs[1..]) + rest;
      assert rs[1..] == Bulks(args[1..]);
      assert EncodeAll(rs) + rest == Encode(rs[0]) + tail;
      ReadBulkOf(args[0], tail);
      ReadArguments(args[1..], rest);
      assert AllSmall(args) <==> |args[0]| <= MAX_BULK_SIZE && AllSmall(args[1..]) by {
        assert forall i :: 1 <= i < |args| ==> args[i] == args[1..][i - 1];
      }
    }
  }

  /** Command round trip: for any arguments, reading the command's bytes followed by any
      rest gives back the arguments and leaves the rest untouched, exactly when every
      argument is within the 1 MiB bulk limit. */
  lemma CommandRoundTrip(args: seq<seq<byte>>, rest: seq<byte>)
    requires |args| <= MAX_INT64 && AllCountable(args)
    ensures ReadValue(Command(args) + rest) == Got(Arr(Strs(args)), rest) <==> AllSmall(args)
    ensures !AllSmall(args) ==>
      ReadValue(Command(args) + rest).Fail? && ReadValue(Command(args) + rest).error == TooBig
  {
    ReadArrayOf(Bulks(args), rest);
    ReadArguments(args, rest);
  }

  method WriteCommand(args: seq<seq<byte>>) returns (b: seq<byte>)
    ensures b == Command(args)
  {
    b := [STAR];
    b := b + Itoa(|args|);
    b := b + CRLF;
    ghost var header := b;
    for i := 0 to |args|
      invariant b + EncodeAll(Bulks(args[i..])) == header + EncodeAll(Bulks(args))
    {
      ghost var before := b;
      b := b + [DOLLAR];
      b := b + Itoa(|args[i]|);
      b := b + CRLF;
      assert b == before + Header(DOLLAR, |args[i]|);
      b := b + args[i];
      b := b + CRLF;
      OneArgument(before, Header(DOLLAR, |args[i]|), args[i..]);
      assert args[i..][1..] == args[i + 1..];
    }
    assert args[|args|..] == [];
    assert b + [] == b;
    assert header == Header(STAR, |Bulks(args)|);
  }

  lemma OneArgument(before: seq<byte>, head: seq<byte>, args: seq<seq<byte>>)
    requires args != [] && head == Header(DOLLAR, |args[0]|)
    ensures before + head + args[0] + CRLF + EncodeAll(Bulks(args[1..])) == before + EncodeAll(Bulks(args))
  {
    var tail := EncodeAll(Bulks(args[1..]));
    assert Bulks(args)[1..] == Bulks(args[1..]);
    assert EncodeAll(Bulks(args)) == (head + args[0] + CRLF) + tail;
    Regroup(before, head, args[0], CRLF, tail);
  }

  lemma Regroup<T>(a: seq<T>, b: seq<T>, c: seq<T>, d: seq<T>, e: seq<T>)
    ensures a + b + c + d + e == a + ((b + c + d) + e)
  {
  }

  // ---------------------------------------------------------------- the reader object

  /** A buffered connection: the bytes that have not been consumed yet. */
  class Reader {
    var rest: seq<byte>

    constructor (bytes: seq<byte>)
      ensures rest == bytes
    {
      rest := bytes;
    }

    /** Reads one line and strips its terminator. */
    method ReadLineM() returns (r: Read<seq<byte>>)
      modifies this
      ensures r == ReadLine(old(rest)) && rest == r.rest
    {
      var line: seq<byte> := [];
      var i := 0;
      while i < |rest| && rest[i] != LF
        invariant 0 <= i <= |rest| && rest == old(rest)
        invariant FirstLF(rest) == i + FirstLF(rest[i..])
      {
        assert rest[i..][1..] == rest[i + 1..];
        i := i + 1;
      }
      if i == |rest| {
        rest := [];
        return Fail(Eof, []);
      }
      line := TrimCR(rest[..i]);
      rest := rest[i + 1..];
      return Got(line, rest);
    }

    /** Fills a buffer from reads of arbitrary sizes. */
    method ReadFull(n: nat) returns (buf: seq<byte>, ok: bool)
      modifies this
      ensures ok <==> n <= |old(rest)|
      ensures ok ==> buf == old(rest)[..n] && rest == old(rest)[n..]
      ensures !ok ==> rest == []
    {
      buf := [];
      while |buf| < n
        invariant |buf| <= n && buf + rest == old(rest)
      {
        if rest == [] {
          return buf, false;
        }
        var k :| 1 <= k <= |rest| && |buf| + k <= n;
        buf := buf + rest[..k];
        rest := rest[k..];
      }
      assert old(rest)[..n] == buf;
      return buf, true;
    }

    method ReadNumberM() returns (r: Read<int>)
      modifies this
      ensures r == ReadNumber(old(rest)) && rest == r.rest
    {
      var line := ReadLineM();
      if line.Fail? {
        return Fail(line.error, rest);
      }
      match ParseInt(line.value)
      case None => r := Fail(BadNumber, rest);
      case Some(n) => r := Got(n, rest);
    }

    method ReadBulkM() returns (r: Read<Value>)
      modifies this
      ensures r == ReadBulk(old(rest)) && rest == r.rest
    {
      var size := ReadNumberM();
      if size.Fail? {
        return Fail(size.error, rest);
      }
      if size.value < 0 {
        return Got(Nil, rest);
      }
      if size.value > MAX_BULK_SIZE {
        return Fail(TooBig, rest);
      }
      var buf, ok := ReadFull(size.value + 2);
      if !ok {
        return Fail(Eof, rest);
      }
      assert buf[..size.value] == size.rest[..size.value];
      return Got(Str(buf[..size.value]), rest);
    }

    /** The recursive reader; it terminates because every value consumes input. */
    method ReadReplyValue() returns (r: Read<Value>)
      modifies this
      ensures r == ReadValue(old(rest)) && rest == r.rest
      decreases |rest|, 0
    {
      if rest == [] {
        return Fail(Eof, rest);
      }
      var prefix := rest[0];
      rest := rest[1..];
      if prefix == PLUS {
        var line := ReadLineM();
        return if line.Fail? then Fail(line.error, rest) else Got(Str(line.value), rest);
      } else if prefix == MINUS {
        var line := ReadLineM();
        return if line.Fail? then Fail(line.error, rest) else Fail(ServerError(line.value), rest);
      } else if prefix == COLON {
        var n := ReadNumberM();
        return if n.Fail? then Fail(n.error, rest) else Got(Str(Itoa(n.value)), rest);
      } else if prefix == DOLLAR {
        r := ReadBulkM();
      } else if prefix == STAR {
        var count := ReadNumberM();
        if count.Fail? {
          return Fail(count.error, rest);
        }
        if count.value < 0 {
          return Got(Nil, rest);
        }
        var elems := ReadArray(count.value);
        return if elems.Fail? then Fail(elems.error, rest) else Got(Arr(elems.value), rest);
      } else {
        return Fail(BadPrefix, rest);
      }
    }

    /** Fills the elements of an array one after the other. */
    method ReadArray(count: nat) returns (r: Read<seq<Value>>)
      modifies this
      ensures r == ReadElems(count, old(rest)) && rest == r.rest
      decreases |rest|, 1
    {
      var elems: seq<Value> := [];
      ghost var goal := ReadInto(elems, count, rest);
      ReadIntoNone(count, rest);
      for i := 0 to count
        invariant |rest| <= old(|rest|)
        invariant goal == ReadInto(elems, count - i, rest)
      {
        var v := ReadReplyValue();
        if v.Fail? {
          return Fail(v.error, rest);
        }
        elems := elems + [v.value];
      }
      return Got(elems, rest);
    }
  }

  /** The loop of the array case: elements are added to those already read. */
  function ReadInto(elems: seq<Value>, n: nat, bs: seq<byte>): (r: Read<seq<Value>>)
    decreases n
  {
    if n == 0 then Got(elems, bs)
    else
      match ReadValue(bs)
      case Fail(e, rest) => Fail(e, rest)
      case Got(v, rest) => ReadInto(elems + [v], n - 1, rest)
  }

  lemma {:induction false} ReadIntoPrepends(elems: seq<Value>, n: nat, bs: seq<byte>)
    ensures ReadInto(elems, n, bs) == Prepend(elems, ReadElems(n, bs))
    decreases n
  {
    if n == 0 {
      PrependEnd(elems, bs);
    } else {
      ElemsStep(elems, n, bs);
      var v := ReadValue(bs);
      if v.Got? {
        ReadIntoPrepends(elems + [v.value], n - 1, v.rest);
      }
    }
  }

  lemma ReadIntoNone(n: nat, bs: seq<byte>)
    ensures ReadInto([], n, bs) == ReadElems(n, bs)
  {
    ReadIntoPrepends([], n, bs);
    PrependNone(ReadElems(n, bs));
  }

  function Prepend(vs: seq<Value>, r: Read<seq<Value>>): (p: Read<seq<Value>>) {
    match r
    case Fail(e, rest) => Fail(e, rest)
    case Got(more, rest) => Got(vs + more, rest)
  }

  lemma PrependNone(r: Read<seq<Value>>)
    ensures Prepend([], r) == r
  {
    if r.Got? {
      assert [] + r.value == r.value;
    }
  }

  lemma PrependEnd(vs: seq<Value>, rest: seq<byte>)
    ensures Prepend(vs, ReadElems(0, rest)) == Got(vs, rest)
  {
    assert vs + [] == vs;
  }

  /** One element of an array read. */
  lemma ElemsStep(done: seq<Value>, n: nat, bs: seq<byte>)
    requires n > 0
    ensures var v := ReadValue(bs);
      Prepend(done, ReadElems(n, bs)) ==
        if v.Fail? then Fail(v.error, v.rest) else Prepend(done + [v.value], ReadElems(n - 1, v.rest))
  {
    var v := ReadValue(bs);
    if v.Got? {
      PrependOne(done, v.value, ReadElems(n - 1, v.rest));
    }
  }

  lemma PrependOne(vs: seq<Value>, v: Value, r: Read<seq<Value>>)
    ensures Prepend(vs + [v], r) == Prepend(vs, Prepend([v], r))
  {
    if r.Got? {
      assert vs + [v] + r.value == vs + ([v] + r.value);
    }
  }
}
