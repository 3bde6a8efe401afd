/**
 The texts that comm_zmq/src/comm_handler.cpp passes between threads and nodes: decimal ids, the
 subscription request of `subscribe_to`, and the hello of `init_pub`.
 */
module Text {
  import opened Words

  // ---------------------------------------------------------------- stream extraction

  predicate IsDigit(c: char) { '0' <= c <= '9' }

  predicate IsSpace(c: char) { c == ' ' || '\t' <= c <= '\r' }

  function DigitChar(d: int): (c: char)
    requires 0 <= d < 10
  {
    (d + '0' as int) as char
  }

  function DigitValue(c: char): (d: int)
    requires IsDigit(c)
  {
    c as int - '0' as int
  }

  /** What `<<` writes for a number. */
  function Digits(n: nat): (s: string)
    ensures s != [] && IsDigit(s[0])
  {
    if n < 10 then [DigitChar(n)] else Digits(n / 10) + [DigitChar(n % 10)]
  }

  function Decimal(n: int): (s: string) { if n < 0 then "-" + Digits(-n) else Digits(n) }

  function SkipSpace(s: string): (r: string)
    ensures |r| <= |s|
  {
    if s != [] && IsSpace(s[0]) then SkipSpace(s[1..]) else s
  }

  /** The number whose digits start s, continuing from acc, and what follows it. */
  function TakeDigits(s: string, acc: nat): (r: (nat, string))
    ensures |r.1| <= |s|
  {
    if s != [] && IsDigit(s[0]) then TakeDigits(s[1..], 10 * acc + DigitValue(s[0])) else (acc, s)
  }

  /** `>>` into an int32_t: a number and the rest of the text, or failure.  The end of the text
      was reached exactly if the rest is empty. */
  datatype Number = Num(n: int, rest: string) | NotNum(rest: string)

  predicate IsInt32(n: int) { -INT_LIMIT <= n < INT_LIMIT }

  function ReadNumber(s: string): (r: Number)
    ensures |r.rest| <= |s|
    ensures r.Num? ==> |r.rest| < |s|
  {
    var t := SkipSpace(s);
    var neg := t != [] && t[0] == '-';
    var u := if t != [] && (t[0] == '-' || t[0] == '+') then t[1..] else t;
    if u == [] || !IsDigit(u[0]) then NotNum(u)
    else
      var (m, rest) := TakeDigits(u[1..], DigitValue(u[0]));
      var n := if neg then -(m as int) else m as int;
      if IsInt32(n) then Num(n, rest) else NotNum(rest)
  }

  lemma {:induction false} TakeDigitsOf(n: nat, t: string)
    ensures TakeDigits(Digits(n) + t, 0) == TakeDigits(t, n)
  {
    var c := DigitChar(n % 10);
    if n < 10 {
      assert (Digits(n) + t)[1..] == t;
    } else {
      TakeDigitsOf(n / 10, [c] + t);
      assert Digits(n) + t == Digits(n / 10) + ([c] + t);
      assert ([c] + t)[1..] == t;
    }
  }

  /** A printed int32_t followed by something that is not a digit is read back. */
  lemma NumberRoundTrip(n: int, t: string)
    requires IsInt32(n) && (t == [] || !IsDigit(t[0]))
    ensures ReadNumber(Decimal(n) + t) == Num(n, t)
  {
    DecimalThen(n, t);
    TakeDigitsOf(if n < 0 then -n else n, t);
  }

  // ---------------------------------------------------------------- subscriptions

  /** The id list of `subscribe_to`'s text. */
  function IdText(ids: seq<int>): (s: string) {
    if ids == [] then [] else [';'] + (Decimal(ids[0]) + IdText(ids[1..]))
  }

  /** `Ids`: the loop ends after subscribing to these.  `Garbage`: after these it subscribes to
      an uninitialised variable and ends.  `Spins`: after these the stream is in a failed state
      short of its end and the loop never ends. */
  datatype Subscribed = Ids(ids: seq<int>) | Garbage(ids: seq<int>) | Spins(ids: seq<int>)

  function Prepend(n: int, r: Subscribed): (r': Subscribed) { r.(ids := [n] + r.ids) }

  /** The effect of the event loop's do-while loop on the text after the '&'. */
  function ReadIds(s: string): (r: Subscribed)
    decreases |s|
  {
    var t := SkipSpace(s);
    if t == [] then Garbage([])
    else
      match ReadNumber(t[1..])
      case NotNum(rest) => if rest == [] then Garbage([]) else Spins([])
      case Num(n, rest) => if rest == [] then Ids([n]) else Prepend(n, ReadIds(rest))
  }

  /** One turn of the loop. */
  lemma ReadIdsStep(s: string, n: int, rest: string)
    requires s != [] && !IsSpace(s[0]) && ReadNumber(s[1..]) == Num(n, rest)
    ensures ReadIds(s) == if rest == [] then Ids([n]) else Prepend(n, ReadIds(rest))
  {
  }

  lemma IdsRoundTrip(ids: seq<int>)
    requires ids != [] && forall k | 0 <= k < |ids| :: IsInt32(ids[k])
    ensures ReadIds(IdText(ids)) == Ids(ids)
  {
    IdsThen(ids, []);
    assert IdText(ids) + [] == IdText(ids);
  }

  /** The text of `subscribe_to` for an address and a list of group ids. */
  function SubText(addr: string, ids: seq<int>): (s: string) { addr + (['&'] + IdText(ids)) }

  /** Position of c in s, or |s|. */
  function Find(s: string, c: char): (i: nat)
    ensures i <= |s| && (forall k | 0 <= k < i :: s[k] != c) && (i < |s| ==> s[i] == c)
  {
    if s == [] || s[0] == c then 0 else 1 + Find(s[1..], c)
  }

  /** A C string read from a buffer: everything before the first NUL. */
  function CString(s: string): (r: string) { s[..Find(s, '\0')] }

  datatype SubRequest = SubRequest(addr: string, ids: Subscribed)

  /** What the event loop makes of the bytes from the start of a request on.  Without a '&' the
      whole text is the address and, substr(npos + 1) being the whole text too, it is also the id
      list. */
  function Request(memory: string): (r: SubRequest) {
    var d := CString(memory);
    var i := Find(d, '&');
    if i == |d| then SubRequest(d, ReadIds(d)) else SubRequest(d[..i], ReadIds(d[i + 1..]))
  }

  /** What it makes of a request.  The text comes without a NUL in a buffer of its size, so what is
      read ends at the first NUL in the memory behind it. */
  function ReadSubText(text: string, behind: string): (r: SubRequest) { Request(text + behind) }

  lemma {:induction false} FindIn(s: string, c: char, t: string)
    requires c !in s
    ensures Find(s + t, c) == |s| + Find(t, c)
  {
    if s == [] {
      assert s + t == t;
    } else {
      FindIn(s[1..], c, t);
      assert (s + t)[1..] == s[1..] + t;
    }
  }

  lemma {:induction false} DigitsPlain(n: nat)
    ensures forall k | 0 <= k < |Digits(n)| :: IsDigit(Digits(n)[k])
  {
    if n < 10 {
    } else {
      DigitsPlain(n / 10);
    }
  }

  lemma {:induction false} IdTextPlain(ids: seq<int>)
    ensures '\0' !in IdText(ids)
  {
    if ids == [] {
    } else {
      var n := ids[0];
      DigitsPlain(if n < 0 then -n else n);
      IdTextPlain(ids[1..]);
    }
  }

  /** With a NUL right behind the buffer a request is understood. */
  lemma SubscriptionRoundTrip(addr: string, ids: seq<int>, behind: string)
    requires ids != [] && forall k | 0 <= k < |ids| :: IsInt32(ids[k])
    requires '&' !in addr && '\0' !in addr && CString(behind) == []
    ensures ReadSubText(SubText(addr, ids), behind) == SubRequest(addr, Ids(ids))
  {
    SubscriptionRoundTripIff(addr, ids, behind);
  }

  predicate AllZeros(s: string) { forall k | 0 <= k < |s| :: s[k] == '0' }

  /** Text behind the last id n that does not change what is read. */
  predicate Harmless(n: int, tail: string) { tail == [] || (n == 0 && AllZeros(tail)) }

  /** The request is understood exactly if it names a group, the address has neither a '&' nor a
      NUL, and the memory behind the buffer starts with a NUL, or with zeros and a NUL after a last
      id of zero. */
  lemma SubscriptionRoundTripIff(addr: string, ids: seq<int>, behind: string)
    requires forall k | 0 <= k < |ids| :: IsInt32(ids[k])
    ensures ReadSubText(SubText(addr, ids), behind) == SubRequest(addr, Ids(ids))
            <==> ids != [] && '&' !in addr && '\0' !in addr && Harmless(ids[|ids| - 1], CString(behind))
  {
    if '&' in addr || '\0' in addr {
      AddrCut(addr, ['&'] + IdText(ids) + behind);
      assert SubText(addr, ids) + behind == addr + (['&'] + IdText(ids) + behind);
    } else {
      Split(addr, ids, behind);
      if ids == [] {
        SomeIds(IdText(ids) + CString(behind));
      } else {
        IdsThen(ids, CString(behind));
      }
    }
  }

  /** A request for no group is never understood; with a NUL right behind it the loop subscribes to
      a variable it never read. */
  lemma NoGroups(addr: string, behind: string)
    requires '&' !in addr && '\0' !in addr
    ensures ReadSubText(SubText(addr, []), behind).ids != Ids([])
    ensures CString(behind) == [] ==> ReadSubText(SubText(addr, []), behind) == SubRequest(addr, Garbage([]))
  {
    Split(addr, [], behind);
    SomeIds(IdText([]) + CString(behind));
  }

  /** Digits in the memory behind a request become part of the last id. */
  lemma WrongGroup(addr: string)
    requires '&' !in addr && '\0' !in addr
    ensures ReadSubText(SubText(addr, [5]), ['7', '\0']) != SubRequest(addr, Ids([5]))
  {
    var behind := ['7', '\0'];
    assert Find(behind, '\0') == 1 && CString(behind) == ['7'];
    SubscriptionRoundTripIff(addr, [5], behind);
  }

  /** The loop subscribes to at least one group before it ends well. */
  lemma {:induction false} SomeIds(s: string)
    ensures ReadIds(s) != Ids([])
  {
  }

  /** What is read of an address without '&' and NUL and a list of ids. */
  lemma Split(addr: string, ids: seq<int>, behind: string)
    requires '&' !in addr && '\0' !in addr
    ensures ReadSubText(SubText(addr, ids), behind) == SubRequest(addr, ReadIds(IdText(ids) + CString(behind)))
  {
    var text, tail := SubText(addr, ids), ['&'] + (IdText(ids) + CString(behind));
    IdTextPlain(ids);
    FindIn(text, '\0', behind);
    assert CString(text + behind) == text + CString(behind);
    Joined(addr, IdText(ids), CString(behind));
    AtAmpersand(addr, tail);
  }

  lemma Joined(addr: string, list: string, rest: string)
    ensures addr + (['&'] + list) + rest == addr + (['&'] + (list + rest))
  {
  }

  lemma AtAmpersand(addr: string, tail: string)
    requires '&' !in addr && tail != [] && tail[0] == '&'
    ensures Find(addr + tail, '&') == |addr| < |addr + tail|
    ensures (addr + tail)[..|addr|] == addr && (addr + tail)[|addr| + 1..] == tail[1..]
  {
    FindIn(addr, '&', tail);
  }

  /** The list of ids followed by other text. */
  lemma {:induction false} IdsThen(ids: seq<int>, tail: string)
    requires ids != [] && forall k | 0 <= k < |ids| :: IsInt32(ids[k])
    ensures ReadIds(IdText(ids) + tail) == Ids(ids) <==> Harmless(ids[|ids| - 1], tail)
  {
    if |ids| == 1 {
      OneId(ids[0], tail);
      assert ids == [ids[0]];
    } else {
      IdsThen(ids[1..], tail);
      MoreIds(ids, tail);
    }
  }

  lemma OneId(n: int, tail: string)
    requires IsInt32(n)
    ensures ReadIds(IdText([n]) + tail) == Ids([n]) <==> Harmless(n, tail)
  {
    FirstId([n], tail);
    assert IdText([n][1..]) + tail == tail;
    LastThen(IdText([n]) + tail, n, tail);
  }

  lemma MoreIds(ids: seq<int>, tail: string)
    requires |ids| > 1 && IsInt32(ids[0])
    ensures ReadIds(IdText(ids) + tail) == Ids(ids) <==> ReadIds(IdText(ids[1..]) + tail) == Ids(ids[1..])
  {
    FirstId(ids, tail);
    FirstId(ids[1..], tail);
    FirstThen(IdText(ids) + tail, ids, IdText(ids[1..]) + tail);
  }

  lemma FirstId(ids: seq<int>, tail: string)
    requires ids != []
    ensures var s := IdText(ids) + tail;
            s != [] && s[0] == ';' && s[1..] == Decimal(ids[0]) + (IdText(ids[1..]) + tail)
  {
    Behind(Decimal(ids[0]), IdText(ids[1..]), tail);
  }

  lemma Behind(d: string, rest: string, tail: string)
    ensures var s := [';'] + (d + rest) + tail; s[0] == ';' && s[1..] == d + (rest + tail)
  {
    assert [';'] + (d + rest) + tail == [';'] + (d + (rest + tail));
  }

  lemma FirstThen(s: string, ids: seq<int>, rest: string)
    requires ids != [] && IsInt32(ids[0]) && s != [] && s[0] == ';' && s[1..] == Decimal(ids[0]) + rest
    requires rest != [] && rest[0] == ';'
    ensures ReadIds(s) == Ids(ids) <==> ReadIds(rest) == Ids(ids[1..])
  {
    NumberRoundTrip(ids[0], rest);
    ReadIdsStep(s, ids[0], rest);
    PrependIs(ids[0], ids, ReadIds(rest));
  }

  lemma PrependIs(n: int, ids: seq<int>, r: Subscribed)
    requires ids != [] && ids[0] == n
    ensures Prepend(n, r) == Ids(ids) <==> r == Ids(ids[1..])
  {
    assert ids == [n] + ids[1..];
    assert ([n] + r.ids)[1..] == r.ids;
  }

  lemma LastThen(s: string, n: int, tail: string)
    requires IsInt32(n) && s != [] && s[0] == ';' && s[1..] == Decimal(n) + tail
    ensures ReadIds(s) == Ids([n]) <==> Harmless(n, tail)
  {
    if tail == [] || !IsDigit(tail[0]) {
      NumberRoundTrip(n, tail);
      ReadIdsStep(s, n, tail);
      SomeIds(tail);
      PrependIs(n, [n], ReadIds(tail));
    } else {
      NumberThenDigits(n, tail);
      OneNumber(s, n);
    }
  }

  /** The only id read is n exactly if the text is the number n and nothing else. */
  lemma OneNumber(s: string, n: int)
    requires s != [] && s[0] == ';'
    ensures ReadIds(s) == Ids([n]) <==> ReadNumber(s[1..]) == Num(n, [])
  {
    match ReadNumber(s[1..])
    case NotNum(rest) =>
    case Num(m, rest) =>
      if rest != [] {
        SomeIds(rest);
        PrependIs(m, [m], ReadIds(rest));
      }
  }

  /** A number followed by further digits is read as itself only if all of them are zeros. */
  lemma NumberThenDigits(n: int, tail: string)
    requires IsInt32(n) && tail != [] && IsDigit(tail[0])
    ensures ReadNumber(Decimal(n) + tail) == Num(n, []) <==> n == 0 && AllZeros(tail)
  {
    var m := if n < 0 then -n else n;
    DecimalThen(n, tail);
    TakeDigitsOf(m, tail);
    if m == 0 { ZeroDigits(tail); } else { MoreDigits(tail, m); }
  }

  /** What is read of a printed number and what follows. */
  lemma DecimalThen(n: int, tail: string)
    ensures var m: nat := if n < 0 then -n else n;
            var (v, rest) := TakeDigits(Digits(m) + tail, 0);
            var k := if n < 0 then -(v as int) else v as int;
            ReadNumber(Decimal(n) + tail) == if IsInt32(k) then Num(k, rest) else NotNum(rest)
  {
    var m: nat := if n < 0 then -n else n;
    var s, u := Decimal(n) + tail, Digits(m) + tail;
    assert n < 0 ==> s == ['-'] + u && s[1..] == u;
    assert u[0] == Digits(m)[0] && SkipSpace(s) == s;
    assert TakeDigits(u, 0) == TakeDigits(u[1..], DigitValue(u[0]));
  }

  lemma {:induction false} TakesMore(s: string, acc: nat)
    ensures TakeDigits(s, acc).0 >= acc
  {
    if s == [] || !IsDigit(s[0]) {
    } else {
      TakesMore(s[1..], 10 * acc + DigitValue(s[0]));
    }
  }

  lemma MoreDigits(s: string, acc: nat)
    requires s != [] && IsDigit(s[0]) && acc > 0
    ensures TakeDigits(s, acc).0 > acc
  {
    TakesMore(s[1..], 10 * acc + DigitValue(s[0]));
  }

  lemma {:induction false} ZeroDigits(s: string)
    ensures TakeDigits(s, 0) == (0, []) <==> AllZeros(s)
  {
    if s == [] {
    } else if s[0] == '0' {
      ZeroDigits(s[1..]);
      assert AllZeros(s) <==> AllZeros(s[1..]) by {
        if AllZeros(s[1..]) {
          forall k | 0 <= k < |s| ensures s[k] == '0' { assert k == 0 || s[k] == s[1..][k - 1]; }
        }
      }
    } else if IsDigit(s[0]) {
      TakesMore(s[1..], DigitValue(s[0]));
    }
  }

  lemma AddrCut(addr: string, tail: string)
    requires '&' in addr || '\0' in addr
    ensures |Request(addr + tail).addr| < |addr|
  {
    var text := addr + tail;
    var d := CString(text);
    if '\0' in addr {
      var k :| 0 <= k < |addr| && addr[k] == '\0';
      assert text[k] == '\0';
    } else {
      var k :| 0 <= k < |addr| && addr[k] == '&';
      assert text[k] == '&';
      assert forall i | 0 <= i < |addr| :: text[i] == addr[i] != '\0';
      assert d[k] == '&';
    }
  }

  // ---------------------------------------------------------------- what is written

  /** The number a sequence of decimal digits stands for. */
  function Numeral(s: string): (n: int)
    requires forall k | 0 <= k < |s| :: '0' <= s[k] <= '9'
  {
    if s == [] then 0 else 10 * Numeral(s[..|s| - 1]) + (s[|s| - 1] as int - 48)
  }

  /** Numbers are written in base ten without leading zeros. */
  lemma {:induction false} DigitsAre(n: nat)
    ensures forall k | 0 <= k < |Digits(n)| :: '0' <= Digits(n)[k] <= '9'
    ensures Numeral(Digits(n)) == n
    ensures n > 0 ==> Digits(n)[0] != '0'
  {
    if n < 10 {
      assert Digits(n)[..0] == [];
    } else {
      DigitsAre(n / 10);
      assert Digits(n)[..|Digits(n)| - 1] == Digits(n / 10);
    }
  }

  /** What goes over the wire, written out. */
  lemma Written()
    ensures Decimal(0) == "0" && Decimal(120) == "120" && Decimal(-7) == "-7"
    ensures SubText("tcp://h:1", [5, -7]) == "tcp://h:1&;5;-7"
    ensures PubHello(-12) == "pub_hello&-12\0"
  {
    assert Digits(12) == Digits(1) + [DigitChar(2)] == "12";
    assert Digits(120) == Digits(12) + [DigitChar(0)] == "120";
    assert Decimal(5) == "5" && Decimal(-7) == "-7" && Decimal(-12) == "-12";
    assert [5, -7][1..] == [-7] && [-7][1..] == [];
    assert IdText([-7]) == [';'] + (Decimal(-7) + IdText([]));
    assert IdText([5, -7]) == [';'] + (Decimal(5) + IdText([-7]));
  }

  /** A request without a '&' is both the address and the list. */
  lemma NoAmpersand(text: string)
    requires '&' !in text && '\0' !in text
    ensures ReadSubText(text, ['\0']) == SubRequest(text, ReadIds(text))
  {
    FindIn(text, '\0', ['\0']);
    assert CString(text + ['\0']) == text;
    FindIn(text, '&', []);
    assert text + [] == text;
  }

  /** Lists that no `subscribe_to` writes: at the end of the text a garbage id is subscribed to, and
      a character that is no number makes the loop endless. */
  lemma Misread()
    ensures ReadIds([';']) == Garbage([]) && ReadIds([';', 'x']) == Spins([])
    ensures ReadIds([';', '5', ';']) == Garbage([5]) && ReadIds([';', '5', ';', 'x']) == Spins([5])
    ensures ReadNumber([' ', '5']) == Num(5, []) && ReadNumber(['+', '5']) == Num(5, [])
  {
    assert ReadNumber([';'][1..]) == NotNum([]);
    assert ReadNumber([';', 'x'][1..]) == NotNum(['x']);
    DigitsAre(5);
    assert Decimal(5) == ['5'];
    assert SkipSpace([' ', '5']) == ['5'] by { assert [' ', '5'][1..] == ['5']; }
    assert TakeDigits([], 5) == (5, []) && ['5'][1..] == [] && ['+', '5'][1..] == ['5'];
    NumberRoundTrip(5, [';']);
    NumberRoundTrip(5, [';', 'x']);
    assert [';', '5', ';'][1..] == Decimal(5) + [';'];
    assert [';', '5', ';', 'x'][1..] == Decimal(5) + [';', 'x'];
    ReadIdsStep([';', '5', ';'], 5, [';']);
    ReadIdsStep([';', '5', ';', 'x'], 5, [';', 'x']);
  }

  // ---------------------------------------------------------------- in the source's form

  /** The loop of `subscribe_to`. */
  method WriteSubText(addr: string, ids: seq<int>) returns (text: string)
    ensures text == SubText(addr, ids)
  {
    text := addr + ['&'];
    var list: string := [];
    for i := 0 to |ids|
      invariant list == IdText(ids[..i])
    {
      IdTextAppend(ids[..i], ids[i]);
      assert ids[..i + 1] == ids[..i] + [ids[i]];
      list := list + ([';'] + Decimal(ids[i]));
    }
    assert ids[..|ids|] == ids;
    text := text + list;
  }

  lemma {:induction false} IdTextAppend(ids: seq<int>, n: int)
    ensures IdText(ids + [n]) == IdText(ids) + ([';'] + Decimal(n))
  {
    if ids == [] {
      assert (ids + [n])[1..] == [];
      assert Decimal(n) + [] == Decimal(n);
    } else {
      IdTextAppend(ids[1..], n);
      IdTextCons(ids[0], ids[1..]);
      IdTextCons(ids[0], ids[1..] + [n]);
      assert ids == [ids[0]] + ids[1..] && ids + [n] == [ids[0]] + (ids[1..] + [n]);
      Regroup(Decimal(ids[0]), IdText(ids[1..]), [';'] + Decimal(n));
    }
  }

  lemma IdTextCons(n: int, ids: seq<int>)
    ensures IdText([n] + ids) == [';'] + (Decimal(n) + IdText(ids))
  {
    assert ([n] + ids)[1..] == ids;
  }

  lemma Regroup(a: string, b: string, c: string)
    ensures [';'] + (a + (b + c)) == [';'] + (a + b) + c
  {
  }

  function After(ids: seq<int>, r: Subscribed): (r': Subscribed) { r.(ids := ids + r.ids) }

  lemma AfterPrepend(ids: seq<int>, n: int, r: Subscribed)
    ensures After(ids, Prepend(n, r)) == After(ids + [n], r)
  {
    assert ids + ([n] + r.ids) == ids + [n] + r.ids;
  }

  /** The do-while loop of the event loop, up to the point where its outcome is settled. */
  method SubscribeLoop(gids: string) returns (r: Subscribed)
    ensures r == ReadIds(gids)
  {
    var s, ids := gids, [];
    assert [] + ReadIds(s).ids == ReadIds(s).ids;
    while true
      invariant ReadIds(gids) == After(ids, ReadIds(s))
      decreases |s|
    {
      var t := SkipSpace(s);
      if t == [] {
        return Garbage(ids + []);
      }
      var number := ReadNumber(t[1..]);
      if number.NotNum? {
        return if number.rest == [] then Garbage(ids + []) else Spins(ids + []);
      }
      if number.rest == [] {
        return Ids(ids + [number.n]);
      }
      AfterPrepend(ids, number.n, ReadIds(number.rest));
      ids, s := ids + [number.n], number.rest;
    }
  }

  /** The event loop's reading of a request. */
  method ReadRequest(text: string, behind: string) returns (addr: string, ids: Subscribed)
    ensures SubRequest(addr, ids) == ReadSubText(text, behind)
  {
    var dstr := CString(text + behind);
    var dlim := Find(dstr, '&');
    assert dstr[..|dstr|] == dstr;
    addr := dstr[..dlim];
    ids := SubscribeLoop(if dlim == |dstr| then dstr else dstr[dlim + 1..]);
  }

  // ---------------------------------------------------------------- hellos

  const PUB_HELLO := "pub_hello"
  const SUB_HELLO := "sub_hello"

  /** What `init_pub` publishes, with the terminating NUL. */
  function PubHello(id: int): (s: string) { PUB_HELLO + "&" + Decimal(id) + "\0" }

  predicate IsPubHello(data: string) { PUB_HELLO <= data }

  /** The publisher's id as a subscriber reads it; `NoId` leaves the variable uninitialised or
      zero. */
  datatype MaybeId = Id(n: int) | NoId

  function HelloId(data: string): (r: MaybeId) {
    var d := CString(data);
    var i := Find(d, '&');
    match ReadNumber(if i == |d| then d else d[i + 1..])
    case Num(n, _) => Id(n)
    case NotNum(_) => NoId
  }

  lemma HelloRoundTrip(id: int)
    requires IsInt32(id)
    ensures IsPubHello(PubHello(id)) && HelloId(PubHello(id)) == Id(id)
  {
    var body := Decimal(id);
    DigitsPlain(if id < 0 then -id else id);
    NumberRoundTrip(id, []);
    assert body + [] == body;
    assert PubHello(id) == PUB_HELLO + (['&'] + body) + ['\0'];
    HelloSplit(PUB_HELLO, ['&'] + body);
  }

  /** A text with a leading part without '&' and a final NUL. */
  lemma HelloSplit(head: string, tail: string)
    requires '&' !in head && '\0' !in head && '\0' !in tail && tail != [] && tail[0] == '&'
    ensures var d := CString(head + tail + ['\0']);
            d == head + tail && Find(d, '&') == |head| && d[|head| + 1..] == tail[1..]
  {
    var text := head + tail;
    FindIn(text, '\0', ['\0']);
    assert CString(text + ['\0']) == text;
    FindIn(head, '&', tail);
  }
}
