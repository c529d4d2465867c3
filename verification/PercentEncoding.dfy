/**
 * `encodeURIComponent` and `decodeURIComponent`: percent-encoded octets (section 2.1 of RFC 3986) of the
 * UTF-8 form of every character that is not left as it is.
 */
module PercentEncoding {
  import opened JsText
  import opened Options

  predicate Unescaped(c: char) {
    'A' <= c <= 'Z' || 'a' <= c <= 'z' || '0' <= c <= '9' || c in {'-', '_', '.', '!', '~', '*', '\'', '(', ')'}
  }

  type Octet = n: int | 0 <= n < 256

  function HexDigit(n: int): char
    requires 0 <= n < 16
  {
    if n < 10 then '0' + n as char else 'A' + (n - 10) as char
  }

  function HexValue(c: char): Option<int> {
    if '0' <= c <= '9' then Some((c - '0') as int)
    else if 'A' <= c <= 'F' then Some((c - 'A') as int + 10)
    else if 'a' <= c <= 'f' then Some((c - 'a') as int + 10)
    else None
  }

  lemma HexRoundTrip(n: int)
    requires 0 <= n < 16
    ensures HexValue(HexDigit(n)) == Some(n)
  {
  }

  function Percent(b: Octet): (r: string)
    ensures |r| == 3
  {
    ['%', HexDigit(b / 16), HexDigit(b % 16)]
  }

  function ReadOctet(s: string): Option<Octet> {
    if |s| < 3 || s[0] != '%' || HexValue(s[1]).None? || HexValue(s[2]).None? then None
    else
      var b := HexValue(s[1]).value * 16 + HexValue(s[2]).value;
      if 0 <= b < 256 then Some(b) else None
  }

  lemma OctetRoundTrip(b: Octet, rest: string)
    ensures ReadOctet(Percent(b) + rest) == Some(b) && (Percent(b) + rest)[3..] == rest
  {
    HexRoundTrip(b / 16);
    HexRoundTrip(b % 16);
  }

  // ----- UTF-8

  function Utf8(n: int): (r: seq<Octet>)
    requires 0 <= n < 0x11_0000
  {
    if n < 0x80 then [n]
    else if n < 0x800 then [0xC0 + n / 64, 0x80 + n % 64]
    else if n < 0x10000 then [0xE0 + n / 4096, 0x80 + n / 64 % 64, 0x80 + n % 64]
    else [0xF0 + n / 262144, 0x80 + n / 4096 % 64, 0x80 + n / 64 % 64, 0x80 + n % 64]
  }

  function Octets(bytes: seq<Octet>): string {
    if bytes == [] then "" else Percent(bytes[0]) + Octets(bytes[1..])
  }

  function EncodeChar(c: char): string {
    if Unescaped(c) then [c] else Octets(Utf8(c as int))
  }

  function Encode(s: string): string {
    if s == "" then "" else EncodeChar(s[0]) + Encode(s[1..])
  }

  // ----- decoding

  datatype Read = Failed | Got(c: char, rest: string)

  predicate IsCodePoint(n: int) {
    0 <= n < 0xD800 || 0xE000 <= n < 0x11_0000
  }

  /** `more` continuation octets after a lead that contributed `n`; the result may not be below `least`. */
  function ReadTail(s: string, n: int, more: nat, least: int): Read
    decreases more
  {
    if more == 0 then if n >= least && IsCodePoint(n) then Got(n as char, s) else Failed
    else
      var b := ReadOctet(s);
      if b.None? || !(0x80 <= b.value < 0xC0) then Failed
      else ReadTail(s[3..], n * 64 + (b.value - 0x80), more - 1, least)
  }

  function ReadChar(s: string): (r: Read)
    requires s != ""
  {
    if s[0] != '%' then Got(s[0], s[1..])
    else
      var b := ReadOctet(s);
      if b.None? then Failed
      else if b.value < 0x80 then Got(b.value as char, s[3..])
      else if 0xC0 <= b.value < 0xE0 then ReadTail(s[3..], b.value - 0xC0, 1, 0x80)
      else if 0xE0 <= b.value < 0xF0 then ReadTail(s[3..], b.value - 0xE0, 2, 0x800)
      else if 0xF0 <= b.value < 0xF8 then ReadTail(s[3..], b.value - 0xF0, 3, 0x10000)
      else Failed
  }

  lemma {:induction false} ReadTailShrinks(s: string, n: int, more: nat, least: int)
    ensures var r := ReadTail(s, n, more, least); r.Got? ==> |r.rest| <= |s|
    decreases more
  {
    if more > 0 && ReadOctet(s).Some? {
      ReadTailShrinks(s[3..], n * 64 + (ReadOctet(s).value - 0x80), more - 1, least);
    }
  }

  lemma ReadShrinks(s: string)
    requires s != ""
    ensures ReadChar(s).Got? ==> |ReadChar(s).rest| < |s|
  {
    if s[0] == '%' && ReadOctet(s).Some? {
      var b: int := ReadOctet(s).value;
      ReadTailShrinks(s[3..], b - 0xC0, 1, 0x80);
      ReadTailShrinks(s[3..], b - 0xE0, 2, 0x800);
      ReadTailShrinks(s[3..], b - 0xF0, 3, 0x10000);
    }
  }

  /** None is the source's URIError. */
  function Decode(s: string): Option<string>
    decreases |s|
  {
    if s == "" then Some("")
    else
      var r := ReadChar(s);
      if r.Failed? then None
      else
        ReadShrinks(s);
        var rest := Decode(r.rest);
        if rest.None? then None else Some([r.c] + rest.value)
  }

  // ----- the round trip

  /** `s` starts with the octet `b`, and goes on with `rest`. */
  ghost predicate StartsWith(s: string, b: Octet, rest: string) {
    ReadOctet(s) == Some(b) && s[3..] == rest
  }

  lemma {:induction false} ReadLead(b: Octet, rest: string)
    requires b >= 0xC0
    ensures 0xC0 <= b < 0xE0 ==> ReadChar(Percent(b) + rest) == ReadTail(rest, b - 0xC0, 1, 0x80)
    ensures 0xE0 <= b < 0xF0 ==> ReadChar(Percent(b) + rest) == ReadTail(rest, b - 0xE0, 2, 0x800)
    ensures 0xF0 <= b < 0xF8 ==> ReadChar(Percent(b) + rest) == ReadTail(rest, b - 0xF0, 3, 0x10000)
  {
    OctetRoundTrip(b, rest);
  }

  lemma OctetsOf2(a: Octet, b: Octet, rest: string)
    ensures Octets([a, b]) + rest == Percent(a) + (Percent(b) + rest)
  {
    assert [a, b][1..] == [b] && [b][1..] == [];
    assert Octets([b]) == Percent(b) + "" == Percent(b);
  }

  lemma OctetsOf3(a: Octet, b: Octet, c: Octet, rest: string)
    ensures Octets([a, b, c]) + rest == Percent(a) + (Percent(b) + (Percent(c) + rest))
  {
    assert [a, b, c][1..] == [b, c];
    OctetsOf2(b, c, rest);
  }

  lemma OctetsOf4(a: Octet, b: Octet, c: Octet, d: Octet, rest: string)
    ensures Octets([a, b, c, d]) + rest == Percent(a) + (Percent(b) + (Percent(c) + (Percent(d) + rest)))
  {
    assert [a, b, c, d][1..] == [b, c, d];
    OctetsOf3(b, c, d, rest);
  }

  lemma Digits64(n: nat)
    ensures n == n / 64 * 64 + n % 64
    ensures n / 64 / 64 == n / 4096 && n / 4096 / 64 == n / 262144
  {
  }

  lemma Read1(n: Octet, rest: string)
    requires n < 0x80
    ensures ReadChar(Octets([n]) + rest) == Got(n as char, rest)
  {
    assert [n][1..] == [] && Octets([n]) == Percent(n) + "" == Percent(n);
    OctetRoundTrip(n, rest);
  }

  function Finished(n: int, least: int, rest: string): Read {
    if n >= least && IsCodePoint(n) then Got(n as char, rest) else Failed
  }

  lemma FinishedFits(n: int, least: int, rest: string)
    requires n >= least && IsCodePoint(n)
    ensures Finished(n, least, rest) == Got(n as char, rest)
  {
  }

  lemma {:induction false} Tail1(x: string, s: int, n: int, least: int, rest: string)
    requires 0 <= s < 64 && StartsWith(x, 0x80 + s, rest)
    ensures ReadTail(x, n, 1, least) == Finished(n * 64 + s, least, rest)
  {
    assert ReadTail(x, n, 1, least) == ReadTail(rest, n * 64 + s, 0, least);
  }

  lemma {:induction false} Tail2(x: string, y: string, r: int, s: int, n: int, least: int, rest: string)
    requires 0 <= r < 64 && 0 <= s < 64 && StartsWith(x, 0x80 + r, y) && StartsWith(y, 0x80 + s, rest)
    ensures ReadTail(x, n, 2, least) == Finished(n * 4096 + r * 64 + s, least, rest)
  {
    assert ReadTail(x, n, 2, least) == ReadTail(y, n * 64 + r, 1, least);
    Tail1(y, s, n * 64 + r, least, rest);
  }

  lemma {:induction false} Tail3(x: string, y: string, z: string, q: int, r: int, s: int, n: int, least: int, rest: string)
    requires 0 <= q < 64 && 0 <= r < 64 && 0 <= s < 64
    requires StartsWith(x, 0x80 + q, y) && StartsWith(y, 0x80 + r, z) && StartsWith(z, 0x80 + s, rest)
    ensures ReadTail(x, n, 3, least) == Finished(n * 262144 + q * 4096 + r * 64 + s, least, rest)
  {
    assert ReadTail(x, n, 3, least) == ReadTail(y, n * 64 + q, 2, least);
    Tail2(y, z, r, s, n * 64 + q, least, rest);
  }

  /** The multi-octet forms, by their base-64 digits. */
  lemma Read2(p: int, s: int, rest: string)
    requires 0 <= p < 32 && 0 <= s < 64
    ensures ReadChar(Octets([0xC0 + p, 0x80 + s]) + rest) == Finished(p * 64 + s, 0x80, rest)
  {
    OctetsOf2(0xC0 + p, 0x80 + s, rest);
    ReadLead(0xC0 + p, Percent(0x80 + s) + rest);
    OctetRoundTrip(0x80 + s, rest);
    Tail1(Percent(0x80 + s) + rest, s, p, 0x80, rest);
  }

  lemma Read3(p: int, r: int, s: int, rest: string)
    requires 0 <= p < 16 && 0 <= r < 64 && 0 <= s < 64
    ensures ReadChar(Octets([0xE0 + p, 0x80 + r, 0x80 + s]) + rest) == Finished(p * 4096 + r * 64 + s, 0x800, rest)
  {
    OctetsOf3(0xE0 + p, 0x80 + r, 0x80 + s, rest);
    ReadLead(0xE0 + p, Percent(0x80 + r) + (Percent(0x80 + s) + rest));
    var y := Percent(0x80 + s) + rest;
    OctetRoundTrip(0x80 + s, rest);
    OctetRoundTrip(0x80 + r, y);
    Tail2(Percent(0x80 + r) + y, y, r, s, p, 0x800, rest);
  }

  lemma Read4(p: int, q: int, r: int, s: int, rest: string)
    requires 0 <= p < 8 && 0 <= q < 64 && 0 <= r < 64 && 0 <= s < 64
    ensures ReadChar(Octets([0xF0 + p, 0x80 + q, 0x80 + r, 0x80 + s]) + rest)
         == Finished(p * 262144 + q * 4096 + r * 64 + s, 0x10000, rest)
  {
    OctetsOf4(0xF0 + p, 0x80 + q, 0x80 + r, 0x80 + s, rest);
    ReadLead(0xF0 + p, Percent(0x80 + q) + (Percent(0x80 + r) + (Percent(0x80 + s) + rest)));
    var z := Percent(0x80 + s) + rest;
    var y := Percent(0x80 + r) + z;
    OctetRoundTrip(0x80 + s, rest);
    OctetRoundTrip(0x80 + r, z);
    OctetRoundTrip(0x80 + q, y);
    Tail3(Percent(0x80 + q) + y, y, z, q, r, s, p, 0x10000, rest);
  }

  lemma TwoDigits(n: int)
    requires 0 <= n < 0x800
    ensures 0 <= n / 64 < 32 && 0 <= n % 64 < 64 && n == n / 64 * 64 + n % 64
  {
  }

  lemma ThreeDigits(n: int)
    requires 0 <= n < 0x10000
    ensures 0 <= n / 4096 < 16 && 0 <= n / 64 % 64 < 64 && 0 <= n % 64 < 64
    ensures n == n / 4096 * 4096 + n / 64 % 64 * 64 + n % 64
  {
    Digits64(n);
    Digits64(n / 64);
  }

  lemma FourDigits(n: int)
    requires 0 <= n < 0x11_0000
    ensures 0 <= n / 262144 < 8 && 0 <= n / 4096 % 64 < 64 && 0 <= n / 64 % 64 < 64 && 0 <= n % 64 < 64
    ensures n == n / 262144 * 262144 + n / 4096 % 64 * 4096 + n / 64 % 64 * 64 + n % 64
  {
    Digits64(n);
    Digits64(n / 64);
    Digits64(n / 4096);
  }

  lemma ReadTwo(n: int, p: int, s: int, rest: string)
    requires 0 <= p < 32 && 0 <= s < 64 && 0x80 <= n == p * 64 + s
    requires Utf8(n) == [0xC0 + p, 0x80 + s]
    ensures ReadChar(Octets(Utf8(n)) + rest) == Got(n as char, rest)
  {
    Read2(p, s, rest);
  }

  lemma ReadThree(n: int, p: int, r: int, s: int, rest: string)
    requires 0 <= p < 16 && 0 <= r < 64 && 0 <= s < 64 && 0x800 <= n == p * 4096 + r * 64 + s && IsCodePoint(n)
    requires Utf8(n) == [0xE0 + p, 0x80 + r, 0x80 + s]
    ensures ReadChar(Octets(Utf8(n)) + rest) == Got(n as char, rest)
  {
    Read3(p, r, s, rest);
    FinishedFits(n, 0x800, rest);
  }

  lemma ReadFour(n: int, p: int, q: int, r: int, s: int, rest: string)
    requires 0 <= p < 8 && 0 <= q < 64 && 0 <= r < 64 && 0 <= s < 64
    requires 0x10000 <= n == p * 262144 + q * 4096 + r * 64 + s && IsCodePoint(n)
    requires Utf8(n) == [0xF0 + p, 0x80 + q, 0x80 + r, 0x80 + s]
    ensures ReadChar(Octets(Utf8(n)) + rest) == Got(n as char, rest)
  {
    Read4(p, q, r, s, rest);
    FinishedFits(n, 0x10000, rest);
  }

  lemma ReadOctets(n: int, rest: string)
    requires IsCodePoint(n)
    ensures ReadChar(Octets(Utf8(n)) + rest) == Got(n as char, rest)
  {
    if n < 0x80 {
      Read1(n, rest);
    } else if n < 0x800 {
      TwoDigits(n);
      ReadTwo(n, n / 64, n % 64, rest);
    } else if n < 0x10000 {
      ThreeDigits(n);
      ReadThree(n, n / 4096, n / 64 % 64, n % 64, rest);
    } else {
      FourDigits(n);
      ReadFour(n, n / 262144, n / 4096 % 64, n / 64 % 64, n % 64, rest);
    }
  }

  lemma ReadEncodedChar(c: char, rest: string)
    ensures EncodeChar(c) + rest != "" && ReadChar(EncodeChar(c) + rest) == Got(c, rest)
  {
    if Unescaped(c) {
      assert ([c] + rest)[1..] == rest;
    } else {
      ReadOctets(c as int, rest);
    }
  }

  /** Decoding what was encoded gives it back, for every string. */
  lemma {:induction false} DecodeEncode(s: string)
    ensures Decode(Encode(s)) == Some(s)
  {
    if s != "" {
      ReadEncodedChar(s[0], Encode(s[1..]));
      DecodeEncode(s[1..]);
      assert [s[0]] + s[1..] == s;
    }
  }

  lemma {:induction false} EncodeInjective(s: string, t: string)
    ensures Encode(s) == Encode(t) <==> s == t
  {
    DecodeEncode(s);
    DecodeEncode(t);
  }

  // ----- what is decoded, exactly

  /** The value of a hexadecimal digit is its place among the digits, in either case, and nothing else is one. */
  lemma HexDigitsAre(n: nat, c: char)
    requires n < 16
    ensures HexDigit(n) == "0123456789ABCDEF"[n]
    ensures HexValue("0123456789ABCDEF"[n]) == HexValue("0123456789abcdef"[n]) == Some(n)
    ensures HexValue(c).Some? ==> 0 <= HexValue(c).value < 16 && (c == "0123456789ABCDEF"[HexValue(c).value] || c == "0123456789abcdef"[HexValue(c).value])
  {
  }

  /** `s` starts with these octets, each a percent sign and two digits, and goes on with `rest`. */
  ghost predicate HoldsOctets(s: string, bytes: seq<Octet>, rest: string)
    decreases |bytes|
  {
    if bytes == [] then s == rest else ReadOctet(s) == Some(bytes[0]) && HoldsOctets(s[3..], bytes[1..], rest)
  }

  lemma HoldsTwo(s: string, a: Octet, b: Octet, rest: string)
    ensures HoldsOctets(s, [a, b], rest) <==> ReadOctet(s) == Some(a) && StartsWith(s[3..], b, rest)
  {
    assert [a, b][1..] == [b] && [b][1..] == [];
    if ReadOctet(s) == Some(a) {
      assert HoldsOctets(s[3..], [b], rest) <==> StartsWith(s[3..], b, rest);
    }
  }

  lemma HoldsThree(s: string, a: Octet, b: Octet, c: Octet, rest: string)
    ensures HoldsOctets(s, [a, b, c], rest) <==>
              ReadOctet(s) == Some(a) && ReadOctet(s[3..]) == Some(b) && StartsWith(s[3..][3..], c, rest)
  {
    assert [a, b, c][1..] == [b, c];
    if ReadOctet(s) == Some(a) {
      HoldsTwo(s[3..], b, c, rest);
    }
  }

  lemma HoldsFour(s: string, a: Octet, b: Octet, c: Octet, d: Octet, rest: string)
    ensures HoldsOctets(s, [a, b, c, d], rest) <==>
              && ReadOctet(s) == Some(a) && ReadOctet(s[3..]) == Some(b)
              && ReadOctet(s[3..][3..]) == Some(c) && StartsWith(s[3..][3..][3..], d, rest)
  {
    assert [a, b, c, d][1..] == [b, c, d];
    if ReadOctet(s) == Some(a) {
      HoldsThree(s[3..], b, c, d, rest);
    }
  }

  /** One continuation octet was read, and what it makes is a code point that is not too small. */
  lemma {:induction false} TailGot(x: string, n: int, more: nat, least: int)
    requires more > 0 && ReadTail(x, n, more, least).Got?
    ensures ReadOctet(x).Some? && 0x80 <= ReadOctet(x).value < 0xC0
    ensures ReadTail(x, n, more, least) == ReadTail(x[3..], n * 64 + (ReadOctet(x).value - 0x80), more - 1, least)
  {
  }

  lemma {:induction false} TailEnds(x: string, n: int, least: int)
    requires ReadTail(x, n, 0, least).Got?
    ensures var r := ReadTail(x, n, 0, least); r.rest == x && r.c as int == n >= least && IsCodePoint(n)
  {
  }

  lemma DigitsOf(p: nat, s: nat)
    requires s < 64
    ensures (p * 64 + s) / 64 == p && (p * 64 + s) % 64 == s
  {
  }

  lemma {:induction false} GotTwo(s: string, p: nat)
    requires p < 32 && ReadOctet(s) == Some(0xC0 + p) && ReadTail(s[3..], p, 1, 0x80).Got?
    ensures var r := ReadTail(s[3..], p, 1, 0x80); HoldsOctets(s, Utf8(r.c as int), r.rest)
  {
    var r := ReadTail(s[3..], p, 1, 0x80);
    TailGot(s[3..], p, 1, 0x80);
    var b := ReadOctet(s[3..]).value - 0x80;
    TailEnds(s[3..][3..], p * 64 + b, 0x80);
    DigitsOf(p, b);
    HoldsTwo(s, 0xC0 + p, 0x80 + b, r.rest);
  }

  lemma {:induction false} GotThree(s: string, p: nat)
    requires p < 16 && ReadOctet(s) == Some(0xE0 + p) && ReadTail(s[3..], p, 2, 0x800).Got?
    ensures var r := ReadTail(s[3..], p, 2, 0x800); HoldsOctets(s, Utf8(r.c as int), r.rest)
  {
    var r := ReadTail(s[3..], p, 2, 0x800);
    TailGot(s[3..], p, 2, 0x800);
    var b := ReadOctet(s[3..]).value - 0x80;
    TailGot(s[3..][3..], p * 64 + b, 1, 0x800);
    var c := ReadOctet(s[3..][3..]).value - 0x80;
    TailEnds(s[3..][3..][3..], (p * 64 + b) * 64 + c, 0x800);
    ThreeOctets(p, b, c);
    HoldsThree(s, 0xE0 + p, 0x80 + b, 0x80 + c, r.rest);
  }

  lemma ThreeOctets(p: nat, b: nat, c: nat)
    requires p < 16 && b < 64 && c < 64 && (p * 64 + b) * 64 + c >= 0x800
    ensures Utf8((p * 64 + b) * 64 + c) == [0xE0 + p, 0x80 + b, 0x80 + c]
  {
    DigitsOf(p, b);
    DigitsOf(p * 64 + b, c);
    Digits64((p * 64 + b) * 64 + c);
  }

  lemma {:induction false} GotFour(s: string, p: nat)
    requires p < 8 && ReadOctet(s) == Some(0xF0 + p) && ReadTail(s[3..], p, 3, 0x10000).Got?
    ensures var r := ReadTail(s[3..], p, 3, 0x10000); HoldsOctets(s, Utf8(r.c as int), r.rest)
  {
    var r := ReadTail(s[3..], p, 3, 0x10000);
    TailGot(s[3..], p, 3, 0x10000);
    var b := ReadOctet(s[3..]).value - 0x80;
    TailGot(s[3..][3..], p * 64 + b, 2, 0x10000);
    var c := ReadOctet(s[3..][3..]).value - 0x80;
    TailGot(s[3..][3..][3..], (p * 64 + b) * 64 + c, 1, 0x10000);
    var d := ReadOctet(s[3..][3..][3..]).value - 0x80;
    TailEnds(s[3..][3..][3..][3..], ((p * 64 + b) * 64 + c) * 64 + d, 0x10000);
    FourOctets(p, b, c, d);
    HoldsFour(s, 0xF0 + p, 0x80 + b, 0x80 + c, 0x80 + d, r.rest);
  }

  lemma FourOctets(p: nat, b: nat, c: nat, d: nat)
    requires p < 8 && b < 64 && c < 64 && d < 64 && 0x10000 <= ((p * 64 + b) * 64 + c) * 64 + d < 0x11_0000
    ensures Utf8(((p * 64 + b) * 64 + c) * 64 + d) == [0xF0 + p, 0x80 + b, 0x80 + c, 0x80 + d]
  {
    DigitsOf(p, b);
    DigitsOf(p * 64 + b, c);
    DigitsOf((p * 64 + b) * 64 + c, d);
    Digits64(((p * 64 + b) * 64 + c) * 64 + d);
  }

  lemma {:induction false} GotIsUtf8(s: string)
    requires s != "" && s[0] == '%' && ReadChar(s).Got?
    ensures HoldsOctets(s, Utf8(ReadChar(s).c as int), ReadChar(s).rest)
  {
    var b: int := ReadOctet(s).value;
    if b < 0x80 {
      assert [b][1..] == [];
    } else if b < 0xE0 {
      GotTwo(s, b - 0xC0);
    } else if b < 0xF0 {
      GotThree(s, b - 0xE0);
    } else {
      GotFour(s, b - 0xF0);
    }
  }

  lemma {:induction false} TwoIsGot(s: string, n: int, rest: string)
    requires 0x80 <= n < 0x800 && IsCodePoint(n) && HoldsOctets(s, Utf8(n), rest)
    ensures s != "" && s[0] == '%' && ReadChar(s) == Got(n as char, rest)
  {
    TwoDigits(n);
    HoldsTwo(s, 0xC0 + n / 64, 0x80 + n % 64, rest);
    Tail1(s[3..], n % 64, n / 64, 0x80, rest);
    FinishedFits(n, 0x80, rest);
  }

  lemma {:induction false} ThreeIsGot(s: string, n: int, rest: string)
    requires 0x800 <= n < 0x10000 && IsCodePoint(n) && HoldsOctets(s, Utf8(n), rest)
    ensures s != "" && s[0] == '%' && ReadChar(s) == Got(n as char, rest)
  {
    ThreeDigits(n);
    HoldsThree(s, 0xE0 + n / 4096, 0x80 + n / 64 % 64, 0x80 + n % 64, rest);
    Tail2(s[3..], s[3..][3..], n / 64 % 64, n % 64, n / 4096, 0x800, rest);
    FinishedFits(n, 0x800, rest);
  }

  lemma {:induction false} FourIsGot(s: string, n: int, rest: string)
    requires 0x10000 <= n < 0x11_0000 && IsCodePoint(n) && HoldsOctets(s, Utf8(n), rest)
    ensures s != "" && s[0] == '%' && ReadChar(s) == Got(n as char, rest)
  {
    FourDigits(n);
    HoldsFour(s, 0xF0 + n / 262144, 0x80 + n / 4096 % 64, 0x80 + n / 64 % 64, 0x80 + n % 64, rest);
    Tail3(s[3..], s[3..][3..], s[3..][3..][3..], n / 4096 % 64, n / 64 % 64, n % 64, n / 262144, 0x10000, rest);
    FinishedFits(n, 0x10000, rest);
  }

  lemma {:induction false} Utf8IsGot(s: string, c: char, rest: string)
    requires HoldsOctets(s, Utf8(c as int), rest)
    ensures s != "" && s[0] == '%' && ReadChar(s) == Got(c, rest)
  {
    var n := c as int;
    if n < 0x80 {
      assert [n][1..] == [];
    } else if n < 0x800 {
      TwoIsGot(s, n, rest);
    } else if n < 0x10000 {
      ThreeIsGot(s, n, rest);
    } else {
      FourIsGot(s, n, rest);
    }
  }

  /** `s` spells `t`: character by character, as it is, or as the octets of its UTF-8 form. */
  ghost predicate Spells(s: string, t: string)
    decreases |t|
  {
    if t == "" then s == ""
    else
      || (s != "" && s[0] != '%' && s[0] == t[0] && Spells(s[1..], t[1..]))
      || exists rest :: HoldsOctets(s, Utf8(t[0] as int), rest) && Spells(rest, t[1..])
  }

  /** A text decodes to another if and only if it spells it: anything else, such as octets that are not UTF-8, is an error. */
  lemma {:induction false} DecodesExactly(s: string, t: string)
    ensures Decode(s) == Some(t) <==> Spells(s, t)
    decreases |t|
  {
    if t != "" {
      if s != "" && ReadChar(s).Got? {
        var r := ReadChar(s);
        DecodesExactly(r.rest, t[1..]);
        if s[0] == '%' {
          GotIsUtf8(s);
        }
        assert t == [t[0]] + t[1..];
      }
      if rest :| HoldsOctets(s, Utf8(t[0] as int), rest) && Spells(rest, t[1..]) {
        Utf8IsGot(s, t[0], rest);
      }
    }
  }

  // ----- the alphabet

  predicate InAlphabet(c: char) {
    Unescaped(c) || c == '%'
  }

  ghost predicate Plain(s: string) {
    forall i :: 0 <= i < |s| ==> InAlphabet(s[i])
  }

  lemma {:induction false} OctetsArePlain(bytes: seq<Octet>)
    ensures Plain(Octets(bytes))
  {
    if bytes != [] {
      OctetsArePlain(bytes[1..]);
    }
  }

  /** What is left as it is: letters, digits and nine marks. */
  lemma UnescapedAre(c: char)
    ensures Unescaped(c) <==>
            || 65 <= c as int <= 90 || 97 <= c as int <= 122 || 48 <= c as int <= 57
            || c in "-_.!~*'()"
    ensures EncodeChar(c) == [c] <==> Unescaped(c)
  {
    if !Unescaped(c) {
      assert |Octets(Utf8(c as int))| >= 3;
    }
  }

  /** Encoded text has no separator, no equals sign and no white space. */
  lemma {:induction false} EncodedIsPlain(s: string)
    ensures Plain(Encode(s)) && (s != "" ==> Encode(s) != "")
  {
    if s != "" {
      EncodedIsPlain(s[1..]);
      OctetsArePlain(Utf8(s[0] as int));
      ReadEncodedChar(s[0], "");
    }
  }

  lemma PlainIsClean(s: string)
    requires Plain(s)
    ensures '=' !in s && ';' !in s && Trimmed(s) && (forall c :: c in s ==> !IsSpace(c))
  {
    assert forall c :: InAlphabet(c) ==> c != '=' && c != ';' && !IsSpace(c);
  }
}
