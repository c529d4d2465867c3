/** The few operations of JavaScript strings that the parsers and printers below rely on. */
module JsText {
  const BOM := '\U{FEFF}'

  predicate OccursAt(s: string, needle: string, i: nat) {
    i + |needle| <= |s| && s[i..i + |needle|] == needle
  }

  predicate Contains(s: string, needle: string) {
    exists i :: 0 <= i <= |s| && OccursAt(s, needle, i)
  }

  /** A text contains another when some stretch of it is that text. */
  lemma ContainsMeans(s: string, needle: string)
    ensures Contains(s, needle) <==> exists i, j :: 0 <= i <= j <= |s| && s[i..j] == needle
  {
    if i :| 0 <= i <= |s| && OccursAt(s, needle, i) {
      assert s[i..i + |needle|] == needle;
    }
    if i, j :| 0 <= i <= j <= |s| && s[i..j] == needle {
      assert OccursAt(s, needle, i);
    }
  }

  /** White space and line terminators as `String.prototype.trim` knows them; the byte order mark is one. */
  predicate IsSpace(c: char) {
    || c in {' ', '\t', '\n', '\r', '\U{000B}', '\U{000C}', '\U{00A0}', '\U{1680}', BOM}
    || '\U{2000}' <= c <= '\U{200A}'
    || c in {'\U{2028}', '\U{2029}', '\U{202F}', '\U{205F}', '\U{3000}'}
  }

  /** The same by code point: the white space of section 12.2 and the line terminators of section 12.3 of ECMA-262. */
  lemma SpacesByCode(c: char)
    ensures IsSpace(c) <==>
            || 0x09 <= c as int <= 0x0D || c as int == 0x20 || c as int == 0xA0 || c as int == 0x1680
            || 0x2000 <= c as int <= 0x200A || 0x2028 <= c as int <= 0x2029 || c as int == 0x202F
            || c as int == 0x205F || c as int == 0x3000 || c as int == 0xFEFF
  {
  }

  function TrimStart(s: string): string {
    if s != "" && IsSpace(s[0]) then TrimStart(s[1..]) else s
  }

  function TrimEnd(s: string): string {
    if s != "" && IsSpace(s[|s| - 1]) then TrimEnd(s[..|s| - 1]) else s
  }

  function Trim(s: string): string {
    TrimEnd(TrimStart(s))
  }

  /** No white space at either end. */
  predicate Trimmed(s: string) {
    s == "" || (!IsSpace(s[0]) && !IsSpace(s[|s| - 1]))
  }

  lemma TrimmedIsFixed(s: string)
    requires Trimmed(s)
    ensures Trim(s) == s
  {
  }

  lemma {:induction false} TrimEndKeepsFront(s: string)
    requires s == "" || !IsSpace(s[0])
    ensures Trimmed(TrimEnd(s))
  {
    if s != "" && IsSpace(s[|s| - 1]) {
      TrimEndKeepsFront(s[..|s| - 1]);
    }
  }

  lemma {:induction false} TrimIsTrimmed(s: string)
    ensures Trimmed(Trim(s))
  {
    if s != "" && IsSpace(s[0]) {
      TrimIsTrimmed(s[1..]);
    } else {
      TrimEndKeepsFront(s);
    }
  }

  lemma TrimTwice(s: string)
    ensures Trim(Trim(s)) == Trim(s)
  {
    TrimIsTrimmed(s);
    TrimmedIsFixed(Trim(s));
  }

  ghost predicate AllSpace(s: string) {
    forall i :: 0 <= i < |s| ==> IsSpace(s[i])
  }

  lemma {:induction false} TrimStartDropsSpace(s: string) returns (front: string)
    ensures AllSpace(front) && s == front + TrimStart(s)
    ensures TrimStart(s) == "" || !IsSpace(TrimStart(s)[0])
  {
    if s != "" && IsSpace(s[0]) {
      var more := TrimStartDropsSpace(s[1..]);
      front := [s[0]] + more;
    } else {
      front := "";
    }
  }

  lemma {:induction false} TrimEndDropsSpace(s: string) returns (back: string)
    ensures AllSpace(back) && s == TrimEnd(s) + back
  {
    if s != "" && IsSpace(s[|s| - 1]) {
      var more := TrimEndDropsSpace(s[..|s| - 1]);
      back := more + [s[|s| - 1]];
    } else {
      back := "";
    }
  }

  /** Trimming takes white space off both ends and nothing else. */
  lemma TrimDropsSpace(s: string) returns (front: string, back: string)
    ensures AllSpace(front) && AllSpace(back) && s == front + Trim(s) + back && Trimmed(Trim(s))
  {
    front := TrimStartDropsSpace(s);
    back := TrimEndDropsSpace(TrimStart(s));
    TrimIsTrimmed(s);
  }

  lemma TrimsToNothing(s: string)
    ensures Trim(s) == "" <==> AllSpace(s)
  {
    var front, back := TrimDropsSpace(s);
    if Trim(s) != "" {
      assert s[|front|] == Trim(s)[0];
    }
  }

  function Join(parts: seq<string>, sep: string): string {
    if parts == [] then ""
    else if |parts| == 1 then parts[0]
    else parts[0] + sep + Join(parts[1..], sep)
  }

  /** `s.split(sep)` for a one-character separator: never empty. */
  function Split(s: string, sep: char): (r: seq<string>)
    ensures |r| > 0
  {
    if s == "" then [""]
    else
      var rest := Split(s[1..], sep);
      if s[0] == sep then [""] + rest else [[s[0]] + rest[0]] + rest[1..]
  }

  lemma {:induction false} SplitPlain(s: string, sep: char)
    requires sep !in s
    ensures Split(s, sep) == [s]
  {
    if s != "" {
      SplitPlain(s[1..], sep);
      assert s == [s[0]] + s[1..];
    }
  }

  lemma {:induction false} SplitAtSeparator(head: string, sep: char, tail: string)
    requires sep !in head
    ensures Split(head + [sep] + tail, sep) == [head] + Split(tail, sep)
  {
    var s := head + [sep] + tail;
    if head == "" {
      assert s[1..] == tail;
    } else {
      SplitAtSeparator(head[1..], sep, tail);
      assert s[1..] == head[1..] + [sep] + tail;
      assert [head[0]] + head[1..] == head;
    }
  }
}
