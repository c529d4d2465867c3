/**
 * apps/web/src/lib/browser-cookies.ts against a browser that stores cookies as sections 5.2 and 4.2.1 of
 * RFC 6265 say: names and values percent-encoded, one path, no cookie expiring by time.
 */
module BrowserCookies {
  import opened JsText
  import opened Options
  import opened PercentEncoding

  datatype SameSite = Lax | Strict | NoRestriction

  /** The caller's options, or the defaults: `Lax`, and secure where the page came over HTTPS. The path is always the default one. */
  datatype CookieOptions = CookieOptions(maxAgeSeconds: Option<real>, sameSite: SameSite, secure: bool)

  // ----- numbers in attributes

  function Digit(n: int): char
    requires 0 <= n < 10
  {
    '0' + n as char
  }

  function Decimal(n: nat): string {
    if n < 10 then [Digit(n)] else Decimal(n / 10) + [Digit(n % 10)]
  }

  predicate IsDigit(c: char) {
    '0' <= c <= '9'
  }

  function ParseDecimal(s: string): Option<nat> {
    if s == "" || !IsDigit(s[|s| - 1]) then None
    else
      var d := (s[|s| - 1] - '0') as int;
      if |s| == 1 then Some(d)
      else
        var front := ParseDecimal(s[..|s| - 1]);
        if front.None? then None else Some(front.value * 10 + d)
  }

  lemma {:induction false} ParseDecimalText(n: nat)
    ensures ParseDecimal(Decimal(n)) == Some(n)
    ensures Decimal(n) != "" && forall i :: 0 <= i < |Decimal(n)| ==> IsDigit(Decimal(n)[i])
    ensures Decimal(n)[0] == '0' <==> n == 0
    ensures n == 0 ==> Decimal(n) == "0"
  {
    if n >= 10 {
      ParseDecimalText(n / 10);
      var s := Decimal(n);
      assert s[..|s| - 1] == Decimal(n / 10);
    }
  }

  // ----- what the module writes

  /** `Math.max(0, Math.floor(maxAgeSeconds))`. */
  function MaxAge(seconds: real): nat {
    if seconds.Floor < 0 then 0 else seconds.Floor
  }

  function SameSiteText(s: SameSite): string {
    match s
    case Lax => "Lax"
    case Strict => "Strict"
    case NoRestriction => "None"
  }

  function Parts(name: string, value: string, options: CookieOptions): (r: seq<string>)
    ensures |r| > 0
  {
    [Encode(name) + "=" + Encode(value), "Path=/"]
    + (if options.maxAgeSeconds.Some? then ["Max-Age=" + Decimal(MaxAge(options.maxAgeSeconds.value))] else [])
    + ["SameSite=" + SameSiteText(options.sameSite)]
    + (if options.secure then ["Secure"] else [])
  }

  // ----- the browser

  datatype Cookie = Cookie(name: string, value: string)

  type Jar = seq<Cookie>

  function Find(jar: Jar, name: string): Option<string> {
    if jar == [] then None
    else if jar[0].name == name then Some(jar[0].value)
    else Find(jar[1..], name)
  }

  /** A stored cookie keeps its place when its value changes. */
  function Put(jar: Jar, name: string, value: string): Jar {
    if jar == [] then [Cookie(name, value)]
    else if jar[0].name == name then [Cookie(name, value)] + jar[1..]
    else [jar[0]] + Put(jar[1..], name, value)
  }

  function Remove(jar: Jar, name: string): Jar {
    if jar == [] then []
    else (if jar[0].name == name then [] else [jar[0]]) + Remove(jar[1..], name)
  }

  function IndexOfEquals(s: string): (r: Option<nat>)
    ensures r.Some? ==> r.value < |s| && s[r.value] == '='
  {
    if s == "" then None
    else if s[0] == '=' then Some(0)
    else
      var i := IndexOfEquals(s[1..]);
      if i.Some? then Some(i.value + 1) else None
  }

  function TrimAll(parts: seq<string>): (r: seq<string>)
    ensures |r| == |parts|
  {
    if parts == [] then [] else [Trim(parts[0])] + TrimAll(parts[1..])
  }

  const MAX_AGE := "Max-Age="

  /** The last usable Max-Age attribute. */
  function MaxAgeOf(attributes: seq<string>): Option<nat> {
    if attributes == [] then None
    else
      var a := attributes[|attributes| - 1];
      var age := if MAX_AGE <= a then ParseDecimal(a[|MAX_AGE|..]) else None;
      if age.Some? then age else MaxAgeOf(attributes[..|attributes| - 1])
  }

  /** Assigning to `document.cookie`: section 5.2 of RFC 6265. */
  function SetCookie(jar: Jar, text: string): Jar {
    var parts := TrimAll(Split(text, ';'));
    var eq := IndexOfEquals(parts[0]);
    if eq.None? then jar
    else
      var name, value := Trim(parts[0][..eq.value]), Trim(parts[0][eq.value + 1..]);
      if name == "" then jar
      else if MaxAgeOf(parts[1..]) == Some(0) then Remove(jar, name)
      else Put(jar, name, value)
  }

  function Pair(c: Cookie): string {
    c.name + "=" + c.value
  }

  function Pairs(jar: Jar): (r: seq<string>)
    ensures |r| == |jar|
  {
    seq(|jar|, i requires 0 <= i < |jar| => Pair(jar[i]))
  }

  /** Reading `document.cookie`: section 4.2.1 of RFC 6265. */
  function CookieString(jar: Jar): string {
    Join(Pairs(jar), "; ")
  }

  // ----- what the module reads

  datatype ReadResult = Null | Value(value: string) | UriError

  function FirstWithPrefix(parts: seq<string>, prefix: string): Option<string> {
    if parts == [] then None
    else if prefix <= parts[0] then Some(parts[0])
    else FirstWithPrefix(parts[1..], prefix)
  }

  function ReadCookie(text: string, name: string): ReadResult {
    var encoded := Encode(name) + "=";
    var hit := FirstWithPrefix(TrimAll(Split(text, ';')), encoded);
    if hit.None? || hit.value == "" then Null
    else
      var v := if |encoded| <= |hit.value| then Decode(hit.value[|encoded|..]) else Some("");
      if v.Some? then Value(v.value) else UriError
  }

  // ----- the module and the page's cookies

  class Page {
    var jar: Jar

    method WriteBrowserCookie(name: string, value: string, options: CookieOptions)
      modifies this
      ensures jar == SetCookie(old(jar), Join(Parts(name, value, options), "; "))
    {
      var parts := [Encode(name) + "=" + Encode(value)];
      parts := parts + ["Path=/"];
      if options.maxAgeSeconds.Some? {
        parts := parts + ["Max-Age=" + Decimal(MaxAge(options.maxAgeSeconds.value))];
      }
      parts := parts + ["SameSite=" + SameSiteText(options.sameSite)];
      if options.secure {
        parts := parts + ["Secure"];
      }
      assert parts == Parts(name, value, options);
      jar := SetCookie(jar, Join(parts, "; "));
    }

    method DeleteBrowserCookie(name: string, https: bool)
      modifies this
      ensures jar == SetCookie(old(jar), Join(Parts(name, "", CookieOptions(Some(0.0), Lax, https)), "; "))
    {
      WriteBrowserCookie(name, "", CookieOptions(Some(0.0), Lax, https));
    }

    method ReadBrowserCookie(name: string) returns (r: ReadResult)
      ensures r == ReadCookie(CookieString(jar), name)
    {
      r := ReadCookie(CookieString(jar), name);
    }
  }

  // ----- splitting what was joined

  /** A part that survives joining with "; ", splitting at ";" and trimming. */
  ghost predicate CleanPart(p: string) {
    ';' !in p && Trimmed(p) && p != ""
  }

  ghost predicate CleanParts(parts: seq<string>) {
    forall i :: 0 <= i < |parts| ==> CleanPart(parts[i])
  }

  lemma TrimSpaced(p: string)
    requires Trimmed(p)
    ensures Trim(" " + p) == p
  {
    assert (" " + p)[1..] == p;
    TrimmedIsFixed(p);
  }

  lemma TrimLead(p: string, lead: string)
    requires Trimmed(p) && (lead == "" || lead == " ")
    ensures Trim(lead + p) == p
  {
    if lead == "" {
      assert lead + p == p;
      TrimmedIsFixed(p);
    } else {
      TrimSpaced(p);
    }
  }

  lemma {:induction false} JoinTail(parts: seq<string>, lead: string)
    requires |parts| > 1
    ensures lead + Join(parts, "; ") == (lead + parts[0]) + [';'] + (" " + Join(parts[1..], "; "))
  {
  }

  lemma {:induction false} TrimAllFront(head: string, rest: seq<string>)
    ensures TrimAll([head] + rest) == [Trim(head)] + TrimAll(rest)
  {
    assert ([head] + rest)[1..] == rest;
  }

  lemma {:induction false} SplitJoined(parts: seq<string>, lead: string)
    requires |parts| > 0 && CleanParts(parts)
    requires lead == "" || lead == " "
    ensures TrimAll(Split(lead + Join(parts, "; "), ';')) == parts
  {
    var head := lead + parts[0];
    assert ';' !in head;
    TrimLead(parts[0], lead);
    if |parts| == 1 {
      SplitPlain(head, ';');
      assert TrimAll([head]) == [parts[0]] == parts;
    } else {
      var tail := " " + Join(parts[1..], "; ");
      JoinTail(parts, lead);
      SplitAtSeparator(head, ';', tail);
      assert Split(lead + Join(parts, "; "), ';') == [head] + Split(tail, ';');
      SplitJoined(parts[1..], " ");
      TrimAllFront(head, Split(tail, ';'));
      assert parts == [parts[0]] + parts[1..];
    }
  }

  // ----- writing

  lemma {:induction false} EqualsAt(name: string, value: string)
    requires '=' !in name
    ensures IndexOfEquals(name + "=" + value) == Some(|name|)
  {
    if name != "" {
      assert (name + "=" + value)[1..] == name[1..] + "=" + value;
      EqualsAt(name[1..], value);
    }
  }

  lemma PairIsClean(name: string, value: string)
    requires Plain(name) && Plain(value)
    ensures CleanPart(name + "=" + value)
  {
    PlainIsClean(name);
    PlainIsClean(value);
  }

  lemma {:induction false} DecimalIsClean(n: nat)
    ensures ';' !in Decimal(n) && Trimmed("Max-Age=" + Decimal(n))
  {
    ParseDecimalText(n);
    var d := Decimal(n);
    assert !IsSpace(d[|d| - 1]);
  }

  lemma SameSiteIsClean(s: SameSite)
    ensures CleanPart("SameSite=" + SameSiteText(s))
  {
    match s
    case Lax => assert CleanPart("SameSite=Lax");
    case Strict => assert CleanPart("SameSite=Strict");
    case NoRestriction => assert CleanPart("SameSite=None");
  }

  lemma {:induction false} MaxAgePartIsClean(n: nat)
    ensures CleanPart("Max-Age=" + Decimal(n))
  {
    DecimalIsClean(n);
  }

  lemma CleanTogether(a: seq<string>, b: seq<string>)
    requires CleanParts(a) && CleanParts(b)
    ensures CleanParts(a + b)
  {
  }

  lemma PartsAreClean(name: string, value: string, options: CookieOptions)
    ensures CleanParts(Parts(name, value, options))
  {
    EncodedIsPlain(name);
    EncodedIsPlain(value);
    PairIsClean(Encode(name), Encode(value));
    SameSiteIsClean(options.sameSite);
    assert CleanPart("Path=/") && CleanPart("Secure");
    var head := [Encode(name) + "=" + Encode(value), "Path=/"];
    var age := if options.maxAgeSeconds.Some? then ["Max-Age=" + Decimal(MaxAge(options.maxAgeSeconds.value))] else [];
    var site := ["SameSite=" + SameSiteText(options.sameSite)];
    if options.maxAgeSeconds.Some? {
      MaxAgePartIsClean(MaxAge(options.maxAgeSeconds.value));
    }
    CleanTogether(head, age);
    CleanTogether(head + age, site);
    CleanTogether(head + age + site, if options.secure then ["Secure"] else []);
  }

  /** Written with a Max-Age that rounds down to zero or less, a cookie is gone at once. */
  predicate Expires(options: CookieOptions) {
    options.maxAgeSeconds.Some? && options.maxAgeSeconds.value < 1.0
  }

  lemma MaxAgeIsRead(name: string, value: string, options: CookieOptions)
    ensures MaxAgeOf(Parts(name, value, options)[1..]) == Some(0) <==> Expires(options)
  {
    var site := "SameSite=" + SameSiteText(options.sameSite);
    var end := [site] + if options.secure then ["Secure"] else [];
    assert site[0] == 'S' != MAX_AGE[0];
    assert !(MAX_AGE <= site) && !(MAX_AGE <= "Secure") && !(MAX_AGE <= "Path=/");
    if options.maxAgeSeconds.Some? {
      var n := MaxAge(options.maxAgeSeconds.value);
      var age := MAX_AGE + Decimal(n);
      var attributes := ["Path=/", age];
      assert Parts(name, value, options)[1..] == attributes + end;
      ParseDecimalText(n);
      assert age[|MAX_AGE|..] == Decimal(n);
      assert MaxAgeOf(attributes) == Some(n);
      OtherAttributes(attributes, site, options.secure);
    } else {
      assert Parts(name, value, options)[1..] == ["Path=/"] + end;
      assert ["Path=/"][..0] == [];
      assert MaxAgeOf(["Path=/"]) == None;
      OtherAttributes(["Path=/"], site, options.secure);
    }
  }

  lemma {:induction false} OtherAttributes(attributes: seq<string>, site: string, secure: bool)
    requires !(MAX_AGE <= site)
    ensures MaxAgeOf(attributes + ([site] + if secure then ["Secure"] else [])) == MaxAgeOf(attributes)
  {
    assert (attributes + [site])[..|attributes|] == attributes;
    assert !(MAX_AGE <= "Secure");
    if secure {
      var all := attributes + ([site] + ["Secure"]);
      assert all[..|all| - 1] == attributes + [site];
    } else {
      assert [site] + [] == [site];
    }
  }

  lemma PairParses(name: string, value: string)
    requires Plain(name) && Plain(value)
    ensures var pair := name + "=" + value;
            && IndexOfEquals(pair) == Some(|name|)
            && Trim(pair[..|name|]) == name && Trim(pair[|name| + 1..]) == value
  {
    var pair := name + "=" + value;
    PlainIsClean(name);
    PlainIsClean(value);
    EqualsAt(name, value);
    assert pair[..|name|] == name && pair[|name| + 1..] == value;
    TrimmedIsFixed(name);
    TrimmedIsFixed(value);
  }

  lemma PartsSplit(name: string, value: string, options: CookieOptions)
    ensures TrimAll(Split(Join(Parts(name, value, options), "; "), ';')) == Parts(name, value, options)
  {
    var parts := Parts(name, value, options);
    PartsAreClean(name, value, options);
    SplitJoined(parts, "");
    assert "" + Join(parts, "; ") == Join(parts, "; ");
  }

  /** Whole seconds, and none for less than one or a negative age. */
  ghost predicate IsAge(seconds: real, age: nat) {
    if seconds < 1.0 then age == 0 else age as real <= seconds < (age + 1) as real
  }

  lemma AgeIsWhole(seconds: real, age: nat)
    requires IsAge(seconds, age)
    ensures MaxAge(seconds) == age
  {
  }

  ghost function AgeText(options: CookieOptions, age: nat): string {
    if options.maxAgeSeconds.Some? then "Max-Age=" + Decimal(age) + "; " else ""
  }

  ghost function SiteText(options: CookieOptions): string {
    match options.sameSite
    case Lax => "SameSite=Lax"
    case Strict => "SameSite=Strict"
    case NoRestriction => "SameSite=None"
  }

  /** What a write hands to the browser: name and value encoded, then the attributes. */
  lemma {:induction false} WrittenText(name: string, value: string, options: CookieOptions, age: nat)
    requires options.maxAgeSeconds.Some? ==> IsAge(options.maxAgeSeconds.value, age)
    ensures Join(Parts(name, value, options), "; ")
         == Encode(name) + "=" + Encode(value) + "; Path=/; "
          + (AgeText(options, age) + (SiteText(options) + if options.secure then "; Secure" else ""))
  {
    var aged := if options.maxAgeSeconds.Some? then ["Max-Age=" + Decimal(age)] else [];
    var secure := if options.secure then ["Secure"] else [];
    if options.maxAgeSeconds.Some? {
      AgeIsWhole(options.maxAgeSeconds.value, age);
    }
    PartsApart(name, value, options);
    SecureText(SiteText(options), options.secure);
    AgedText(aged, [SiteText(options)] + secure);
    assert (if aged != [] then aged[0] + "; " else "") == AgeText(options, age);
    PathText(Encode(name) + "=" + Encode(value), aged + ([SiteText(options)] + secure));
  }

  lemma PartsApart(name: string, value: string, options: CookieOptions)
    ensures var aged := if options.maxAgeSeconds.Some? then ["Max-Age=" + Decimal(MaxAge(options.maxAgeSeconds.value))] else [];
            var rest := [SiteText(options)] + if options.secure then ["Secure"] else [];
            Parts(name, value, options) == [Encode(name) + "=" + Encode(value)] + (["Path=/"] + (aged + rest))
  {
    assert "SameSite=" + SameSiteText(options.sameSite) == SiteText(options);
  }

  lemma SecureText(site: string, secure: bool)
    ensures Join([site] + if secure then ["Secure"] else [], "; ") == site + if secure then "; Secure" else ""
  {
    if secure {
      JoinApart(site, ["Secure"]);
      assert site + "; " + "Secure" == site + "; Secure";
    }
  }

  lemma AgedText(aged: seq<string>, rest: seq<string>)
    requires |aged| <= 1 && rest != []
    ensures Join(aged + rest, "; ") == (if aged != [] then aged[0] + "; " else "") + Join(rest, "; ")
  {
    if aged == [] {
      assert aged + rest == rest;
    } else {
      assert aged + rest == [aged[0]] + rest;
      JoinApart(aged[0], rest);
    }
  }

  lemma PathText(pair: string, rest: seq<string>)
    requires rest != []
    ensures Join([pair] + (["Path=/"] + rest), "; ") == pair + "; Path=/; " + Join(rest, "; ")
  {
    JoinApart("Path=/", rest);
    JoinApart(pair, ["Path=/"] + rest);
    assert pair + "; " + ("Path=/" + "; " + Join(rest, "; ")) == pair + "; Path=/; " + Join(rest, "; ");
  }

  lemma JoinApart(first: string, rest: seq<string>)
    ensures Join([first] + rest, "; ") == if rest == [] then first else first + "; " + Join(rest, "; ")
  {
    assert ([first] + rest)[1..] == rest;
  }

  /** What a write does to the jar. */
  lemma {:induction false} WriteStores(jar: Jar, name: string, value: string, options: CookieOptions)
    ensures SetCookie(jar, Join(Parts(name, value, options), "; "))
         == if name == "" then jar
            else if Expires(options) then Remove(jar, Encode(name))
            else Put(jar, Encode(name), Encode(value))
  {
    PartsSplit(name, value, options);
    EncodedIsPlain(name);
    EncodedIsPlain(value);
    PairParses(Encode(name), Encode(value));
    MaxAgeIsRead(name, value, options);
    assert Encode("") == "";
  }

  // ----- reading

  ghost predicate Written(jar: Jar) {
    forall i :: 0 <= i < |jar| ==> Plain(jar[i].name) && jar[i].name != "" && Plain(jar[i].value)
  }

  /** No name is taken for the beginning of another: the prefix with its equals sign picks the name itself. */
  lemma PrefixIsName(name: string, value: string, wanted: string)
    requires '=' !in name && '=' !in wanted
    ensures wanted + "=" <= name + "=" + value <==> wanted == name
  {
    var s, p := name + "=" + value, wanted + "=";
    if wanted == name {
      assert s[..|p|] == p;
    } else if |wanted| < |name| {
      assert p[|wanted|] == '=' && s[|wanted|] == name[|wanted|] && name[|wanted|] in name;
    } else if |name| < |wanted| {
      assert s[|name|] == '=' && p[|name|] == wanted[|name|] && wanted[|name|] in wanted;
    } else {
      assert p[..|name|] == wanted && s[..|name|] == name;
    }
  }

  lemma {:induction false} PrefixFinds(jar: Jar, wanted: string)
    requires Written(jar) && '=' !in wanted
    ensures FirstWithPrefix(Pairs(jar), wanted + "=")
         == if Find(jar, wanted).Some? then Some(wanted + "=" + Find(jar, wanted).value) else None
  {
    if jar != [] {
      PlainIsClean(jar[0].name);
      PrefixIsName(jar[0].name, jar[0].value, wanted);
      PrefixFinds(jar[1..], wanted);
      assert Pairs(jar)[1..] == Pairs(jar[1..]);
    }
  }

  /** Splitting what the page shows gives the stored pairs, or one empty part. */
  lemma PairsAreSplit(jar: Jar)
    requires Written(jar)
    ensures TrimAll(Split(CookieString(jar), ';')) == if jar == [] then [""] else Pairs(jar)
  {
    if jar == [] {
      assert Split("", ';') == [""];
      assert [""][1..] == [];
      assert TrimAll([""]) == [""];
    } else {
      forall i | 0 <= i < |jar| ensures CleanPart(Pairs(jar)[i]) {
        PairIsClean(jar[i].name, jar[i].value);
      }
      SplitJoined(Pairs(jar), "");
      assert "" + CookieString(jar) == CookieString(jar);
    }
  }

  /** Reading finds the stored value of exactly this name. */
  lemma {:induction false} ReadIsFind(jar: Jar, name: string)
    requires Written(jar)
    ensures ReadCookie(CookieString(jar), name)
         == match Find(jar, Encode(name))
            case None => Null
            case Some(v) => if Decode(v).Some? then Value(Decode(v).value) else UriError
  {
    EncodedIsPlain(name);
    PlainIsClean(Encode(name));
    PrefixFinds(jar, Encode(name));
    var encoded := Encode(name) + "=";
    PairsAreSplit(jar);
    if Find(jar, Encode(name)).Some? {
      var v := Find(jar, Encode(name)).value;
      assert (encoded + v)[|encoded|..] == v;
    }
  }

  // ----- the jar as a map

  lemma {:induction false} FindAfterPut(jar: Jar, name: string, value: string, other: string)
    requires Written(jar) && Plain(name) && name != "" && Plain(value)
    ensures Written(Put(jar, name, value))
    ensures Find(Put(jar, name, value), other) == if other == name then Some(value) else Find(jar, other)
  {
    if jar != [] && jar[0].name != name {
      FindAfterPut(jar[1..], name, value, other);
      assert Put(jar, name, value)[1..] == Put(jar[1..], name, value);
    } else if jar != [] {
      assert Put(jar, name, value)[1..] == jar[1..];
    } else {
      assert [Cookie(name, value)][1..] == [];
    }
  }

  lemma {:induction false} FindAfterRemove(jar: Jar, name: string, other: string)
    requires Written(jar)
    ensures Written(Remove(jar, name))
    ensures Find(Remove(jar, name), other) == if other == name then None else Find(jar, other)
  {
    if jar != [] {
      FindAfterRemove(jar[1..], name, other);
      if jar[0].name != name {
        assert Remove(jar, name)[1..] == Remove(jar[1..], name);
      } else {
        assert [] + Remove(jar[1..], name) == Remove(jar[1..], name);
      }
    }
  }

  lemma {:induction false} NoEmptyName(jar: Jar)
    requires Written(jar)
    ensures Find(jar, "") == None
  {
    if jar != [] {
      NoEmptyName(jar[1..]);
    }
  }

  // ----- whole histories

  datatype Op = Write(name: string, value: string, options: CookieOptions) | Delete(name: string, https: bool)

  function Applied(jar: Jar, op: Op): Jar {
    match op
    case Write(n, v, o) => SetCookie(jar, Join(Parts(n, v, o), "; "))
    case Delete(n, https) => SetCookie(jar, Join(Parts(n, "", CookieOptions(Some(0.0), Lax, https)), "; "))
  }

  function After(ops: seq<Op>): Jar {
    if ops == [] then [] else Applied(After(ops[..|ops| - 1]), ops[|ops| - 1])
  }

  /** The value last written under a name to be kept for a second or more, or without a limit, and not deleted since. */
  function LastWritten(ops: seq<Op>, name: string): Option<string> {
    if ops == [] then None
    else
      var op := ops[|ops| - 1];
      if op.name != name then LastWritten(ops[..|ops| - 1], name)
      else if op.Write? && (op.options.maxAgeSeconds.Some? ==> op.options.maxAgeSeconds.value >= 1.0) then Some(op.value)
      else None
  }

  lemma {:induction false} JarHoldsLast(ops: seq<Op>, name: string)
    ensures Written(After(ops))
    ensures name != "" ==>
              Find(After(ops), Encode(name)) ==
              if LastWritten(ops, name).Some? then Some(Encode(LastWritten(ops, name).value)) else None
  {
    if ops != [] {
      var front, op := ops[..|ops| - 1], ops[|ops| - 1];
      var value := if op.Write? then op.value else "";
      JarHoldsLast(front, name);
      WriteStores(After(front), op.name, value, if op.Write? then op.options else CookieOptions(Some(0.0), Lax, op.https));
      EncodedIsPlain(op.name);
      EncodedIsPlain(value);
      EncodeInjective(name, op.name);
      if op.name != "" {
        FindAfterPut(After(front), Encode(op.name), Encode(value), Encode(name));
        FindAfterRemove(After(front), Encode(op.name), Encode(name));
      }
    }
  }

  /**
   * After any sequence of writes and deletes a cookie reads as the value last written under its name, or
   * null; only the empty name never holds anything, because the browser ignores it.
   */
  lemma {:induction false} ReadsLastWritten(ops: seq<Op>, name: string)
    ensures ReadCookie(CookieString(After(ops)), name)
         == if name != "" && LastWritten(ops, name).Some? then Value(LastWritten(ops, name).value) else Null
  {
    JarHoldsLast(ops, name);
    ReadIsFind(After(ops), name);
    if name == "" {
      NoEmptyName(After(ops));
    } else if LastWritten(ops, name).Some? {
      DecodeEncode(LastWritten(ops, name).value);
    }
  }
}
