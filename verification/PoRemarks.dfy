/**
 * apps/web/src/lib/po-document.ts, po-form-document.ts and po-line-calculations.ts: a document hidden as JSON
 * behind a marker in free-text remarks, and the per-line tax kept in it. JSON itself is a parameter.
 */
module PoRemarks {
  import opened JsText
  import opened Options

  const MARKER := "<!--PO_DOCUMENT:"
  const MARKER_END := "-->"

  /** An optional document field: text, or a number, whose text is never blank. */
  datatype Field = TextField(text: string) | NumberField(value: real)

  datatype LineTax = LineTax(
    lineIndex: Option<int>, productId: Option<string>, lineDescription: Option<string>, taxPercent: real)

  datatype Document = Document(fields: map<string, Field>, lineItemTaxes: Option<seq<LineTax>>)

  const EMPTY_DOCUMENT := Document(map[], None)

  /** `JSON.stringify` and `JSON.parse` on documents. */
  datatype Json = Json(stringify: Document -> string, parse: string -> Option<Document>)

  // ----- searching

  function IndexFrom(s: string, needle: string, i: nat): (r: Option<nat>)
    requires i <= |s|
    ensures r.Some? ==> i <= r.value && OccursAt(s, needle, r.value) && forall k :: i <= k < r.value ==> !OccursAt(s, needle, k)
    ensures r.None? ==> forall k :: i <= k <= |s| ==> !OccursAt(s, needle, k)
    decreases |s| - i
  {
    if OccursAt(s, needle, i) then Some(i)
    else if i == |s| then None
    else IndexFrom(s, needle, i + 1)
  }

  /** `s.indexOf(needle)`, with None for -1. */
  function IndexOf(s: string, needle: string): Option<nat> {
    IndexFrom(s, needle, 0)
  }

  function LastIndexUpTo(s: string, needle: string, i: nat): (r: Option<nat>)
    requires i <= |s|
    ensures r.Some? ==> r.value <= i && OccursAt(s, needle, r.value) && forall k :: r.value < k <= i ==> !OccursAt(s, needle, k)
    ensures r.None? ==> forall k :: 0 <= k <= i ==> !OccursAt(s, needle, k)
    decreases i
  {
    if OccursAt(s, needle, i) then Some(i)
    else if i == 0 then None
    else LastIndexUpTo(s, needle, i - 1)
  }

  function LastIndexOf(s: string, needle: string): Option<nat> {
    LastIndexUpTo(s, needle, |s|)
  }

  // ----- remarks

  datatype Parsed = Parsed(humanRemarks: string, document: Document)

  /** What stands between the marker at `idx` and the last end marker after it. */
  function RawDocument(remarks: string, idx: nat): string
    requires idx + |MARKER| <= |remarks|
  {
    var jsonPart := remarks[idx + |MARKER|..];
    var end := LastIndexOf(jsonPart, MARKER_END);
    if end.Some? then jsonPart[..end.value] else jsonPart
  }

  function ParsePoRemarks(json: Json, remarks: string): Parsed {
    if Trim(remarks) == "" then Parsed("", EMPTY_DOCUMENT)
    else match IndexOf(remarks, MARKER)
      case None => Parsed(Trim(remarks), EMPTY_DOCUMENT)
      case Some(idx) =>
        var doc := json.parse(RawDocument(remarks, idx));
        if doc.Some? then Parsed(Trim(remarks[..idx]), doc.value)
        else Parsed(Trim(remarks), EMPTY_DOCUMENT)
  }

  predicate HasDocument(d: Document) {
    || (d.lineItemTaxes.Some? && |d.lineItemTaxes.value| > 0)
    || exists k :: k in d.fields && (d.fields[k].NumberField? || Trim(d.fields[k].text) != "")
  }

  /** There is something to keep: a line tax, a number, or a text that is more than white space. */
  ghost predicate SaysSomething(d: Document) {
    || (d.lineItemTaxes.Some? && d.lineItemTaxes.value != [])
    || (exists k :: k in d.fields && (d.fields[k].TextField? ==> !AllSpace(d.fields[k].text)))
  }

  lemma DocumentSaysSomething(d: Document)
    ensures HasDocument(d) <==> SaysSomething(d)
  {
    forall k | k in d.fields && d.fields[k].TextField?
      ensures Trim(d.fields[k].text) == "" <==> AllSpace(d.fields[k].text)
    {
      TrimsToNothing(d.fields[k].text);
    }
  }

  function Payload(json: Json, d: Document): string {
    MARKER + json.stringify(d) + MARKER_END
  }

  function EncodePoRemarks(json: Json, humanRemarks: string, d: Document): string {
    var trimmed := Trim(humanRemarks);
    if !HasDocument(d) then trimmed
    else if trimmed != "" then trimmed + "\n" + Payload(json, d)
    else Payload(json, d)
  }

  // ----- the round trip, exactly

  lemma OccursInPrefix(s: string, t: string, needle: string, i: nat)
    requires i + |needle| <= |s|
    ensures OccursAt(s + t, needle, i) <==> OccursAt(s, needle, i)
  {
    assert (s + t)[i..i + |needle|] == s[i..i + |needle|];
  }

  /** No marker starts before the payload: one that did would have to contain the line break. */
  lemma FirstMarker(trimmed: string, json: string, i: nat)
    requires i < |trimmed| + 1 && !OccursAt(trimmed, MARKER, i)
    ensures !OccursAt(trimmed + "\n" + (MARKER + json + MARKER_END), MARKER, i)
  {
    var s := trimmed + "\n" + (MARKER + json + MARKER_END);
    if i + |MARKER| <= |trimmed| {
      assert s == trimmed + ("\n" + (MARKER + json + MARKER_END));
      OccursInPrefix(trimmed, "\n" + (MARKER + json + MARKER_END), MARKER, i);
    } else {
      var k := |trimmed| - i;
      assert s[i..i + |MARKER|][k] == s[|trimmed|] == '\n';
    }
  }

  lemma PayloadEnd(json: string)
    ensures LastIndexOf(json + MARKER_END, MARKER_END) == Some(|json|)
  {
    var s := json + MARKER_END;
    assert s[|json|..|json| + |MARKER_END|] == MARKER_END;
    assert OccursAt(s, MARKER_END, |json|);
  }

  lemma EncodedStaysNonBlank(trimmed: string, rest: string)
    requires Trimmed(trimmed) && rest != "" && !IsSpace(rest[0]) && !IsSpace(rest[|rest| - 1])
    ensures trimmed != "" ==> Trimmed(trimmed + "\n" + rest)
    ensures Trimmed(rest)
  {
  }

  /** What the parser makes of encoded remarks whose first marker is at `idx`. */
  lemma ParseAtMarker(json: Json, before: string, d: Document)
    requires json.parse(json.stringify(d)) == Some(d)
    requires IndexOf(before + Payload(json, d), MARKER) == Some(|before|)
    requires Trim(before + Payload(json, d)) != ""
    ensures ParsePoRemarks(json, before + Payload(json, d)) == Parsed(Trim(before), d)
  {
    var s := before + Payload(json, d);
    assert s[..|before|] == before;
    assert s[|before| + |MARKER|..] == json.stringify(d) + MARKER_END;
    PayloadEnd(json.stringify(d));
    assert (json.stringify(d) + MARKER_END)[..|json.stringify(d)|] == json.stringify(d);
  }

  lemma TrimDropsLineBreak(trimmed: string)
    requires Trimmed(trimmed) && trimmed != ""
    ensures Trim(trimmed + "\n") == trimmed
  {
    var s := trimmed + "\n";
    assert s[..|s| - 1] == trimmed;
    assert TrimStart(s) == s;
    TrimmedIsFixed(trimmed);
    assert TrimStart(trimmed) == trimmed;
    assert TrimEnd(s) == TrimEnd(trimmed);
  }

  lemma TrimIsNoLonger(s: string)
    ensures |Trim(s)| <= |s|
  {
    TrimStartIsNoLonger(s);
    TrimEndIsNoLonger(TrimStart(s));
  }

  lemma {:induction false} TrimStartIsNoLonger(s: string)
    ensures |TrimStart(s)| <= |s|
  {
    if s != "" && IsSpace(s[0]) { TrimStartIsNoLonger(s[1..]); }
  }

  lemma {:induction false} TrimEndIsNoLonger(s: string)
    ensures |TrimEnd(s)| <= |s|
  {
    if s != "" && IsSpace(s[|s| - 1]) { TrimEndIsNoLonger(s[..|s| - 1]); }
  }

  /**
   * What is stored: the trimmed human text on its own line, if there is any, and the document between the markers.
   * Human text and document both come back if and only if the trimmed human text does not contain the marker. The
   * document may contain the marker or its end: only the first marker and the last end count.
   */
  lemma RemarksRoundTrip(json: Json, humanRemarks: string, d: Document)
    requires SaysSomething(d) && json.parse(json.stringify(d)) == Some(d)
    ensures var trimmed := Trim(humanRemarks);
            EncodePoRemarks(json, humanRemarks, d)
            == (if trimmed == "" then "" else trimmed + "\n") + ("<!--PO_DOCUMENT:" + json.stringify(d) + "-->")
    ensures ParsePoRemarks(json, EncodePoRemarks(json, humanRemarks, d)) == Parsed(Trim(humanRemarks), d)
       <==> !Contains(Trim(humanRemarks), "<!--PO_DOCUMENT:")
  {
    var trimmed := Trim(humanRemarks);
    var payload := Payload(json, d);
    DocumentSaysSomething(d);
    TrimIsTrimmed(humanRemarks);
    assert payload[0] == '<' && payload[|payload| - 1] == '>';
    EncodedStaysNonBlank(trimmed, payload);
    if trimmed == "" {
      TrimmedIsFixed(payload);
      assert "" + payload == payload;
      assert payload[0..|MARKER|] == MARKER && OccursAt(payload, MARKER, 0);
      ParseAtMarker(json, "", d);
      assert Trim("") == "";
      assert !Contains("", MARKER);
    } else {
      TextReadsBack(json, trimmed, d);
    }
  }

  lemma TextReadsBack(json: Json, trimmed: string, d: Document)
    requires Trimmed(trimmed) && trimmed != "" && json.parse(json.stringify(d)) == Some(d)
    ensures ParsePoRemarks(json, trimmed + "\n" + Payload(json, d)) == Parsed(trimmed, d) <==> !Contains(trimmed, MARKER)
  {
    var payload := Payload(json, d);
    var s := trimmed + "\n" + payload;
    assert payload[0] == '<' && payload[|payload| - 1] == '>';
    EncodedStaysNonBlank(trimmed, payload);
    TrimmedIsFixed(s);
    if Contains(trimmed, MARKER) {
      MarkerInText(json, trimmed, d);
    } else {
      forall i | 0 <= i < |trimmed| + 1 ensures !OccursAt(s, MARKER, i) {
        FirstMarker(trimmed, json.stringify(d), i);
      }
      var n := |trimmed| + 1;
      assert s[n..n + |MARKER|] == MARKER && OccursAt(s, MARKER, n);
      assert IndexOf(s, MARKER) == Some(n);
      ParseAtMarker(json, trimmed + "\n", d);
      TrimDropsLineBreak(trimmed);
    }
  }

  /** A marker in the human text is taken for the payload's: what comes back is shorter, or everything. */
  lemma MarkerInText(json: Json, trimmed: string, d: Document)
    requires Trimmed(trimmed) && Contains(trimmed, MARKER)
    ensures ParsePoRemarks(json, trimmed + "\n" + Payload(json, d)).humanRemarks != trimmed
  {
    var s := trimmed + "\n" + Payload(json, d);
    var i :| 0 <= i <= |trimmed| && OccursAt(trimmed, MARKER, i);
    assert s == trimmed + ("\n" + Payload(json, d));
    OccursInPrefix(trimmed, "\n" + Payload(json, d), MARKER, i);
    EncodedStaysNonBlank(trimmed, Payload(json, d));
    TrimmedIsFixed(s);
    var idx := IndexOf(s, MARKER).value;
    assert idx <= i;
    TrimIsNoLonger(s[..idx]);
  }

  /** The text holds no marker, or what stands behind its first one does not parse. */
  predicate ReadsAsText(json: Json, text: string) {
    match IndexOf(text, MARKER)
    case None => true
    case Some(idx) => json.parse(RawDocument(text, idx)).None?
  }

  /**
   * Without a document the remarks are the trimmed text, and come back without one if and only if the text holds no
   * marker or what stands behind its first one does not parse.
   */
  lemma PlainRemarksRoundTrip(json: Json, humanRemarks: string, d: Document)
    requires !SaysSomething(d)
    ensures EncodePoRemarks(json, humanRemarks, d) == Trim(humanRemarks)
    ensures ParsePoRemarks(json, EncodePoRemarks(json, humanRemarks, d)) == Parsed(Trim(humanRemarks), Document(map[], None))
       <==> ReadsAsText(json, Trim(humanRemarks))
    ensures !Contains(Trim(humanRemarks), MARKER) ==> ReadsAsText(json, Trim(humanRemarks))
  {
    var trimmed := Trim(humanRemarks);
    DocumentSaysSomething(d);
    TrimTwice(humanRemarks);
    if trimmed == "" {
      assert !OccursAt("", MARKER, 0);
    } else if IndexOf(trimmed, MARKER).Some? {
      var idx := IndexOf(trimmed, MARKER).value;
      assert OccursAt(trimmed, MARKER, idx);
      TrimIsNoLonger(trimmed[..idx]);
    }
  }

  // ----- the form

  datatype FormItem = FormItem(productId: Option<string>, lineDescription: Option<string>, taxPercent: Option<real>)

  /** `numPo`: anything that is not a finite number is zero. */
  function NumPo(v: Option<real>): real {
    v.GetOr(0.0)
  }

  function Max0(x: real): real {
    if x >= 0.0 then x else 0.0
  }

  predicate Present(s: Option<string>) {
    s.Some? && s.value != ""
  }

  function TrimmedText(s: Option<string>): string {
    if s.Some? then Trim(s.value) else ""
  }

  function LineEntry(it: FormItem, index: nat): LineTax {
    LineTax(Some(index),
            if Present(it.productId) then it.productId else None,
            if !Present(it.productId) && TrimmedText(it.lineDescription) != ""
            then Some(TrimmedText(it.lineDescription)) else None,
            Max0(NumPo(it.taxPercent)))
  }

  predicate Identified(e: LineTax) {
    Present(e.productId) || Present(e.lineDescription)
  }

  function LineTaxes(items: seq<FormItem>): seq<LineTax> {
    if items == [] then []
    else
      var n := |items| - 1;
      var e := LineEntry(items[n], n);
      LineTaxes(items[..n]) + if Identified(e) then [e] else []
  }

  /** `documentFromPoForm`, with the header and ship-to fields as given. */
  function DocumentFromPoForm(items: seq<FormItem>, fields: map<string, Field>): Document {
    var taxes := LineTaxes(items);
    Document(fields, if |taxes| > 0 then Some(taxes) else None)
  }

  function EncodePoFormRemarks(json: Json, remarks: Option<string>, items: seq<FormItem>, fields: map<string, Field>): string {
    EncodePoRemarks(json, remarks.GetOr(""), DocumentFromPoForm(items, fields))
  }

  // ----- the lookup

  /** The line as it is known when its tax is looked up; service lines may carry a stand-in product. */
  datatype LineRef = LineRef(productId: Option<string>, lineDescription: Option<string>)

  predicate SameLine(e: LineTax, line: LineRef) {
    if Present(e.productId) then e.productId == line.productId
    else Present(e.lineDescription) && e.lineDescription.value == TrimmedText(line.lineDescription)
  }

  function FirstAt(taxes: seq<LineTax>, line: LineRef, index: int): Option<LineTax> {
    if taxes == [] then None
    else if taxes[0].lineIndex == Some(index) && SameLine(taxes[0], line) then Some(taxes[0])
    else FirstAt(taxes[1..], line, index)
  }

  function FirstSame(taxes: seq<LineTax>, line: LineRef): Option<LineTax> {
    if taxes == [] then None
    else if SameLine(taxes[0], line) then Some(taxes[0])
    else FirstSame(taxes[1..], line)
  }

  function TaxPercentForLine(lineItemTaxes: Option<seq<LineTax>>, line: LineRef, index: int): real {
    if lineItemTaxes.None? || |lineItemTaxes.value| == 0 then 0.0
    else
      var at := FirstAt(lineItemTaxes.value, line, index);
      var row := if at.Some? then at else FirstSame(lineItemTaxes.value, line);
      if row.Some? then row.value.taxPercent else 0.0
  }

  /** A reference to form line `it`: its product, or for a service line its description and any product. */
  ghost predicate RefersTo(line: LineRef, it: FormItem) {
    if it.productId.Some? && it.productId.value != "" then line.productId == it.productId
    else line.lineDescription.Some? && it.lineDescription.Some? && Trim(line.lineDescription.value) == Trim(it.lineDescription.value)
  }

  // ----- what the form keeps

  /** The line names a product, or something more than white space describes it. */
  ghost predicate Named(it: FormItem) {
    || (it.productId.Some? && it.productId.value != "")
    || (it.lineDescription.Some? && !AllSpace(it.lineDescription.value))
  }

  /** What is kept of form line `i`: its product or else its trimmed description, and its percent, zero if negative or missing. */
  ghost predicate Keeps(e: LineTax, it: FormItem, i: nat) {
    && e.lineIndex == Some(i)
    && (if it.productId.Some? && it.productId.value != "" then e.productId == it.productId && e.lineDescription.None?
        else e.productId.None? && it.lineDescription.Some? && e.lineDescription == Some(Trim(it.lineDescription.value)))
    && e.taxPercent == PercentOf(it)
  }

  /** The percent of a form line as its tax is charged: a missing or negative one is none. */
  ghost function PercentOf(it: FormItem): real {
    if it.taxPercent.Some? && it.taxPercent.value > 0.0 then it.taxPercent.value else 0.0
  }

  lemma EntryKeepsLine(it: FormItem, i: nat)
    ensures Identified(LineEntry(it, i)) <==> Named(it)
    ensures Named(it) ==> Keeps(LineEntry(it, i), it, i)
    ensures LineEntry(it, i).taxPercent == PercentOf(it)
  {
    if it.lineDescription.Some? {
      TrimsToNothing(it.lineDescription.value);
    }
  }

  lemma {:induction false} EntriesByPosition(items: seq<FormItem>, i: nat)
    requires i < |items| && Named(items[i])
    ensures LineEntry(items[i], i) in LineTaxes(items)
  {
    if i < |items| - 1 {
      EntriesByPosition(items[..|items| - 1], i);
    } else {
      EntryKeepsLine(items[i], i);
    }
  }

  lemma {:induction false} EntriesAreLines(items: seq<FormItem>)
    ensures forall k :: 0 <= k < |LineTaxes(items)| ==>
              var e := LineTaxes(items)[k];
              && e.lineIndex.Some? && 0 <= e.lineIndex.value < |items|
              && e == LineEntry(items[e.lineIndex.value], e.lineIndex.value) && Identified(e)
    ensures forall j, k :: 0 <= j < k < |LineTaxes(items)| ==>
              LineTaxes(items)[j].lineIndex.value < LineTaxes(items)[k].lineIndex.value
  {
    if items != [] {
      var n := |items| - 1;
      EntriesAreLines(items[..n]);
      forall k | 0 <= k < |LineTaxes(items[..n])| ensures LineTaxes(items)[k] == LineTaxes(items[..n])[k] {}
    }
  }

  /** The form keeps one entry for each line that is named, in line order, and none for the others. */
  lemma FormKeepsNamedLines(items: seq<FormItem>, fields: map<string, Field>)
    ensures var d := DocumentFromPoForm(items, fields);
            && d.fields == fields
            && (d.lineItemTaxes.None? <==> forall i :: 0 <= i < |items| ==> !Named(items[i]))
            && (d.lineItemTaxes.Some? ==>
                  var taxes := d.lineItemTaxes.value;
                  && (forall k :: 0 <= k < |taxes| ==>
                        && taxes[k].lineIndex.Some? && 0 <= taxes[k].lineIndex.value < |items|
                        && Keeps(taxes[k], items[taxes[k].lineIndex.value], taxes[k].lineIndex.value))
                  && (forall j, k :: 0 <= j < k < |taxes| ==> taxes[j].lineIndex.value < taxes[k].lineIndex.value)
                  && (forall i :: 0 <= i < |items| ==> (Named(items[i]) <==> exists e :: e in taxes && e.lineIndex == Some(i))))
  {
    var taxes := LineTaxes(items);
    EntriesAreLines(items);
    forall k | 0 <= k < |taxes|
      ensures Named(items[taxes[k].lineIndex.value])
      ensures Keeps(taxes[k], items[taxes[k].lineIndex.value], taxes[k].lineIndex.value)
    {
      EntryKeepsLine(items[taxes[k].lineIndex.value], taxes[k].lineIndex.value);
    }
    forall i | 0 <= i < |items| ensures Named(items[i]) <==> exists e :: e in taxes && e.lineIndex == Some(i) {
      if Named(items[i]) {
        EntriesByPosition(items, i);
        assert LineEntry(items[i], i) in taxes && LineEntry(items[i], i).lineIndex == Some(i);
      }
    }
    if taxes != [] {
      assert Named(items[taxes[0].lineIndex.value]);
    }
  }

  lemma {:induction false} FirstAtFinds(taxes: seq<LineTax>, line: LineRef, index: int, e: LineTax)
    requires e in taxes && e.lineIndex == Some(index) && SameLine(e, line)
    requires forall t :: t in taxes && t.lineIndex == Some(index) ==> t == e
    ensures FirstAt(taxes, line, index) == Some(e)
  {
    if !(taxes[0].lineIndex == Some(index) && SameLine(taxes[0], line)) {
      FirstAtFinds(taxes[1..], line, index, e);
    } else {
      assert taxes[0] in taxes;
    }
  }

  /** The entry is about this line: the same product, or without one the same description and not an empty one. */
  ghost predicate IsAbout(e: LineTax, line: LineRef) {
    if e.productId.Some? && e.productId.value != "" then line.productId == e.productId
    else
      && e.lineDescription.Some? && e.lineDescription.value != ""
      && line.lineDescription.Some? && e.lineDescription.value == Trim(line.lineDescription.value)
  }

  ghost predicate IsAboutAt(e: LineTax, line: LineRef, index: int) {
    IsAbout(e, line) && e.lineIndex == Some(index)
  }

  lemma {:induction false} FirstAtIsFirst(taxes: seq<LineTax>, line: LineRef, index: int) returns (k: nat)
    ensures FirstAt(taxes, line, index).Some? ==>
              && k < |taxes| && FirstAt(taxes, line, index).value == taxes[k] && IsAboutAt(taxes[k], line, index)
              && forall j :: 0 <= j < k ==> !IsAboutAt(taxes[j], line, index)
    ensures FirstAt(taxes, line, index).None? ==> forall j :: 0 <= j < |taxes| ==> !IsAboutAt(taxes[j], line, index)
  {
    k := 0;
    if taxes != [] && !IsAboutAt(taxes[0], line, index) {
      var n := FirstAtIsFirst(taxes[1..], line, index);
      k := n + 1;
      forall j | 0 < j < |taxes| ensures taxes[j] == taxes[1..][j - 1] {}
    }
  }

  lemma {:induction false} FirstSameIsFirst(taxes: seq<LineTax>, line: LineRef) returns (k: nat)
    ensures FirstSame(taxes, line).Some? ==>
              && k < |taxes| && FirstSame(taxes, line).value == taxes[k] && IsAbout(taxes[k], line)
              && forall j :: 0 <= j < k ==> !IsAbout(taxes[j], line)
    ensures FirstSame(taxes, line).None? ==> forall j :: 0 <= j < |taxes| ==> !IsAbout(taxes[j], line)
  {
    k := 0;
    if taxes != [] && !IsAbout(taxes[0], line) {
      var n := FirstSameIsFirst(taxes[1..], line);
      k := n + 1;
      forall j | 0 < j < |taxes| ensures taxes[j] == taxes[1..][j - 1] {}
    }
  }

  /**
   * Older documents too: a line gets the percent of the first entry about it at its own position, if there is none
   * of the first entry about it anywhere, and zero if no entry is about it.
   */
  lemma LookupFindsMatch(taxes: seq<LineTax>, line: LineRef, index: int) returns (k: nat)
    ensures (forall j :: 0 <= j < |taxes| ==> !IsAbout(taxes[j], line)) ==> TaxPercentForLine(Some(taxes), line, index) == 0.0
    ensures (exists j :: 0 <= j < |taxes| && IsAbout(taxes[j], line)) ==>
              && k < |taxes| && IsAbout(taxes[k], line) && TaxPercentForLine(Some(taxes), line, index) == taxes[k].taxPercent
              && (if exists j :: 0 <= j < |taxes| && IsAboutAt(taxes[j], line, index)
                  then IsAboutAt(taxes[k], line, index) && forall j :: 0 <= j < k ==> !IsAboutAt(taxes[j], line, index)
                  else forall j :: 0 <= j < k ==> !IsAbout(taxes[j], line))
    ensures TaxPercentForLine(None, line, index) == 0.0
  {
    k := FirstAtIsFirst(taxes, line, index);
    var same := FirstSameIsFirst(taxes, line);
    if FirstAt(taxes, line, index).None? {
      k := same;
    }
  }

  /** Each named form line finds its own tax percent, even when one product is on two lines. */
  lemma EveryLineFindsItsTax(items: seq<FormItem>, fields: map<string, Field>, i: nat, line: LineRef)
    requires i < |items| && Named(items[i]) && RefersTo(line, items[i])
    ensures TaxPercentForLine(DocumentFromPoForm(items, fields).lineItemTaxes, line, i) == PercentOf(items[i])
  {
    var e := LineEntry(items[i], i);
    EntryKeepsLine(items[i], i);
    EntriesByPosition(items, i);
    EntriesAreLines(items);
    FirstAtFinds(LineTaxes(items), line, i, e);
  }

  /** From the form through the stored remarks and back, every named line keeps its own tax percent. */
  lemma SavedFormKeepsLineTax(json: Json, remarks: Option<string>, items: seq<FormItem>, fields: map<string, Field>,
                              i: nat, line: LineRef)
    requires i < |items| && Named(items[i]) && RefersTo(line, items[i])
    requires remarks.Some? ==> !Contains(Trim(remarks.value), "<!--PO_DOCUMENT:")
    requires var d := DocumentFromPoForm(items, fields); json.parse(json.stringify(d)) == Some(d)
    ensures var parsed := ParsePoRemarks(json, EncodePoFormRemarks(json, remarks, items, fields));
            && parsed.humanRemarks == (if remarks.Some? then Trim(remarks.value) else "")
            && TaxPercentForLine(parsed.document.lineItemTaxes, line, i) == PercentOf(items[i])
  {
    EntriesByPosition(items, i);
    assert !Contains("", "<!--PO_DOCUMENT:");
    RemarksRoundTrip(json, remarks.GetOr(""), DocumentFromPoForm(items, fields));
    EveryLineFindsItsTax(items, fields, i, line);
  }

  // ----- totals

  datatype PoLine = PoLine(orderQty: Option<real>, rate: Option<real>, taxPercent: Option<real>)

  datatype LineAmounts = LineAmounts(subtotal: real, taxAmount: real, lineTotal: real)

  function ComputePoLineAmounts(line: PoLine): LineAmounts {
    var subtotal := NumPo(line.orderQty) * NumPo(line.rate);
    var tax := subtotal * (Max0(NumPo(line.taxPercent)) / 100.0);
    LineAmounts(subtotal, tax, subtotal + tax)
  }

  function Amounts(lines: seq<PoLine>): (r: seq<LineAmounts>)
    ensures |r| == |lines|
  {
    seq(|lines|, i requires 0 <= i < |lines| => ComputePoLineAmounts(lines[i]))
  }

  function SumOf(rows: seq<LineAmounts>, f: LineAmounts -> real): real {
    if rows == [] then 0.0 else SumOf(rows[..|rows| - 1], f) + f(rows[|rows| - 1])
  }

  /** The number, a missing one being zero. */
  ghost predicate IsNumber(v: Option<real>, x: real) {
    if v.Some? then x == v.value else x == 0.0
  }

  /** A line is worth its quantity times its rate, and taxed at its percent of that, a negative percent being none. */
  lemma LineAmountsAre(line: PoLine, qty: real, rate: real, percent: real)
    requires IsNumber(line.orderQty, qty) && IsNumber(line.rate, rate) && IsNumber(line.taxPercent, percent)
    ensures var amounts := ComputePoLineAmounts(line);
            && amounts.subtotal == qty * rate
            && amounts.taxAmount == (if percent > 0.0 then qty * rate * (percent / 100.0) else 0.0)
            && amounts.lineTotal == amounts.subtotal + amounts.taxAmount
  {
    assert qty * rate * (0.0 / 100.0) == 0.0;
  }

  lemma {:induction false} SumMore(lines: seq<PoLine>, line: PoLine, f: LineAmounts -> real)
    ensures SumOf(Amounts(lines + [line]), f) == SumOf(Amounts(lines), f) + f(ComputePoLineAmounts(line))
  {
    assert Amounts(lines + [line])[..|lines|] == Amounts(lines);
    assert Amounts(lines + [line])[|lines|] == ComputePoLineAmounts(line);
  }

  /** Without lines the sums are zero, and one more line adds its own amounts to each. */
  lemma {:induction false} TotalsGrowByLine(lines: seq<PoLine>, line: PoLine, qty: real, rate: real, percent: real)
    requires IsNumber(line.orderQty, qty) && IsNumber(line.rate, rate) && IsNumber(line.taxPercent, percent)
    ensures SumOf(Amounts([]), (r: LineAmounts) => r.subtotal) == 0.0 == SumOf(Amounts([]), (r: LineAmounts) => r.taxAmount)
    ensures SumOf(Amounts(lines + [line]), (r: LineAmounts) => r.subtotal)
         == SumOf(Amounts(lines), (r: LineAmounts) => r.subtotal) + qty * rate
    ensures SumOf(Amounts(lines + [line]), (r: LineAmounts) => r.taxAmount)
         == SumOf(Amounts(lines), (r: LineAmounts) => r.taxAmount) + if percent > 0.0 then qty * rate * (percent / 100.0) else 0.0
  {
    LineAmountsAre(line, qty, rate, percent);
    SumMore(lines, line, (r: LineAmounts) => r.subtotal);
    SumMore(lines, line, (r: LineAmounts) => r.taxAmount);
  }

  method SumPoLineTotals(lines: seq<PoLine>) returns (subtotal: real, taxTotal: real, grandTotal: real)
    ensures subtotal == SumOf(Amounts(lines), (r: LineAmounts) => r.subtotal)
    ensures taxTotal == SumOf(Amounts(lines), (r: LineAmounts) => r.taxAmount)
    ensures grandTotal == subtotal + taxTotal
  {
    subtotal, taxTotal, grandTotal := 0.0, 0.0, 0.0;
    ghost var rows := Amounts(lines);
    for i := 0 to |lines|
      invariant subtotal == SumOf(rows[..i], (r: LineAmounts) => r.subtotal)
      invariant taxTotal == SumOf(rows[..i], (r: LineAmounts) => r.taxAmount)
      invariant grandTotal == subtotal + taxTotal
    {
      var row := ComputePoLineAmounts(lines[i]);
      assert rows[..i + 1][..i] == rows[..i] && rows[i] == row;
      subtotal := subtotal + row.subtotal;
      taxTotal := taxTotal + row.taxAmount;
      grandTotal := grandTotal + row.lineTotal;
    }
    assert rows[..|lines|] == rows;
  }
}
