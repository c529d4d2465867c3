/** The parts of an RFQ and of a quotation that apps/web/src/lib/bid-comparison.ts reads. */
module BidQuotes {
  import opened Options

  /** `linkedId` is the line's own RFQ item id, `nestedId` the id inside its embedded RFQ item. */
  datatype QuoteItem = QuoteItem(
    id: string, linkedId: Option<string>, nestedId: Option<string>,
    quantity: real, unitPrice: real, lineValue: real)

  /** `leadTimeDays` is what the notes state, if they do. */
  datatype Quote = Quote(id: string, status: string, leadTimeDays: Option<nat>, items: seq<QuoteItem>)

  datatype RfqItem = RfqItem(id: string, quantity: real)

  predicate IsActive(q: Quote) {
    q.status == "POSTED" && |q.items| > 0
  }

  function ActiveQuotations(quotes: seq<Quote>): (r: seq<Quote>)
    ensures forall q :: q in r <==> q in quotes && q.status == "POSTED" && q.items != []
  {
    if quotes == [] then []
    else
      var n := |quotes| - 1;
      ActiveQuotations(quotes[..n]) + if IsActive(quotes[n]) then [quotes[n]] else []
  }

  /** A quote is active when it is posted and has a line; the active ones stay in their order, each as often as it is listed. */
  lemma {:induction false} ActiveInTurn(quotes: seq<Quote>, q: Quote)
    ensures ActiveQuotations([]) == []
    ensures ActiveQuotations(quotes + [q])
         == ActiveQuotations(quotes) + if q.status == "POSTED" && q.items != [] then [q] else []
  {
    assert (quotes + [q])[..|quotes|] == quotes;
  }

  ghost predicate DistinctQuotes(quotes: seq<Quote>) {
    forall i, j :: 0 <= i < j < |quotes| ==> quotes[i].id != quotes[j].id
  }

  ghost predicate DistinctItems(items: seq<RfqItem>) {
    forall i, j :: 0 <= i < j < |items| ==> items[i].id != items[j].id
  }

  lemma {:induction false} ActiveStayDistinct(quotes: seq<Quote>)
    requires DistinctQuotes(quotes)
    ensures DistinctQuotes(ActiveQuotations(quotes))
  {
    if quotes != [] {
      var n := |quotes| - 1;
      ActiveStayDistinct(quotes[..n]);
      forall q | q in ActiveQuotations(quotes[..n]) ensures q.id != quotes[n].id {}
    }
  }
}
