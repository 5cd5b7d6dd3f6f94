/** `Scraper.get_data` (main.py) over an abstract results page. The browser is
    replaced by its answers: each listing element carries its `data-view`
    attribute and the text found under each relative XPath that resolves; an
    XPath that does not resolve is one whose lookup raises
    NoSuchElementException. */
module Scraper {
  import opened Wrappers
  import opened Filtering

  /** One scraped record: the `data-view` string followed by field texts. */
  type Record = seq<string>

  /** A listing element as `get_data` sees it. */
  datatype Listing = Listing(dataView: string, texts: map<string, string>)

  /** The text a field XPath contributes: present and non-empty, or nothing. */
  function Lookup(l: Listing, xpath: string): Option<string> {
    if xpath in l.texts && l.texts[xpath] != "" then Some(l.texts[xpath]) else None
  }

  /** The field text a selector contributes, as a list of zero or one texts. */
  function Found(l: Listing, xpath: string): seq<string> {
    match Lookup(l, xpath) case Some(t) => [t] case None => []
  }

  /** The field texts kept for one listing, in selector order. */
  function Kept(l: Listing, selectors: seq<string>): seq<string> {
    FilterMap(selectors, xpath => Lookup(l, xpath))
  }

  /** The record a listing yields, if any field text was kept. */
  function RecordOf(l: Listing, selectors: seq<string>): Option<Record> {
    var kept := Kept(l, selectors);
    if kept == [] then None else Some([l.dataView] + kept)
  }

  /** The list `get_data` returns. */
  function Assemble(listings: seq<Listing>, selectors: seq<string>): seq<Record> {
    FilterMap(listings, l => RecordOf(l, selectors))
  }

  function MissingMessage(xpath: string): string {
    "No metadata found for: " + xpath
  }

  /** The message logged when an XPath does not resolve under a listing. */
  function Absence(l: Listing, xpath: string): Option<string> {
    if xpath in l.texts then None else Some(MissingMessage(xpath))
  }

  /** The messages one listing logs, in selector order. */
  function Missing(l: Listing, selectors: seq<string>): seq<string> {
    FilterMap(selectors, xpath => Absence(l, xpath))
  }

  /** Every message `get_data` logs, listing by listing. */
  function Messages(listings: seq<Listing>, selectors: seq<string>): seq<string> {
    if listings == [] then []
    else Messages(listings[..|listings| - 1], selectors) + Missing(listings[|listings| - 1], selectors)
  }

  /** `get_data`: for each listing, collect the non-empty texts of the XPaths
      that resolve, log the ones that do not, and keep the listing (its
      `data-view` inserted in front) when something was collected. The
      messages are returned instead of printed. */
  method GetData(listings: seq<Listing>, selectors: seq<string>)
    returns (combined: seq<Record>, messages: seq<string>)
    ensures combined == Assemble(listings, selectors)
    ensures messages == Messages(listings, selectors)
  {
    combined := [];
    messages := [];
    for i := 0 to |listings|
      invariant combined == Assemble(listings[..i], selectors)
      invariant messages == Messages(listings[..i], selectors)
    {
      var listing := listings[i];
      var fields, logged := ReadListing(listing, selectors);
      messages := messages + logged;
      AssembleSnoc(listings[..i], listing, selectors);
      assert listings[..i + 1] == listings[..i] + [listing];
      assert listings[..i + 1][..i] == listings[..i];
      if fields != [] {
        fields := [listing.dataView] + fields;
        combined := combined + [fields];
      }
    }
    assert listings[..|listings|] == listings;
  }

  /** The inner loop of `get_data` over one listing: the non-empty texts found,
      in selector order, and the messages for the XPaths that do not resolve. */
  method ReadListing(listing: Listing, selectors: seq<string>)
    returns (fields: seq<string>, messages: seq<string>)
    ensures fields == Kept(listing, selectors)
    ensures messages == Missing(listing, selectors)
  {
    fields := [];
    messages := [];
    for j := 0 to |selectors|
      invariant fields == Kept(listing, selectors[..j])
      invariant messages == Missing(listing, selectors[..j])
    {
      var xpath := selectors[j];
      KeptSnoc(listing, selectors[..j], xpath);
      MissingSnoc(listing, selectors[..j], xpath);
      assert selectors[..j + 1] == selectors[..j] + [xpath];
      if xpath in listing.texts {
        var text := listing.texts[xpath];
        if text != "" {
          fields := fields + [text];
        }
      } else {
        messages := messages + [MissingMessage(xpath)];
      }
    }
    assert selectors[..|selectors|] == selectors;
  }

  /** One more selector adds at most its own message at the end. */
  lemma MissingSnoc(l: Listing, selectors: seq<string>, xpath: string)
    ensures Missing(l, selectors + [xpath])
         == Missing(l, selectors) + (match Absence(l, xpath) case Some(m) => [m] case None => [])
  {
    FilterMapSnoc(selectors, xpath, x => Absence(l, x));
  }

  /** One more selector adds at most its text at the end. */
  lemma KeptSnoc(l: Listing, selectors: seq<string>, xpath: string)
    ensures Kept(l, selectors + [xpath]) == Kept(l, selectors) + Found(l, xpath)
  {
    FilterMapSnoc(selectors, xpath, x => Lookup(l, x));
  }

  /** One more listing adds at most its record at the end. */
  lemma AssembleSnoc(listings: seq<Listing>, l: Listing, selectors: seq<string>)
    ensures Assemble(listings + [l], selectors)
         == Assemble(listings, selectors) + (match RecordOf(l, selectors) case Some(r) => [r] case None => [])
  {
    FilterMapSnoc(listings, l, x => RecordOf(x, selectors));
  }

  /** The texts kept for a listing are exactly those of the XPaths that resolve
      to non-empty text, in selector order: `idx` names their selectors. */
  lemma KeptSelection(l: Listing, selectors: seq<string>) returns (idx: seq<nat>)
    ensures Increasing(idx, |selectors|) && |idx| == |Kept(l, selectors)|
    ensures forall k :: 0 <= k < |idx| ==>
      selectors[idx[k]] in l.texts && l.texts[selectors[idx[k]]] == Kept(l, selectors)[k] != ""
    ensures forall j :: 0 <= j < |selectors| ==>
      (j in idx <==> selectors[j] in l.texts && l.texts[selectors[j]] != "")
  {
    idx := FilterMapIndices(selectors, xpath => Lookup(l, xpath));
  }

  /** The records are, in listing order, exactly the listings that kept a field,
      each as its `data-view` followed by its kept texts: `idx` names them. */
  lemma AssembleSelection(listings: seq<Listing>, selectors: seq<string>) returns (idx: seq<nat>)
    ensures Increasing(idx, |listings|) && |idx| == |Assemble(listings, selectors)|
    ensures forall k :: 0 <= k < |idx| ==>
      Assemble(listings, selectors)[k] == [listings[idx[k]].dataView] + Kept(listings[idx[k]], selectors)
    ensures forall i :: 0 <= i < |listings| ==> (i in idx <==> Kept(listings[i], selectors) != [])
  {
    idx := FilterMapIndices(listings, l => RecordOf(l, selectors));
  }

  /** Every record has length between 2 and one more than the number of selectors. */
  lemma RecordBounds(listings: seq<Listing>, selectors: seq<string>)
    ensures forall r :: r in Assemble(listings, selectors) ==> 2 <= |r| <= 1 + |selectors|
  {
    var idx := AssembleSelection(listings, selectors);
    forall r | r in Assemble(listings, selectors) ensures 2 <= |r| <= 1 + |selectors| {
      var k :| 0 <= k < |Assemble(listings, selectors)| && Assemble(listings, selectors)[k] == r;
      var l := listings[idx[k]];
      assert r == [l.dataView] + Kept(l, selectors);
      assert Kept(l, selectors) != [] by {
        assert idx[k] in idx;
      }
    }
  }

  /** A listing logs one message for each XPath that does not resolve, in order. */
  lemma MissingSelection(l: Listing, selectors: seq<string>) returns (idx: seq<nat>)
    ensures Increasing(idx, |selectors|) && |idx| == |Missing(l, selectors)|
    ensures forall k :: 0 <= k < |idx| ==> Missing(l, selectors)[k] == MissingMessage(selectors[idx[k]])
    ensures forall j :: 0 <= j < |selectors| ==> (j in idx <==> selectors[j] !in l.texts)
  {
    idx := FilterMapIndices(selectors, xpath => Absence(l, xpath));
  }
}
