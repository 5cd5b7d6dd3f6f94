/** The rest of `main` (main.py): `pad`, the length filter, and the loop that
    unpacks each record into id, price and date and prints one report line. */
module Report {
  import opened Wrappers
  import opened PyStrings
  import opened Filtering
  import opened Scraper
  import opened Keywords

  function Spaces(n: nat): string {
    seq(n, _ => ' ')
  }

  /** The string `pad(s, width)` returns. */
  function Padded(s: string, width: int): string {
    if |s| < width then s + Spaces(width - |s|) else s
  }

  /** `pad(stri, leng)`: append one space for each `i` in `range(len(stri), leng)`. */
  method Pad(s: string, width: int) returns (r: string)
    ensures |r| == if |s| < width then width else |s|
    ensures r[..|s|] == s
    ensures forall i :: |s| <= i < |r| ==> r[i] == ' '
    ensures |s| >= width ==> r == s
    ensures r == Padded(s, width)
  {
    r := s;
    var i := |s|;
    while i < width
      invariant |s| <= i && (i <= width || i == |s|)
      invariant r == s + Spaces(i - |s|)
    {
      r := r + " ";
      i := i + 1;
    }
  }

  /** Why `main` stops at a record: the four-way unpack (ValueError), or an
      index `[1]` past the end of a split (IndexError). */
  datatype RowError = UnpackMismatch(count: nat) | MissingIdSeparator | MissingSoldMarker

  /** `data_view.split("|")[1]`. */
  function IdField(view: string): Option<string> {
    var pieces := Split(view, "|");
    if |pieces| < 2 then None else Some(pieces[1])
  }

  /** `date.split("Sold ")[1]`. */
  function DateField(text: string): Option<string> {
    var pieces := Split(text, "Sold ");
    if |pieces| < 2 then None else Some(pieces[1])
  }

  /** Ids shorter than 6 characters get one trailing space. */
  function WidenId(iid: string): string {
    if |iid| < 6 then iid + " " else iid
  }

  /** The printed line `pad(iid+" | ",9)+pad(price,10)+"| "+date`. */
  function FormatRow(iid: string, price: string, date: string): string {
    Padded(WidenId(iid) + " | ", 9) + Padded(price, 10) + "| " + date
  }

  /** The line `main` prints for one record, or the exception it raises. */
  function ParseRow(m: Record): Result<string, RowError> {
    if |m| != 4 then Err(UnpackMismatch(|m|))
    else match IdField(m[0])
      case None => Err(MissingIdSeparator)
      case Some(iid) =>
        match DateField(m[3])
        case None => Err(MissingSoldMarker)
        case Some(date) => Ok(FormatRow(iid, m[2], date))
  }

  /** `[metadata for metadata in combined_metadata if len(metadata) > 2]`. */
  function LongRecords(data: seq<Record>): seq<Record> {
    Filter(data, m => |m| > 2)
  }

  /** The records `main` goes on to print: scraped, keyword-filtered, length-filtered. */
  function ValidRecords(listings: seq<Listing>, selectors: seq<string>, keywords: seq<string>): seq<Record> {
    RecordBounds(listings, selectors);
    LongRecords(RemoveByKeywords(Assemble(listings, selectors), keywords))
  }

  /** The id is present exactly when the `data-view` string contains a `|`. */
  lemma IdFieldPresent(view: string)
    ensures IdField(view).Some? <==> '|' in view
  {
    SplitHasSecond(view, "|");
    ContainsChar(view, '|');
  }

  /** The id is the text between the first `|` (at `i`) and the second one, or the end. */
  lemma IdFieldSegment(view: string) returns (i: nat)
    requires '|' in view
    ensures IdField(view).Some?
    ensures i < |view| && view[i] == '|' && '|' !in view[..i]
    ensures var id := IdField(view).value;
            var e := i + 1 + |id|;
            e <= |view| && view[i + 1..e] == id && '|' !in id
            && (e == |view| || view[e] == '|')
  {
    ContainsChar(view, '|');
    i := SplitSecond(view, "|");
    OccursAtChar(view, '|', i);
    var id := Split(view, "|")[1];
    var e := i + 1 + |id|;
    forall k | 0 <= k < i ensures view[..i][k] != '|' {
      OccursAtChar(view, '|', k);
    }
    forall k | 0 <= k < |id| ensures id[k] != '|' {
      OccursAtChar(view, '|', i + 1 + k);
      assert id[k] == view[i + 1 + k];
    }
    if e < |view| {
      OccursAtChar(view, '|', e);
    }
  }

  /** The date is present exactly when the text contains `"Sold "`. */
  lemma DateFieldPresent(text: string)
    ensures DateField(text).Some? <==> Contains(text, "Sold ")
  {
    SplitHasSecond(text, "Sold ");
  }

  /** The date is the text after the first `"Sold "` (at `i`) up to the next
      `"Sold "` that starts after it, or to the end. */
  lemma DateFieldSegment(text: string) returns (i: nat)
    requires Contains(text, "Sold ")
    ensures DateField(text).Some?
    ensures OccursAt(text, "Sold ", i) && forall k: nat :: k < i ==> !OccursAt(text, "Sold ", k)
    ensures var date := DateField(text).value;
            var e := i + 5 + |date|;
            e <= |text| && text[i + 5..e] == date
            && (forall k: nat :: i + 5 <= k < e ==> !OccursAt(text, "Sold ", k))
            && (e == |text| || OccursAt(text, "Sold ", e))
  {
    i := SplitSecond(text, "Sold ");
  }

  /** The layout of a printed line: the id, then one extra space when the id
      is shorter than 6, then ` | ` padded so that the id column is at least
      9 wide; then the price padded to at least 10; then `| ` and the date. */
  lemma FormatRowLayout(iid: string, price: string, date: string)
    ensures var line := FormatRow(iid, price, date);
            var w := if |iid| < 6 then 9 else |iid| + 3;
            var pw := if |price| < 10 then 10 else |price|;
            |line| == w + pw + 2 + |date|
            && line[..|iid|] == iid
            && line[|iid|..w] == (if |iid| < 6 then "  | " + Spaces(5 - |iid|) else " | ")
            && line[w..w + |price|] == price
            && (forall k :: w + |price| <= k < w + pw ==> line[k] == ' ')
            && line[w + pw..] == "| " + date
  {
    var line := FormatRow(iid, price, date);
    var col := Padded(WidenId(iid) + " | ", 9);
    var pcol := Padded(price, 10);
    var tail := "| " + date;
    IdColumnShape(iid);
    PaddedShape(price, 10);
    var w, pw := |col|, |pcol|;
    assert line == col + pcol + tail;
    assert line[..w] == col;
    assert line[w..w + pw] == pcol;
    assert line[w + pw..] == tail;
    assert line[..|iid|] == col[..|iid|];
    assert line[|iid|..w] == col[|iid|..];
    assert line[w..w + |price|] == pcol[..|price|];
  }

  /** The id column: the id, then the separator, padded to at least 9. */
  lemma IdColumnShape(iid: string)
    ensures var col := Padded(WidenId(iid) + " | ", 9);
            |col| == (if |iid| < 6 then 9 else |iid| + 3)
            && col[..|iid|] == iid
            && col[|iid|..] == (if |iid| < 6 then "  | " + Spaces(5 - |iid|) else " | ")
  {
    var col := Padded(WidenId(iid) + " | ", 9);
    if |iid| < 6 {
      assert col == iid + "  | " + Spaces(5 - |iid|);
    } else {
      assert col == iid + " | ";
    }
  }

  lemma PaddedShape(s: string, width: int)
    ensures var p := Padded(s, width);
            |p| == (if |s| < width then width else |s|)
            && p[..|s|] == s
            && forall k :: |s| <= k < |p| ==> p[k] == ' '
  {
  }

  /** When a record prints, and which exception stops `main` otherwise: the
      unpack is checked first, then the `|`, then `"Sold "`; the title at
      index 1 is ignored. */
  lemma ParseRowOutcome(m: Record)
    ensures ParseRow(m).Ok? <==> |m| == 4 && '|' in m[0] && Contains(m[3], "Sold ")
    ensures |m| != 4 ==> ParseRow(m) == Err(UnpackMismatch(|m|))
    ensures |m| == 4 && '|' !in m[0] ==> ParseRow(m) == Err(MissingIdSeparator)
    ensures |m| == 4 && '|' in m[0] && !Contains(m[3], "Sold ") ==> ParseRow(m) == Err(MissingSoldMarker)
    ensures ParseRow(m).Ok? ==> ParseRow(m).value == FormatRow(IdField(m[0]).value, m[2], DateField(m[3]).value)
  {
    if |m| == 4 {
      IdFieldPresent(m[0]);
      DateFieldPresent(m[3]);
    }
  }

  /** The length filter keeps, in order and unchanged, exactly the records longer than 2. */
  lemma LongRecordsSelection(data: seq<Record>) returns (idx: seq<nat>)
    ensures Increasing(idx, |data|) && |idx| == |LongRecords(data)|
    ensures forall k :: 0 <= k < |idx| ==> LongRecords(data)[k] == data[idx[k]]
    ensures forall i :: 0 <= i < |data| ==> (i in idx <==> |data[i]| > 2)
    ensures forall m :: m in LongRecords(data) ==> |m| > 2
  {
    idx := FilterIndices(data, m => |m| > 2);
    FilterSubset(data, m => |m| > 2);
  }

  /** Every record that reaches the unpack has between 3 and `1 + |selectors|`
      entries, and the unpack fails for each length but 4: with the four
      selectors of `main`, records of length 3 and 5 get through the filter and
      then fail. */
  lemma ValidRecordsUnpack(listings: seq<Listing>, selectors: seq<string>, keywords: seq<string>)
    ensures forall m :: m in ValidRecords(listings, selectors, keywords) ==>
      3 <= |m| <= 1 + |selectors| && (ParseRow(m) == Err(UnpackMismatch(|m|)) <==> |m| != 4)
  {
    var scraped := Assemble(listings, selectors);
    RecordBounds(listings, selectors);
    var kept := RemoveByKeywords(scraped, keywords);
    FilterSubset(kept, m => |m| > 2);
    forall m | m in ValidRecords(listings, selectors, keywords)
      ensures 3 <= |m| <= 1 + |selectors| && (ParseRow(m) == Err(UnpackMismatch(|m|)) <==> |m| != 4)
    {
      assert m in kept && |m| > 2;
      assert m in scraped;
      if |m| == 4 {
        ParseRowOutcome(m);
      }
    }
  }

  /** The blacklisted words `main` passes to `remove_by_keywords`. */
  const MainBlacklist: seq<string> := ["cracked", "only", "broken", "lot ", "issues", " d 1"]

  /** The four selectors of the examples: a title, two alternative prices, a date. */
  function ExampleSelectors(): seq<string> {
    ["title", "price", "price-alt", "date"]
  }

  /** With the four selectors and the blacklist of `main`, a "MacBook Pro"
      listing where neither price XPath resolves gives a record of length 3.
      It passes the keyword and length filters and then fails the unpack. */
  lemma ShortRecordAdmitted(l: Listing, date: string)
    requires Lookup(l, "title") == Some("MacBook Pro") && Lookup(l, "date") == Some(date)
    requires Lookup(l, "price") == None && Lookup(l, "price-alt") == None
    ensures ValidRecords([l], ExampleSelectors(), MainBlacklist) == [[l.dataView, "MacBook Pro", date]]
    ensures ParseRow([l.dataView, "MacBook Pro", date]) == Err(UnpackMismatch(3))
  {
    var selectors := ExampleSelectors();
    assert Kept(l, selectors) == ["MacBook Pro", date] by {
      KeptOfFour(l, "title", "price", "price-alt", "date");
    }
    var record := [l.dataView, "MacBook Pro", date];
    assert [l.dataView] + ["MacBook Pro", date] == record;
    ValidOfOne(l, selectors, MainBlacklist, record);
    assert ParseRow(record) == Err(UnpackMismatch(3)) by {
      ParseRowOutcome(record);
    }
  }

  /** With the same selectors and blacklist, a "MacBook Pro" listing where
      both price XPaths resolve gives a record of length 5. It also passes
      both filters and fails the unpack. */
  lemma LongRecordAdmitted(l: Listing, price: string, alt: string, date: string)
    requires Lookup(l, "title") == Some("MacBook Pro") && Lookup(l, "date") == Some(date)
    requires Lookup(l, "price") == Some(price) && Lookup(l, "price-alt") == Some(alt)
    ensures ValidRecords([l], ExampleSelectors(), MainBlacklist) == [[l.dataView, "MacBook Pro", price, alt, date]]
    ensures ParseRow([l.dataView, "MacBook Pro", price, alt, date]) == Err(UnpackMismatch(5))
  {
    var selectors := ExampleSelectors();
    AllFourFound(l, "title", "price", "price-alt", "date", "MacBook Pro", price, alt, date);
    var record := [l.dataView, "MacBook Pro", price, alt, date];
    assert [l.dataView] + ["MacBook Pro", price, alt, date] == record;
    ValidOfOne(l, selectors, MainBlacklist, record);
    assert ParseRow(record) == Err(UnpackMismatch(5)) by {
      ParseRowOutcome(record);
    }
  }

  /** A single listing titled "MacBook Pro" whose record has more than two
      fields reaches the unpack under the blacklist of `main`. */
  lemma ValidOfOne(l: Listing, selectors: seq<string>, keywords: seq<string>, record: Record)
    requires keywords == MainBlacklist
    requires record == [l.dataView] + Kept(l, selectors)
    requires |record| > 2 && record[1] == "MacBook Pro"
    ensures ValidRecords([l], selectors, keywords) == [record]
  {
    AssembleSnoc([], l, selectors);
    assert [] + [l] == [l];
    assert Assemble([l], selectors) == [record];
    TitleSurvivesBlacklist(record, keywords);
    ValidWhenAllPass([l], selectors, keywords);
  }

  /** When every scraped record passes the keyword filter and has more than two
      fields, `main` goes on to print all of them. */
  lemma ValidWhenAllPass(listings: seq<Listing>, selectors: seq<string>, keywords: seq<string>)
    requires forall m :: m in Assemble(listings, selectors) ==> |m| > 2 && Survives(m, keywords)
    ensures ValidRecords(listings, selectors, keywords) == Assemble(listings, selectors)
  {
    var scraped := Assemble(listings, selectors);
    RecordBounds(listings, selectors);
    RemoveByKeywordsIsFilter(scraped, keywords);
    FilterKeepsAll(scraped, item => Survives(item, keywords));
    FilterKeepsAll(scraped, m => |m| > 2);
  }

  /** A record titled "MacBook Pro" survives the blacklist of `main`. */
  lemma TitleSurvivesBlacklist(item: Record, keywords: seq<string>)
    requires keywords == MainBlacklist
    requires |item| >= 2 && item[1] == "MacBook Pro"
    ensures Survives(item, keywords)
  {
    BlacklistSparesTitle(keywords);
    assert Title(item) == "MacBook Pro";
  }

  /** None of the six blacklist words of `main` occurs in "macbook pro": each
      has a letter that title lacks. */
  lemma BlacklistSparesTitle(keywords: seq<string>)
    requires keywords == MainBlacklist
    ensures forall k :: k in keywords ==> !Contains(Lower("MacBook Pro"), k)
  {
    var title := "macbook pro";
    assert Lower("MacBook Pro") == title;
    MissingCharNotContained(title, "cracked", 'd');
    MissingCharNotContained(title, "only", 'n');
    MissingCharNotContained(title, "broken", 'n');
    MissingCharNotContained(title, "lot ", 'l');
    MissingCharNotContained(title, "issues", 'i');
    MissingCharNotContained(title, " d 1", 'd');
  }

  /** When all four selectors resolve, their texts are kept in selector order. */
  lemma AllFourFound(l: Listing, a: string, b: string, c: string, d: string,
                     ta: string, tb: string, tc: string, td: string)
    requires Lookup(l, a) == Some(ta) && Lookup(l, b) == Some(tb)
    requires Lookup(l, c) == Some(tc) && Lookup(l, d) == Some(td)
    ensures Kept(l, [a, b, c, d]) == [ta, tb, tc, td]
  {
    KeptOfFour(l, a, b, c, d);
    assert [ta] + [tb] + [tc] + [td] == [ta, tb, tc, td];
  }

  /** The texts kept under four selectors, one selector at a time. */
  lemma KeptOfFour(l: Listing, a: string, b: string, c: string, d: string)
    ensures Kept(l, [a, b, c, d]) == Found(l, a) + Found(l, b) + Found(l, c) + Found(l, d)
  {
    KeptSnoc(l, [], a);
    assert [] + [a] == [a];
    KeptSnoc(l, [a], b);
    assert [a] + [b] == [a, b];
    KeptSnoc(l, [a, b], c);
    assert [a, b] + [c] == [a, b, c];
    KeptSnoc(l, [a, b, c], d);
    assert [a, b, c] + [d] == [a, b, c, d];
  }

  /** The printing loop of `main`: each record's line in order, until the first
      record that raises, whose error is returned. */
  method PrintRows(valid: seq<Record>) returns (printed: seq<string>, failure: Option<RowError>)
    ensures |printed| <= |valid|
    ensures forall k :: 0 <= k < |printed| ==> ParseRow(valid[k]) == Ok(printed[k])
    ensures failure.None? ==> |printed| == |valid|
    ensures failure.Some? ==> |printed| < |valid| && ParseRow(valid[|printed|]) == Err(failure.value)
  {
    printed := [];
    for i := 0 to |valid|
      invariant |printed| == i
      invariant forall k :: 0 <= k < i ==> ParseRow(valid[k]) == Ok(printed[k])
    {
      var row := FormatRecord(valid[i]);
      if row.Err? {
        return printed, Some(row.error);
      }
      printed := printed + [row.value];
    }
    failure := None;
  }

  /** The body of the printing loop for one record: unpack, split out the id
      and the date, widen the id, and pad the columns. */
  method FormatRecord(metadata: Record) returns (row: Result<string, RowError>)
    ensures row == ParseRow(metadata)
    ensures row.Ok? ==> |metadata| == 4
  {
    if |metadata| != 4 {
      return Err(UnpackMismatch(|metadata|));
    }
    var viewPieces := Split(metadata[0], "|");
    if |viewPieces| < 2 {
      return Err(MissingIdSeparator);
    }
    var iid := viewPieces[1];
    assert IdField(metadata[0]) == Some(iid);
    var wide := if |iid| < 6 then iid + " " else iid;
    var datePieces := Split(metadata[3], "Sold ");
    if |datePieces| < 2 {
      return Err(MissingSoldMarker);
    }
    var date := datePieces[1];
    assert DateField(metadata[3]) == Some(date);
    var idColumn := Pad(wide + " | ", 9);
    var priceColumn := Pad(metadata[2], 10);
    row := Ok(idColumn + priceColumn + "| " + date);
  }

  /** `main` after the page is open: scrape, filter by keywords and by length,
      count, and print. */
  method Run(listings: seq<Listing>, selectors: seq<string>, keywords: seq<string>)
    returns (found: nat, valid: nat, messages: seq<string>, printed: seq<string>, failure: Option<RowError>)
    ensures found == |Assemble(listings, selectors)|
    ensures messages == Messages(listings, selectors)
    ensures valid == |ValidRecords(listings, selectors, keywords)|
    ensures var rows := ValidRecords(listings, selectors, keywords);
            |printed| <= |rows|
            && (forall k :: 0 <= k < |printed| ==> ParseRow(rows[k]) == Ok(printed[k]))
            && (failure.None? ==> |printed| == |rows|)
            && (failure.Some? ==> |printed| < |rows| && ParseRow(rows[|printed|]) == Err(failure.value))
  {
    var combined;
    combined, messages := GetData(listings, selectors);
    found := |combined|;
    RecordBounds(listings, selectors);
    combined := RemoveByKeywords(combined, keywords);
    combined := LongRecords(combined);
    valid := |combined|;
    printed, failure := PrintRows(combined);
  }
}
