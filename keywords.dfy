/** `remove_by_keywords` (main.py): drop every record whose lower-cased title
    (index 1) contains one of the blacklisted keywords. */
module Keywords {
  import opened PyStrings
  import opened Filtering
  import opened Scraper

  /** Every record has a title at index 1, as `item[1]` needs. */
  predicate Indexable(data: seq<Record>) {
    forall item :: item in data ==> |item| >= 2
  }

  /** `item[1]`; only ever taken of records that have one. */
  function Title(item: Record): string {
    if |item| >= 2 then item[1] else ""
  }

  /** `keyword in item[1].lower()`; the keyword itself is not lower-cased. */
  predicate Mentions(item: Record, keyword: string) {
    Contains(Lower(Title(item)), keyword)
  }

  /** One pass of the loop: `[item for item in data if keyword not in item[1].lower()]`. */
  function Without(data: seq<Record>, keyword: string): seq<Record> {
    Filter(data, item => !Mentions(item, keyword))
  }

  /** `remove_by_keywords(data, keywords)`: one filtering pass per keyword, in order. */
  function RemoveByKeywords(data: seq<Record>, keywords: seq<string>): (r: seq<Record>)
    requires keywords == [] || Indexable(data)
    ensures forall item :: item in r ==> item in data
    decreases |keywords|
  {
    if keywords == [] then data
    else
      FilterSubset(data, item => !Mentions(item, keywords[0]));
      RemoveByKeywords(Without(data, keywords[0]), keywords[1..])
  }

  /** No keyword occurs in the lower-cased title. */
  predicate Survives(item: Record, keywords: seq<string>) {
    forall k :: k in keywords ==> !Mentions(item, k)
  }

  /** The keyword-by-keyword passes amount to a single filter by `Survives`. */
  lemma {:induction false} RemoveByKeywordsIsFilter(data: seq<Record>, keywords: seq<string>)
    requires keywords == [] || Indexable(data)
    ensures RemoveByKeywords(data, keywords) == Filter(data, item => Survives(item, keywords))
    decreases |keywords|
  {
    if keywords == [] {
      FilterKeepsAll(data, item => Survives(item, keywords));
    } else {
      var k, rest := keywords[0], keywords[1..];
      var w := Without(data, k);
      FilterSubset(data, item => !Mentions(item, k));
      RemoveByKeywordsIsFilter(w, rest);
      assert forall kw :: kw in keywords <==> kw == k || kw in rest by {
        assert keywords == [k] + rest;
      }
      FilterFilter(data, item => !Mentions(item, k), item => Survives(item, rest),
                   item => Survives(item, keywords));
    }
  }

  /** The result is the input with exactly the records that mention a keyword
      removed, order kept and survivors unchanged: `idx` names the survivors. */
  lemma RemoveByKeywordsSelection(data: seq<Record>, keywords: seq<string>) returns (idx: seq<nat>)
    requires keywords == [] || Indexable(data)
    ensures Increasing(idx, |data|) && |idx| == |RemoveByKeywords(data, keywords)|
    ensures forall k :: 0 <= k < |idx| ==> RemoveByKeywords(data, keywords)[k] == data[idx[k]]
    ensures forall i :: 0 <= i < |data| ==> (i in idx <==> Survives(data[i], keywords))
  {
    RemoveByKeywordsIsFilter(data, keywords);
    idx := FilterIndices(data, item => Survives(item, keywords));
  }

  /** Filtering a second time with the same keywords removes nothing more. */
  lemma RemoveByKeywordsIdempotent(data: seq<Record>, keywords: seq<string>)
    requires keywords == [] || Indexable(data)
    ensures RemoveByKeywords(RemoveByKeywords(data, keywords), keywords) == RemoveByKeywords(data, keywords)
  {
    var once := RemoveByKeywords(data, keywords);
    RemoveByKeywordsIsFilter(data, keywords);
    RemoveByKeywordsIsFilter(once, keywords);
    FilterSubset(data, item => Survives(item, keywords));
    FilterKeepsAll(once, item => Survives(item, keywords));
  }

  /** A keyword with an upper-case letter never occurs in a lower-cased title,
      so its pass removes nothing. */
  lemma UppercaseKeywordRemovesNothing(data: seq<Record>, keyword: string)
    requires exists j :: 0 <= j < |keyword| && IsUpper(keyword[j])
    ensures Without(data, keyword) == data
  {
    var j :| 0 <= j < |keyword| && IsUpper(keyword[j]);
    forall item | item in data ensures !Mentions(item, keyword) {
      var title := Lower(Title(item));
      forall o: nat | o <= |title| ensures !OccursAt(title, keyword, o) {
        if o + |keyword| <= |title| {
          assert title[o..o + |keyword|][j] == title[o + j];
        }
      }
    }
    FilterKeepsAll(data, item => !Mentions(item, keyword));
  }

  /** The empty keyword is in every title, so its pass removes everything. */
  lemma EmptyKeywordRemovesAll(data: seq<Record>)
    ensures Without(data, "") == []
  {
    forall item | item in data ensures Mentions(item, "") {
      assert OccursAt(Lower(Title(item)), "", 0);
    }
    FilterKeepsNone(data, item => !Mentions(item, ""));
  }
}
