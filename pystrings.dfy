/** The Python `str` operations the scraper's listing code relies on:
    `lower()`, the `in` substring test and `split(sep)`. `Join` is not used by
    the scraper; it is here only to specify `Split` through `JoinSplit`. */
module PyStrings {
  import opened Wrappers

  predicate IsUpper(c: char) {
    'A' <= c <= 'Z'
  }

  /** `str.lower()` on one character, for the ASCII letters. */
  function LowerChar(c: char): (d: char)
    ensures IsUpper(c) ==> d as int == c as int + 32
    ensures !IsUpper(c) ==> d == c
    ensures !IsUpper(d)
  {
    if IsUpper(c) then (c as int - 'A' as int + 'a' as int) as char else c
  }

  /** `s.lower()`: upper-case ASCII letters become lower-case, everything else is kept. */
  function Lower(s: string): (r: string)
    ensures |r| == |s|
    ensures forall i :: 0 <= i < |s| ==> r[i] == LowerChar(s[i])
    ensures forall i :: 0 <= i < |r| ==> !IsUpper(r[i])
  {
    seq(|s|, i requires 0 <= i < |s| => LowerChar(s[i]))
  }

  /** `sub` occurs in `s` starting at index `k`. */
  predicate OccursAt(s: string, sub: string, k: nat) {
    k + |sub| <= |s| && s[k..k + |sub|] == sub
  }

  /** Python's `sub in s`; the empty string is in every string. */
  predicate Contains(s: string, sub: string) {
    exists k: nat :: k <= |s| && OccursAt(s, sub, k)
  }

  lemma OccursAtShift(s: string, sub: string, d: nat, k: nat)
    requires d <= |s|
    ensures OccursAt(s[d..], sub, k) <==> OccursAt(s, sub, d + k)
  {
    if d + k + |sub| <= |s| {
      assert s[d..][k..k + |sub|] == s[d + k..d + k + |sub|];
    }
  }

  lemma OccursAtPrefix(s: string, sub: string, i: nat, k: nat)
    requires i <= |s|
    ensures OccursAt(s[..i], sub, k) <==> k + |sub| <= i && OccursAt(s, sub, k)
  {
    if k + |sub| <= i {
      assert s[..i][k..k + |sub|] == s[k..k + |sub|];
    }
  }

  /** For a one-character separator, an occurrence is just that character. */
  lemma OccursAtChar(s: string, c: char, k: nat)
    ensures OccursAt(s, [c], k) <==> k < |s| && s[k] == c
  {
    if k < |s| {
      assert s[k..k + 1] == [s[k]];
    }
  }

  /** A string cannot contain a substring that has a character the string lacks. */
  lemma MissingCharNotContained(s: string, sub: string, c: char)
    requires c in sub && c !in s
    ensures !Contains(s, sub)
  {
    var j :| 0 <= j < |sub| && sub[j] == c;
    forall k: nat | k <= |s| ensures !OccursAt(s, sub, k) {
      if k + |sub| <= |s| {
        assert s[k..k + |sub|][j] == s[k + j];
      }
    }
  }

  lemma ContainsChar(s: string, c: char)
    ensures Contains(s, [c]) <==> c in s
  {
    if c in s {
      var k :| 0 <= k < |s| && s[k] == c;
      OccursAtChar(s, c, k);
    }
    if Contains(s, [c]) {
      var k: nat :| k <= |s| && OccursAt(s, [c], k);
      OccursAtChar(s, c, k);
    }
  }

  /** The index of the leftmost occurrence of `sep` in `s`, as `str.find`
      computes it (`IndexOfLeftmost` states that it is the leftmost). */
  function IndexOf(s: string, sep: string): (r: Option<nat>)
    requires |sep| > 0
    ensures r.Some? ==> r.value + |sep| <= |s|
    decreases |s|
  {
    if |s| < |sep| then
      None
    else if s[..|sep|] == sep then
      Some(0)
    else
      match IndexOf(s[1..], sep)
      case None => None
      case Some(j) => Some(j + 1)
  }

  /** `IndexOf` finds an occurrence with none before it, and finds nothing
      only when `sep` does not occur at all. */
  lemma {:induction false} IndexOfLeftmost(s: string, sep: string)
    requires |sep| > 0
    ensures IndexOf(s, sep).Some? ==> OccursAt(s, sep, IndexOf(s, sep).value)
    ensures IndexOf(s, sep).Some? ==> forall k: nat :: k < IndexOf(s, sep).value ==> !OccursAt(s, sep, k)
    ensures IndexOf(s, sep).None? <==> !Contains(s, sep)
    decreases |s|
  {
    if |s| >= |sep| && s[..|sep|] != sep {
      var tail := s[1..];
      IndexOfLeftmost(tail, sep);
      assert !OccursAt(s, sep, 0);
      forall k: nat ensures OccursAt(tail, sep, k) <==> OccursAt(s, sep, 1 + k) {
        OccursAtShift(s, sep, 1, k);
      }
      if IndexOf(tail, sep).Some? {
        var j := IndexOf(tail, sep).value;
        forall k: nat | k < j + 1 ensures !OccursAt(s, sep, k) {
          if k > 0 {
            assert !OccursAt(tail, sep, k - 1);
          }
        }
        assert OccursAt(s, sep, j + 1);
      } else {
        forall k: nat | 1 <= k ensures !OccursAt(s, sep, k) {
          assert !OccursAt(tail, sep, k - 1);
        }
      }
    } else if |s| >= |sep| {
      assert OccursAt(s, sep, 0);
    }
  }

  /** `s.split(sep)`: the pieces between the non-overlapping occurrences of
      `sep`, found left to right. */
  function Split(s: string, sep: string): (r: seq<string>)
    requires |sep| > 0
    ensures |r| >= 1
    decreases |s|
  {
    match IndexOf(s, sep)
    case None => [s]
    case Some(i) => [s[..i]] + Split(s[i + |sep|..], sep)
  }

  /** `sep.join(pieces)`, the inverse of `Split`; it specifies `Split` and is
      not an operation of the scraper. */
  function Join(pieces: seq<string>, sep: string): string
    requires |pieces| >= 1
  {
    if |pieces| == 1 then pieces[0] else pieces[0] + sep + Join(pieces[1..], sep)
  }

  /** A split with a first occurrence at `i` is the text before it, then the split of what follows. */
  lemma SplitUnfold(s: string, sep: string, i: nat)
    requires |sep| > 0 && IndexOf(s, sep) == Some(i)
    ensures i + |sep| <= |s|
    ensures Split(s, sep) == [s[..i]] + Split(s[i + |sep|..], sep)
  {
  }

  /** Joining the pieces of a split with the same separator gives back the string. */
  lemma {:induction false} JoinSplit(s: string, sep: string)
    requires |sep| > 0
    ensures Join(Split(s, sep), sep) == s
    decreases |s|
  {
    var found := IndexOf(s, sep);
    IndexOfLeftmost(s, sep);
    if found.Some? {
      var i := found.value;
      var head, rest := s[..i], s[i + |sep|..];
      var tail := Split(rest, sep);
      JoinSplit(rest, sep);
      JoinCons(head, tail, sep);
      assert s[i..i + |sep|] == sep;
      assert s == head + s[i..i + |sep|] + rest;
    }
  }

  lemma JoinCons(head: string, tail: seq<string>, sep: string)
    requires |tail| >= 1
    ensures Join([head] + tail, sep) == head + sep + Join(tail, sep)
  {
    assert ([head] + tail)[1..] == tail;
  }

  /** No piece of a split contains the separator. */
  lemma {:induction false} SplitPiecesFree(s: string, sep: string)
    requires |sep| > 0
    ensures forall p :: p in Split(s, sep) ==> !Contains(p, sep)
    decreases |s|
  {
    IndexOfLeftmost(s, sep);
    match IndexOf(s, sep)
    case None =>
    case Some(i) =>
      var rest := s[i + |sep|..];
      SplitPiecesFree(rest, sep);
      if Contains(s[..i], sep) {
        var k: nat :| k <= i && OccursAt(s[..i], sep, k);
        OccursAtPrefix(s, sep, i, k);
        assert false;
      }
  }

  /** A split has a second piece exactly when the separator occurs. */
  lemma SplitHasSecond(s: string, sep: string)
    requires |sep| > 0
    ensures |Split(s, sep)| >= 2 <==> Contains(s, sep)
  {
    IndexOfLeftmost(s, sep);
  }

  /** The first piece of a split of the suffix `s[d..]`, located in `s`: it runs
      from `d` up to the first occurrence of `sep` at or after `d`, or to the end. */
  lemma FirstPieceFrom(s: string, sep: string, d: nat)
    requires |sep| > 0 && d <= |s|
    ensures var p := Split(s[d..], sep)[0];
            d + |p| <= |s| && s[d..d + |p|] == p
            && (forall k: nat :: d <= k < d + |p| ==> !OccursAt(s, sep, k))
            && (d + |p| == |s| || OccursAt(s, sep, d + |p|))
  {
    var rest := s[d..];
    var p := Split(rest, sep)[0];
    var next := IndexOf(rest, sep);
    IndexOfLeftmost(rest, sep);
    if next.None? {
      assert p == rest;
      forall k: nat | d <= k < |s| ensures !OccursAt(s, sep, k) {
        OccursAtShift(s, sep, d, k - d);
      }
    } else {
      var j := next.value;
      assert p == rest[..j];
      forall k: nat | d <= k < d + j ensures !OccursAt(s, sep, k) {
        OccursAtShift(s, sep, d, k - d);
      }
      OccursAtShift(s, sep, d, j);
    }
  }

  /** The second piece of `s.split(sep)` is the text after the first occurrence
      of `sep` up to the next occurrence that starts after it, or to the end. */
  lemma SplitSecond(s: string, sep: string) returns (i: nat)
    requires |sep| > 0 && Contains(s, sep)
    ensures |Split(s, sep)| >= 2
    ensures OccursAt(s, sep, i) && forall k: nat :: k < i ==> !OccursAt(s, sep, k)
    ensures var p := Split(s, sep)[1];
            var e := i + |sep| + |p|;
            e <= |s| && s[i + |sep|..e] == p
            && (forall k: nat :: i + |sep| <= k < e ==> !OccursAt(s, sep, k))
            && (e == |s| || OccursAt(s, sep, e))
  {
    IndexOfLeftmost(s, sep);
    i := IndexOf(s, sep).value;
    var d := i + |sep|;
    SplitUnfold(s, sep, i);
    assert Split(s, sep)[1] == Split(s[d..], sep)[0];
    FirstPieceFrom(s, sep, d);
  }
}
