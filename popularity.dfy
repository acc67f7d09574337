/** The popularity pattern of the local detail scraper: the regular expression
    `4 semanas:\s*(\d+)\s*\(([0-9,.]+)\)` searched in a text, and the hits
    figure with its thousands separators `,` and `.` removed. */
module Popularity {
  import opened Wrappers
  import opened Text
  import opened Pattern

  /** The literal that opens the pattern. */
  const Phrase: string := "4 semanas:"

  predicate AllSpace(s: string) { forall k :: 0 <= k < |s| ==> IsSpace(s[k]) }

  /** Text the class `[0-9,.]+` matches. */
  predicate IsHitsText(s: string) { |s| > 0 && forall k :: 0 <= k < |s| ==> IsHitsChar(s[k]) }

  /** The two groups of a match: the rank digits and the hits text. */
  datatype Groups = Groups(rankDigits: string, hitsText: string)

  /** The pattern matched starting exactly at index `i`. Every quantifier in
      it is greedy and no shorter choice could let the rest match, so the
      match at a given start is determined without backtracking. */
  function MatchAt(t: string, i: nat): (r: Option<Groups>)
    requires i <= |t|
    ensures r.Some? ==> IsDigits(r.value.rankDigits) && IsHitsText(r.value.hitsText)
  {
    if !OccursAt(t, Phrase, i) then None
    else
      var b := RunEnd(t, i + |Phrase|, Blank);
      var c := RunEnd(t, b, Digit);
      var d := RunEnd(t, c, Blank);
      if c == b || d == |t| || t[d] != '(' then None
      else
        var e := RunEnd(t, d + 1, HitsChar);
        if e == d + 1 || e == |t| || t[e] != ')' then None
        else Some(Groups(t[b..c], t[d + 1..e]))
  }

  /** The text the pattern spells out for given groups and blanks. */
  function Spelled(ws1: string, rank: string, ws2: string, hits: string): string {
    Phrase + ws1 + rank + ws2 + "(" + hits + ")"
  }

  /** The boundaries of a match: phrase, blanks up to `b`, rank digits up to
      `c`, blanks up to `d`, `(` at `d`, hits text up to `e`, `)` at `e`. */
  lemma MatchAtParts(t: string, i: nat) returns (b: nat, c: nat, d: nat, e: nat)
    requires i <= |t| && MatchAt(t, i).Some?
    ensures i + |Phrase| <= b < c <= d < e < |t| && d + 1 < e
    ensures OccursAt(t, Phrase, i) && t[d] == '(' && t[e] == ')'
    ensures AllSpace(t[i + |Phrase|..b]) && AllSpace(t[c..d])
    ensures MatchAt(t, i).value == Groups(t[b..c], t[d + 1..e])
  {
    b := RunEnd(t, i + |Phrase|, Blank);
    c := RunEnd(t, b, Digit);
    d := RunEnd(t, c, Blank);
    e := RunEnd(t, d + 1, HitsChar);
  }

  /** The text between the boundaries of a match spells out the pattern. */
  lemma SpelledBetween(t: string, i: nat, b: nat, c: nat, d: nat, e: nat)
    requires i + |Phrase| <= b <= c <= d < e < |t|
    requires OccursAt(t, Phrase, i) && t[d] == '(' && t[e] == ')'
    ensures t[i..e + 1] == Spelled(t[i + |Phrase|..b], t[b..c], t[c..d], t[d + 1..e])
  {
    var a := i + |Phrase|;
    SliceSplit(t, i, a, b);
    SliceSplit(t, i, b, c);
    SliceSplit(t, i, c, d);
    SliceSplit(t, i, d, d + 1);
    SliceSplit(t, i, d + 1, e);
    SliceSplit(t, i, e, e + 1);
    assert t[i..][..|Phrase|] == t[i..a];
    assert t[d..d + 1] == "(" && t[e..e + 1] == ")";
  }

  /** Soundness: a match at `i` means the text there spells out the phrase,
      blanks, the rank digits, blanks and the parenthesised hits. */
  lemma MatchAtSound(t: string, i: nat) returns (ws1: string, ws2: string)
    requires i <= |t| && MatchAt(t, i).Some?
    ensures AllSpace(ws1) && AllSpace(ws2)
    ensures StartsWith(t[i..], Spelled(ws1, MatchAt(t, i).value.rankDigits, ws2, MatchAt(t, i).value.hitsText))
  {
    var b, c, d, e := MatchAtParts(t, i);
    ws1, ws2 := t[i + |Phrase|..b], t[c..d];
    SpelledBetween(t, i, b, c, d, e);
    assert t[i..][..e + 1 - i] == t[i..e + 1];
  }

  /** The match at `i` read off the boundaries of its parts. */
  lemma MatchAtBounds(t: string, i: nat, b: nat, c: nat, d: nat, e: nat)
    requires i + |Phrase| <= b < c <= d < e < |t|
    requires OccursAt(t, Phrase, i)
    requires forall k :: i + |Phrase| <= k < b ==> IsSpace(t[k])
    requires forall k :: b <= k < c ==> IsDigit(t[k])
    requires forall k :: c <= k < d ==> IsSpace(t[k])
    requires t[d] == '(' && d + 1 < e && t[e] == ')'
    requires forall k :: d + 1 <= k < e ==> IsHitsChar(t[k])
    ensures MatchAt(t, i) == Some(Groups(t[b..c], t[d + 1..e]))
  {
    RunEndIs(t, i + |Phrase|, Blank, b);
    RunEndIs(t, b, Digit, c);
    RunEndIs(t, c, Blank, d);
    RunEndIs(t, d + 1, HitsChar, e);
  }

  lemma SpaceSlice(t: string, x: nat, y: nat)
    requires x <= y <= |t| && AllSpace(t[x..y])
    ensures forall k :: x <= k < y ==> IsSpace(t[k])
  {
    forall k | x <= k < y ensures IsSpace(t[k]) { assert t[k] == t[x..y][k - x]; }
  }

  lemma DigitSlice(t: string, x: nat, y: nat)
    requires x <= y <= |t| && AllDigits(t[x..y])
    ensures forall k :: x <= k < y ==> IsDigit(t[k])
  {
    forall k | x <= k < y ensures IsDigit(t[k]) { assert t[k] == t[x..y][k - x]; }
  }

  lemma HitsSlice(t: string, x: nat, y: nat)
    requires x <= y <= |t| && IsHitsText(t[x..y])
    ensures forall k :: x <= k < y ==> IsHitsChar(t[k])
  {
    forall k | x <= k < y ensures IsHitsChar(t[k]) { assert t[k] == t[x..y][k - x]; }
  }

  /** A slice of the text that spells `x + y` spells `x`, then `y`. */
  lemma SplitAt(t: string, n: nat, x: string, y: string)
    requires n + |x| + |y| <= |t| && t[n..n + |x| + |y|] == x + y
    ensures t[n..n + |x|] == x && t[n + |x|..n + |x| + |y|] == y
  {
    SliceOfSlice(t, n, n + |x| + |y|, 0, |x|);
    SliceOfSlice(t, n, n + |x| + |y|, |x|, |x| + |y|);
    assert (x + y)[..|x|] == x && (x + y)[|x|..] == y;
  }

  /** The slices of the text holding each part of a spelled-out pattern at `n`. */
  lemma SpelledSlices(t: string, n: nat, ws1: string, rank: string, ws2: string, hits: string)
    requires var s := Spelled(ws1, rank, ws2, hits); n + |s| <= |t| && t[n..n + |s|] == s
    ensures var b := n + |Phrase| + |ws1|;
      var c := b + |rank|;
      var d := c + |ws2|;
      var e := d + 1 + |hits|;
      && e < |t| && t[n..n + |Phrase|] == Phrase && t[n + |Phrase|..b] == ws1 && t[b..c] == rank
      && t[c..d] == ws2 && t[d] == '(' && t[d + 1..e] == hits && t[e] == ')'
  {
    var s1 := Phrase + ws1;
    var s2 := s1 + rank;
    var s3 := s2 + ws2;
    var s4 := s3 + "(";
    var s5 := s4 + hits;
    SplitAt(t, n, s5, ")");
    SplitAt(t, n, s4, hits);
    SplitAt(t, n, s3, "(");
    SplitAt(t, n, s2, ws2);
    SplitAt(t, n, s1, rank);
    SplitAt(t, n, Phrase, ws1);
    assert t[n + |s3|] == t[n + |s3|..n + |s4|][0];
    assert t[n + |s5|] == t[n + |s5|..n + |s5| + 1][0];
  }

  /** The character classes of the parts, read off the text. */
  lemma SpelledClasses(t: string, n: nat, b: nat, c: nat, d: nat, e: nat, ws1: string, rank: string, ws2: string, hits: string)
    requires AllSpace(ws1) && AllSpace(ws2) && IsDigits(rank) && IsHitsText(hits)
    requires n + |Phrase| <= b <= c <= d < e <= |t|
    requires t[n + |Phrase|..b] == ws1 && t[b..c] == rank && t[c..d] == ws2 && t[d + 1..e] == hits
    ensures forall k :: n + |Phrase| <= k < b ==> IsSpace(t[k])
    ensures forall k :: b <= k < c ==> IsDigit(t[k])
    ensures forall k :: c <= k < d ==> IsSpace(t[k])
    ensures forall k :: d + 1 <= k < e ==> IsHitsChar(t[k])
  {
    SpaceSlice(t, n + |Phrase|, b);
    DigitSlice(t, b, c);
    SpaceSlice(t, c, d);
    HitsSlice(t, d + 1, e);
  }

  /** The boundaries of the parts of a spelled-out pattern at `n`. */
  lemma SpelledParts(t: string, n: nat, ws1: string, rank: string, ws2: string, hits: string)
    returns (b: nat, c: nat, d: nat, e: nat)
    requires AllSpace(ws1) && AllSpace(ws2) && IsDigits(rank) && IsHitsText(hits)
    requires var s := Spelled(ws1, rank, ws2, hits); n + |s| <= |t| && t[n..n + |s|] == s
    ensures n + |Phrase| <= b < c <= d < e < |t| && d + 1 < e
    ensures OccursAt(t, Phrase, n) && t[d] == '(' && t[e] == ')'
    ensures forall k :: n + |Phrase| <= k < b ==> IsSpace(t[k])
    ensures forall k :: b <= k < c ==> IsDigit(t[k])
    ensures forall k :: c <= k < d ==> IsSpace(t[k])
    ensures forall k :: d + 1 <= k < e ==> IsHitsChar(t[k])
    ensures t[b..c] == rank && t[d + 1..e] == hits
  {
    SpelledSlices(t, n, ws1, rank, ws2, hits);
    b := n + |Phrase| + |ws1|;
    c := b + |rank|;
    d := c + |ws2|;
    e := d + 1 + |hits|;
    assert t[n..][..|Phrase|] == t[n..n + |Phrase|];
    SpelledClasses(t, n, b, c, d, e, ws1, rank, ws2, hits);
  }

  /** The match at `n` in a text that holds the spelled-out pattern there. */
  lemma MatchAtSpelled(t: string, n: nat, ws1: string, rank: string, ws2: string, hits: string)
    requires AllSpace(ws1) && AllSpace(ws2) && IsDigits(rank) && IsHitsText(hits)
    requires var s := Spelled(ws1, rank, ws2, hits); n + |s| <= |t| && t[n..n + |s|] == s
    ensures MatchAt(t, n) == Some(Groups(rank, hits))
  {
    var b, c, d, e := SpelledParts(t, n, ws1, rank, ws2, hits);
    MatchAtBounds(t, n, b, c, d, e);
  }

  /** Completeness: wherever the text spells out the pattern, the match at
      that index yields exactly those groups. */
  lemma MatchAtComplete(p: string, ws1: string, rank: string, ws2: string, hits: string, q: string)
    requires AllSpace(ws1) && AllSpace(ws2) && IsDigits(rank) && IsHitsText(hits)
    ensures MatchAt(p + Spelled(ws1, rank, ws2, hits) + q, |p|) == Some(Groups(rank, hits))
  {
    var s := Spelled(ws1, rank, ws2, hits);
    var t := p + s + q;
    assert t[|p|..|p| + |s|] == s;
    MatchAtSpelled(t, |p|, ws1, rank, ws2, hits);
  }

  /** The first index at or after `i` where the pattern matches, or
      `|t| + 1` when there is none: `re.search` scans left to right. */
  function SearchIndex(t: string, i: nat): (j: nat)
    requires i <= |t| + 1
    ensures i <= j <= |t| + 1
    ensures forall k :: i <= k < j && k <= |t| ==> MatchAt(t, k).None?
    ensures j <= |t| ==> MatchAt(t, j).Some?
    decreases |t| + 1 - i
  {
    if i > |t| then i
    else if MatchAt(t, i).Some? then i
    else SearchIndex(t, i + 1)
  }

  /** `re.search(pattern, t)`: the groups of the leftmost match. */
  function Search(t: string): Option<Groups> {
    var j := SearchIndex(t, 0);
    if j <= |t| then MatchAt(t, j) else None
  }

  /** The search reports the match at `j` when the phrase occurs nowhere
      before `j`. */
  lemma SearchAt(t: string, j: nat)
    requires j <= |t| && MatchAt(t, j).Some?
    requires forall k :: 0 <= k < j ==> !OccursAt(t, Phrase, k)
    ensures Search(t) == MatchAt(t, j)
  {
  }

  /** When the phrase first occurs where the text spells out the pattern,
      that occurrence is the one the search reports. */
  lemma SearchFindsFirstPhrase(p: string, ws1: string, rank: string, ws2: string, hits: string, q: string)
    requires AllSpace(ws1) && AllSpace(ws2) && IsDigits(rank) && IsHitsText(hits)
    requires forall k :: 0 <= k < |p| ==> !OccursAt(p + Spelled(ws1, rank, ws2, hits) + q, Phrase, k)
    ensures Search(p + Spelled(ws1, rank, ws2, hits) + q) == Some(Groups(rank, hits))
  {
    MatchAtComplete(p, ws1, rank, ws2, hits, q);
    SearchAt(p + Spelled(ws1, rank, ws2, hits) + q, |p|);
  }

  /** `s.replace(',', '').replace('.', '')` */
  function RemoveSeparators(s: string): string {
    RemoveChar(RemoveChar(s, ','), '.')
  }

  lemma RemoveSeparatorsAppend(a: string, b: string)
    ensures RemoveSeparators(a + b) == RemoveSeparators(a) + RemoveSeparators(b)
  {
    RemoveCharAppend(a, b, ',');
    RemoveCharAppend(RemoveChar(a, ','), RemoveChar(b, ','), '.');
  }

  lemma RemoveSeparatorsOfDigits(a: string)
    requires AllDigits(a)
    ensures RemoveSeparators(a) == a
  {
    assert ',' !in a && '.' !in a;
    RemoveCharOfAbsent(a, ',');
    RemoveCharOfAbsent(a, '.');
  }

  /** `int(hits.replace(',', '').replace('.', ''))`: None where the removal
      leaves no digit and `int` raises. */
  function HitsValue(hits: string): (r: Option<nat>)
    requires IsHitsText(hits)
    ensures r.None? <==> forall k :: 0 <= k < |hits| ==> !IsDigit(hits[k])
  {
    var digits := RemoveSeparators(hits);
    assert AllDigits(digits) by {
      forall k | 0 <= k < |digits| ensures IsDigit(digits[k]) {
        assert digits[k] in digits;
      }
    }
    if |digits| == 0 then
      assert forall k :: 0 <= k < |hits| ==> !IsDigit(hits[k]) by {
        forall k | 0 <= k < |hits| && IsDigit(hits[k]) ensures false {
          SeparatorsRemovalKeepsDigit(hits, k);
        }
      }
      None
    else
      assert digits[0] in hits;
      Some(DigitsValue(digits))
  }

  lemma SeparatorsRemovalKeepsDigit(s: string, k: nat)
    requires k < |s| && IsDigit(s[k])
    ensures s[k] in RemoveSeparators(s)
  {
    var x := s[k];
    assert s == s[..k] + [x] + s[k + 1..];
    RemoveSeparatorsAppend(s[..k] + [x], s[k + 1..]);
    RemoveSeparatorsAppend(s[..k], [x]);
    RemoveSeparatorsOfDigits([x]);
  }

  lemma RemoveSeparatorsAround(a: string, sep: char, b: string)
    requires AllDigits(a) && AllDigits(b) && (sep == ',' || sep == '.')
    ensures RemoveSeparators(a + [sep] + b) == a + b == RemoveSeparators(a + b)
  {
    RemoveSeparatorsAppend(a + [sep], b);
    RemoveSeparatorsAppend(a, [sep]);
    RemoveSeparatorsAppend(a, b);
    RemoveSeparatorsOfDigits(a);
    RemoveSeparatorsOfDigits(b);
    assert RemoveSeparators([sep]) == [] by {
      assert [sep][..0] == [];
    }
  }

  /** Where the separators stand does not matter: `1.234`, `1,234` and
      `1234` give the same figure. */
  lemma HitsIgnoreSeparator(a: string, sep: char, b: string)
    requires AllDigits(a) && AllDigits(b) && (sep == ',' || sep == '.')
    requires |a + b| > 0
    ensures IsHitsText(a + [sep] + b) && IsHitsText(a + b)
    ensures HitsValue(a + [sep] + b) == HitsValue(a + b) == Some(DigitsValue(a + b))
  {
    var s, u := a + [sep] + b, a + b;
    forall k | 0 <= k < |s| ensures IsHitsChar(s[k]) {
      if k < |a| { assert s[k] == a[k]; } else if k > |a| { assert s[k] == b[k - |a| - 1]; }
    }
    forall k | 0 <= k < |u| ensures IsDigit(u[k]) {
      if k < |a| { assert u[k] == a[k]; } else { assert u[k] == b[k - |a|]; }
    }
    RemoveSeparatorsAround(a, sep, b);
    assert HitsValue(s) == Some(DigitsValue(u));
    assert HitsValue(u) == Some(DigitsValue(u));
  }

  /** A popularity line as the detail pages print it, `4 semanas: 21 (1.603)`:
      rank 21 with 1.603 hits a day. */
  lemma PopularityExample()
    ensures Search(Spelled(" ", "21", " ", "1.603")) == Some(Groups("21", "1.603"))
  {
    var t := Spelled(" ", "21", " ", "1.603");
    SearchFindsFirstPhrase("", " ", "21", " ", "1.603", "");
    assert "" + t + "" == t;
  }
}
