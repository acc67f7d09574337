/** The pieces of regular-expression matching the scrapers need: character
    classes and the greedy run of one class, plus slicing facts used when a
    match is read back off the text. */
module Pattern {
  import opened Text

  predicate IsHitsChar(c: char) { IsDigit(c) || c == ',' || c == '.' }

  predicate IsSlugChar(c: char) { 'a' <= c <= 'z' || IsDigit(c) || c == '_' || c == '-' }

  /** The character classes the scrapers' patterns use: `\s`, `\d`, `[0-9,.]`
      and `[a-z0-9_-]`. */
  datatype Class = Blank | Digit | HitsChar | SlugChar

  predicate In(c: char, cls: Class) {
    match cls
    case Blank => IsSpace(c)
    case Digit => IsDigit(c)
    case HitsChar => IsHitsChar(c)
    case SlugChar => IsSlugChar(c)
  }

  /** The end of the longest run of characters of class `p` from index `i`:
      what a greedy `\s*`, `\d+`, `[0-9,.]+` or `[a-z0-9_-]+` consumes. */
  function RunEnd(t: string, i: nat, p: Class): (j: nat)
    requires i <= |t|
    ensures i <= j <= |t|
    ensures forall k :: i <= k < j ==> In(t[k], p)
    ensures j == |t| || !In(t[j], p)
    decreases |t| - i
  {
    if i == |t| || !In(t[i], p) then i else RunEnd(t, i + 1, p)
  }

  lemma RunEndIs(t: string, i: nat, p: Class, j: nat)
    requires i <= j <= |t|
    requires forall k :: i <= k < j ==> In(t[k], p)
    requires j == |t| || !In(t[j], p)
    ensures RunEnd(t, i, p) == j
  {
  }

  lemma SliceSplit(t: string, i: nat, j: nat, k: nat)
    requires i <= j <= k <= |t|
    ensures t[i..k] == t[i..j] + t[j..k]
  {
  }

  lemma SliceOfSlice(t: string, n: nat, m: nat, x: nat, y: nat)
    requires n <= m <= |t| && x <= y <= m - n
    ensures t[n..m][x..y] == t[n + x..n + y]
  {
    forall k | 0 <= k < y - x ensures t[n..m][x..y][k] == t[n + x..n + y][k] {
      assert t[n..m][x..y][k] == t[n..m][x + k] == t[n + x + k];
    }
  }
}
