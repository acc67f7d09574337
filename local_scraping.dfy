/** The local test scraper (`test_scraping_local.py`): the ranking table of a
    saved popularity page, the fields of a saved detail page, and the run that
    joins them. Reading files and parsing HTML are outside the model: a page
    arrives as the values BeautifulSoup would hand over. */
module LocalScraping {
  import opened Wrappers
  import opened Text
  import opened Sequences
  import opened Pattern
  import opened Popularity
  import opened IsoDate

  // ------------------------------------------------------------ the slug

  /** The host part that must precede the slug. */
  const Host: string := "distrowatch.com/"

  /** Text the group `([a-z0-9_-]+)` matches. */
  predicate IsSlug(s: string) { |s| > 0 && forall k :: 0 <= k < |s| ==> IsSlugChar(s[k]) }

  /** Where `$` matches: at the end, or just before a final newline. */
  predicate AtEnd(h: string, j: nat) {
    j == |h| || (j + 1 == |h| && h[j] == '\n')
  }

  /** `distrowatch\.com/([a-z0-9_-]+)$` matched starting exactly at `i`. The
      class cannot hold a newline, so the greedy run is the only candidate. */
  function SlugAt(h: string, i: nat): (r: Option<string>)
    requires i <= |h|
    ensures r.Some? ==> IsSlug(r.value)
  {
    if !OccursAt(h, Host, i) then None
    else
      var e := RunEnd(h, i + |Host|, SlugChar);
      if e == i + |Host| || !AtEnd(h, e) then None else Some(h[i + |Host|..e])
  }

  /** The leftmost match at or after `i`. */
  function SlugSearch(h: string, i: nat): (r: Option<string>)
    requires i <= |h| + 1
    ensures r.Some? ==> IsSlug(r.value)
    decreases |h| + 1 - i
  {
    if i > |h| then None
    else if SlugAt(h, i).Some? then SlugAt(h, i)
    else SlugSearch(h, i + 1)
  }

  /** The slug `re.search` extracts from an `href`, or None when it does not
      match. */
  function SlugOf(href: string): (r: Option<string>)
    ensures r.Some? ==> IsSlug(r.value)
  {
    SlugSearch(href, 0)
  }

  /** The text a slug match spells out: host, slug and an optional final
      newline. */
  function SlugTail(slug: string, newline: bool): string {
    Host + slug + (if newline then "\n" else "")
  }

  /** At most one start matches: a match's slug runs to the end of the text,
      and a later `distrowatch.com/` inside that run would put a `/` into it. */
  lemma SlugAtUnique(h: string, i: nat, j: nat)
    requires i < j <= |h|
    ensures SlugAt(h, i).Some? ==> SlugAt(h, j).None?
  {
    if SlugAt(h, i).Some? && OccursAt(h, Host, j) {
      var ei := RunEnd(h, i + |Host|, SlugChar);
      var slash := j + |Host| - 1;
      assert h[slash] == h[j..][..|Host|][|Host| - 1] == '/';
      assert !In(h[slash], SlugChar);
      assert ei <= slash;
      assert RunEnd(h, j + |Host|, SlugChar) == j + |Host|;
    }
  }

  /** The search reports the match at `j` when nothing matches between `i`
      and `j`. */
  lemma {:induction false} SlugSearchAt(h: string, i: nat, j: nat)
    requires i <= j <= |h| && SlugAt(h, j).Some?
    requires forall k :: i <= k < j ==> SlugAt(h, k).None?
    ensures SlugSearch(h, i) == SlugAt(h, j)
    decreases j - i
  {
    if i < j {
      SlugSearchAt(h, i + 1, j);
    }
  }

  /** Whatever the search reports is the match at some start. */
  lemma {:induction false} SlugSearchSome(h: string, i: nat) returns (j: nat)
    requires i <= |h| + 1 && SlugSearch(h, i).Some?
    ensures i <= j <= |h| && SlugAt(h, j) == SlugSearch(h, i)
    decreases |h| + 1 - i
  {
    if SlugAt(h, i).Some? {
      j := i;
    } else {
      j := SlugSearchSome(h, i + 1);
    }
  }

  /** Completeness: an `href` that ends in `distrowatch.com/` and a slug,
      possibly followed by one newline, yields that slug. */
  lemma SlugOfSpelled(p: string, slug: string, newline: bool)
    requires IsSlug(slug)
    ensures SlugOf(p + SlugTail(slug, newline)) == Some(slug)
  {
    var h := p + SlugTail(slug, newline);
    var a := |p| + |Host|;
    var e := a + |slug|;
    assert h[|p|..][..|Host|] == Host;
    forall k | a <= k < e ensures In(h[k], SlugChar) {
      assert h[k] == slug[k - a];
    }
    RunEndIs(h, a, SlugChar, e);
    assert h[a..e] == slug;
    assert SlugAt(h, |p|) == Some(slug);
    forall k | 0 <= k < |p| ensures SlugAt(h, k).None? {
      SlugAtUnique(h, k, |p|);
    }
    SlugSearchAt(h, 0, |p|);
  }

  /** A match at `j` spells out the rest of the text. */
  lemma SlugAtSpelled(h: string, j: nat) returns (newline: bool)
    requires j <= |h| && SlugAt(h, j).Some?
    ensures h[j..] == SlugTail(SlugAt(h, j).value, newline)
  {
    var a := j + |Host|;
    var e := RunEnd(h, a, SlugChar);
    newline := e < |h|;
    assert h[j..a] == Host by {
      assert h[j..][..|Host|] == Host;
    }
    assert h[e..] == if newline then "\n" else "";
    assert h[j..] == h[j..a] + h[a..e] + h[e..];
  }

  /** Soundness: a slug is only reported for an `href` of that shape. */
  lemma SlugOfSound(href: string) returns (p: string, newline: bool)
    requires SlugOf(href).Some?
    ensures href == p + SlugTail(SlugOf(href).value, newline)
  {
    var j := SlugSearchSome(href, 0);
    p := href[..j];
    newline := SlugAtSpelled(href, j);
    assert href == href[..j] + href[j..];
  }

  // ------------------------------------------------------------ the ranking

  /** An anchor: its stripped text and its `href` attribute, if any. */
  datatype Anchor = Anchor(text: string, href: Option<string>)

  /** A `td.phr2` cell and the first anchor inside it, if any. */
  datatype NameCell = NameCell(link: Option<Anchor>)

  /** A `th.phr1` cell of the ranking table: its stripped text and the first
      following `td.phr2` sibling, if any. */
  datatype RankCell = RankCell(rankText: string, nameCell: Option<NameCell>)

  /** One entry of the local ranking. */
  datatype LocalDistro = LocalDistro(rank: int, name: string, slug: string, htmlFile: string)

  /** The name of the saved detail page of a distribution. */
  function HtmlFileFor(name: string): string {
    "url/DistroWatch.com_ " + name + ".html"
  }

  /** The entry a cell with a readable rank contributes: only when it has a
      name cell with an anchor whose `href` yields a slug. */
  function CellEntry(rank: int, c: RankCell): (r: Option<LocalDistro>)
    ensures r.Some? ==> r.value.rank == rank && IsSlug(r.value.slug)
    ensures r.Some? ==> r.value.htmlFile == HtmlFileFor(r.value.name)
    ensures r.Some? <==> (c.nameCell.Some? && c.nameCell.value.link.Some?
                          && SlugOf(c.nameCell.value.link.value.href.GetOr("")).Some?)
  {
    match c.nameCell
    case None => None
    case Some(nc) =>
      match nc.link
      case None => None
      case Some(a) =>
        match SlugOf(a.href.GetOr(""))
        case None => None
        case Some(slug) => Some(LocalDistro(rank, a.text, slug, HtmlFileFor(a.text)))
  }

  /** An entry's slug is valid and its file is named after it. */
  predicate Filed(d: LocalDistro) {
    IsSlug(d.slug) && d.htmlFile == HtmlFileFor(d.name)
  }

  /** One pass of the loop over the cells: `int()` on the rank, whose
      rejection ends the scrape with that text, then the cell's entry, if
      any, appended. */
  function AddCell(ds: seq<LocalDistro>, c: RankCell): (r: Result<seq<LocalDistro>, string>)
    ensures r.Err? <==> ParseInt(c.rankText).None?
    ensures r.Err? ==> r.error == c.rankText
    ensures r.Ok? ==> ds <= r.value && |r.value| <= |ds| + 1
    ensures r.Ok? && |r.value| > |ds| ==> Filed(r.value[|ds|])
  {
    match ParseInt(c.rankText)
    case None => Err(c.rankText)
    case Some(rank) =>
      match CellEntry(rank, c)
      case None => Ok(ds)
      case Some(d) => Ok(ds + [d])
  }

  /** The entries gathered from the given cells, or the text of the first
      rank `int()` rejects. */
  function Collected(cells: seq<RankCell>): (r: Result<seq<LocalDistro>, string>)
    ensures r.Ok? ==> |r.value| <= |cells|
    ensures r.Ok? ==> forall k :: 0 <= k < |r.value| ==> Filed(r.value[k])
  {
    if |cells| == 0 then Ok([])
    else
      match Collected(cells[..|cells| - 1])
      case Err(e) => Err(e)
      case Ok(ds) => AddCell(ds, cells[|cells| - 1])
  }

  predicate Reached(cells: seq<RankCell>, limit: int) {
    Collected(cells).Ok? && |Collected(cells).value| >= limit
  }

  /** How many cells the loop reads once it has read `n` without stopping: it
      stops after the first cell that leaves `limit` entries or more. */
  function CellsRead(cells: seq<RankCell>, limit: int, n: nat): (m: nat)
    requires n <= |cells|
    ensures n <= m <= |cells|
  {
    FirstStop(c => Reached(c, limit), cells, n)
  }

  /** `scrape_ranking_page_local(html_file, limit)` on the `th.phr1` cells. */
  function RankingLocal(cells: seq<RankCell>, limit: int): Result<seq<LocalDistro>, string> {
    Collected(cells[..CellsRead(cells, limit, 0)])
  }

  /** A rejected rank stays the outcome however many cells follow. */
  lemma {:induction false} CollectedErrPersists(cells: seq<RankCell>, n: nat, m: nat)
    requires n <= m <= |cells| && Collected(cells[..n]).Err?
    ensures Collected(cells[..m]) == Collected(cells[..n])
    decreases m - n
  {
    if n < m {
      CollectedErrPersists(cells, n, m - 1);
      assert cells[..m] == cells[..m - 1] + [cells[m - 1]];
      CollectedAfterErr(cells[..m - 1], cells[m - 1]);
    }
  }

  lemma CollectedAfterErr(cells: seq<RankCell>, c: RankCell)
    requires Collected(cells).Err?
    ensures Collected(cells + [c]) == Collected(cells)
  {
    assert (cells + [c])[..|cells|] == cells;
  }

  /** One more cell adds at most one entry, at the end. */
  lemma CollectedStep(cells: seq<RankCell>, n: nat)
    requires n < |cells| && Collected(cells[..n + 1]).Ok?
    ensures Collected(cells[..n]).Ok?
    ensures Collected(cells[..n]).value <= Collected(cells[..n + 1]).value
    ensures |Collected(cells[..n + 1]).value| <= |Collected(cells[..n]).value| + 1
  {
    assert cells[..n + 1][..n] == cells[..n];
  }

  /** The entries of a shorter run of cells begin the entries of a longer one. */
  lemma {:induction false} CollectedPrefix(cells: seq<RankCell>, n: nat)
    requires n <= |cells| && Collected(cells).Ok?
    ensures Collected(cells[..n]).Ok? && Collected(cells[..n]).value <= Collected(cells).value
    decreases |cells| - n
  {
    if n == |cells| {
      assert cells[..n] == cells;
    } else {
      CollectedPrefix(cells, n + 1);
      CollectedStep(cells, n);
    }
  }

  /** The cell that brings the count to `limit` leaves exactly the first
      `limit` entries of the whole table. */
  lemma TakesFirstAtStop(cells: seq<RankCell>, limit: int, n: nat)
    requires limit >= 1 && n < |cells| && Collected(cells).Ok?
    requires Collected(cells[..n]).Ok? && |Collected(cells[..n]).value| < limit
    requires Reached(cells[..n + 1], limit)
    ensures var all := Collected(cells).value;
      limit <= |all| && Collected(cells[..n + 1]) == Ok(all[..limit])
  {
    CollectedPrefix(cells, n + 1);
    CollectedStep(cells, n);
    PrefixAtLimit(Collected(cells[..n]).value, Collected(cells[..n + 1]).value, Collected(cells).value, limit);
  }

  /** A prefix that grew by at most one past `limit` is the first `limit`
      elements. */
  lemma PrefixAtLimit<T>(prev: seq<T>, next: seq<T>, all: seq<T>, limit: int)
    requires |prev| < limit <= |next| <= |prev| + 1 && next <= all
    ensures limit <= |all| && next == all[..limit]
  {
  }

  /** Reading every cell without reaching the limit takes every entry. */
  lemma AllCellsRead(cells: seq<RankCell>, limit: int)
    requires Collected(cells).Ok? && |Collected(cells).value| < limit
    ensures var all := Collected(cells).value;
      Collected(cells[..CellsRead(cells, limit, |cells|)]) == Ok(all[..Min(limit, |all|)])
  {
    var all := Collected(cells).value;
    assert cells[..|cells|] == cells;
    assert all[..Min(limit, |all|)] == all;
  }

  lemma {:induction false} CellsReadTakesFirst(cells: seq<RankCell>, limit: int, n: nat)
    requires limit >= 1 && n <= |cells| && Collected(cells).Ok?
    requires Collected(cells[..n]).Ok? && |Collected(cells[..n]).value| < limit
    ensures var all := Collected(cells).value;
      Collected(cells[..CellsRead(cells, limit, n)]) == Ok(all[..Min(limit, |all|)])
    decreases |cells| - n
  {
    if n == |cells| {
      assert cells[..n] == cells;
      AllCellsRead(cells, limit);
    } else {
      CollectedPrefix(cells, n + 1);
      if Reached(cells[..n + 1], limit) {
        assert CellsRead(cells, limit, n) == n + 1;
        TakesFirstAtStop(cells, limit, n);
      } else {
        assert CellsRead(cells, limit, n) == CellsRead(cells, limit, n + 1);
        CellsReadTakesFirst(cells, limit, n + 1);
      }
    }
  }

  /** With a positive limit and every rank readable, the ranking is the first
      `limit` entries of the whole table (all of them when there are fewer). */
  lemma TableTakesFirst(cells: seq<RankCell>, limit: int)
    requires limit >= 1 && Collected(cells).Ok?
    ensures var all := Collected(cells).value;
      RankingLocal(cells, limit) == Ok(all[..Min(limit, |all|)])
  {
    assert cells[..0] == [];
    CellsReadTakesFirst(cells, limit, 0);
  }

  /** The loop reads the same cells of the table as of a prefix that already
      reaches the limit (or is the whole table). */
  lemma CellsReadOfPrefix(cells: seq<RankCell>, limit: int, n: nat)
    requires n <= |cells| && (n == |cells| || Reached(cells[..n], limit))
    requires 0 < n || n == |cells|
    ensures CellsRead(cells, limit, 0) == CellsRead(cells[..n], limit, 0)
  {
    FirstStopOfPrefix(c => Reached(c, limit), cells, n, 0);
  }

  /** The ranking is the first `limit` entries of the cells read: given a
      prefix of the table whose ranks are all readable and which either
      gathers `limit` entries or is the whole table, the ranking is the
      first `limit` of its entries. Cells after that prefix are never read,
      so their ranks do not matter. */
  lemma RankingTakesFirst(cells: seq<RankCell>, limit: int, n: nat)
    requires limit >= 1 && n <= |cells| && Collected(cells[..n]).Ok?
    requires n == |cells| || |Collected(cells[..n]).value| >= limit
    ensures var all := Collected(cells[..n]).value;
      RankingLocal(cells, limit) == Ok(all[..Min(limit, |all|)])
  {
    var prefix := cells[..n];
    if n == 0 {
      assert cells[..0] == [];
    }
    CellsReadOfPrefix(cells, limit, n);
    var m := CellsRead(cells, limit, 0);
    assert m == CellsRead(prefix, limit, 0);
    TableTakesFirst(prefix, limit);
    assert RankingLocal(prefix, limit) == Collected(prefix[..m]);
    assert prefix[..m] == cells[..m];
    assert RankingLocal(cells, limit) == Collected(cells[..m]);
  }

  lemma {:induction false} CellsReadBound(cells: seq<RankCell>, limit: int, n: nat)
    requires limit >= 1 && n <= |cells|
    requires Collected(cells[..n]).Ok? ==> |Collected(cells[..n]).value| < limit
    ensures var r := Collected(cells[..CellsRead(cells, limit, n)]);
      r.Ok? ==> |r.value| <= limit
    decreases |cells| - n
  {
    if n < |cells| {
      if Collected(cells[..n + 1]).Ok? {
        CollectedStep(cells, n);
      }
      if !Reached(cells[..n + 1], limit) {
        CellsReadBound(cells, limit, n + 1);
      }
    }
  }

  /** A positive limit bounds the ranking, whatever the table holds. */
  lemma RankingAtMostLimit(cells: seq<RankCell>, limit: int)
    requires limit >= 1
    ensures RankingLocal(cells, limit).Ok? ==> |RankingLocal(cells, limit).value| <= limit
  {
    assert cells[..0] == [];
    CellsReadBound(cells, limit, 0);
  }

  /** With a limit of zero or less the loop stops after its first cell. */
  lemma RankingStopsAfterFirstCell(cells: seq<RankCell>, limit: int)
    requires limit <= 0 && |cells| >= 1
    ensures RankingLocal(cells, limit) == Collected(cells[..1])
  {
    if !Reached(cells[..1], limit) {
      CollectedErrPersists(cells, 1, CellsRead(cells, limit, 1));
    }
  }

  /** One more cell appended: the cell's outcome follows what was collected. */
  lemma CollectedSnoc(cells: seq<RankCell>, i: nat)
    requires i < |cells| && Collected(cells[..i]).Ok?
    ensures Collected(cells[..i + 1]) == AddCell(Collected(cells[..i]).value, cells[i])
  {
    assert cells[..i + 1][..i] == cells[..i];
  }

  /** The body of the loop for one cell: `int()` on the rank, then the entry
      when the name cell's anchor yields a slug. */
  method ReadCell(distros: seq<LocalDistro>, c: RankCell) returns (r: Result<seq<LocalDistro>, string>)
    ensures r == AddCell(distros, c)
  {
    var rank := ParseInt(c.rankText);
    if rank.None? {
      return Err(c.rankText);
    }
    r := Ok(distros);
    if c.nameCell.Some? {
      var link := c.nameCell.value.link;
      if link.Some? {
        var name := link.value.text;
        var href := link.value.href.GetOr("");
        var slug := SlugOf(href);
        if slug.Some? {
          r := Ok(distros + [LocalDistro(rank.value, name, slug.value, HtmlFileFor(name))]);
        }
      }
    }
  }

  /** The loop of `scrape_ranking_page_local`: `int()` on each rank, an entry
      when the name cell's anchor yields a slug, and a stop once `limit`
      entries are gathered. */
  method ScrapeRankingPageLocal(cells: seq<RankCell>, limit: int) returns (r: Result<seq<LocalDistro>, string>)
    ensures r == RankingLocal(cells, limit)
  {
    var distros: seq<LocalDistro> := [];
    var i := 0;
    while i < |cells|
      invariant i <= |cells|
      invariant Collected(cells[..i]) == Ok(distros)
      invariant CellsRead(cells, limit, i) == CellsRead(cells, limit, 0)
    {
      CollectedSnoc(cells, i);
      var next := ReadCell(distros, cells[i]);
      if next.Err? {
        CollectedErrPersists(cells, i + 1, CellsRead(cells, limit, 0));
        return next;
      }
      distros := next.value;
      i := i + 1;
      if |distros| >= limit {
        break;
      }
    }
    return Ok(distros);
  }

  // ------------------------------------------------------------ a detail page

  /** A `li`: the text of its first `b` (None when it has none) and the
      stripped texts of its anchors. */
  datatype ListItem = ListItem(bold: Option<string>, anchors: seq<string>)

  /** The table row around a header: the stripped text of its first `td.Date`,
      if any. */
  datatype DateRow = DateRow(dateCell: Option<string>)

  /** A `th`: its text and the row around it (None when it is in no row). */
  datatype HeaderCell = HeaderCell(text: string, row: Option<DateRow>)

  /** A text node and the text of its parent element. */
  datatype TextNode = TextNode(text: string, parentText: string)

  /** What the scraper reads of a detail page: the stripped text of the first
      `h1`, the `li`s, the `th`s and the text nodes, in document order. */
  datatype DetailDoc = DetailDoc(heading: Option<string>, items: seq<ListItem>,
                                 headers: seq<HeaderCell>, texts: seq<TextNode>)

  /** A saved detail page: absent, present but unreadable (opening or
      decoding it raises), or parsed. */
  datatype LocalFile = Missing | Unreadable | Parsed(doc: DetailDoc)

  /** The popularity figures: `popularity_rank` and `popularity_hits`. */
  datatype PopularityReading = PopularityReading(rank: Option<int>, hits: Option<int>)

  /** The record of a distribution (the rating is not modelled). */
  datatype LocalRecord = LocalRecord(id: string, name: Option<string>, category: Option<string>,
                                     releaseDate: Option<string>, popularityRank: Option<int>,
                                     popularityHits: Option<int>, sourceFile: string)

  const CategoryLabel: string := "Categoria"
  const ReleaseLabel: string := "Data de Lan\U{E7}amento"
  const PopularityLabel: string := "4 semanas"

  predicate IsCategoryItem(li: ListItem) {
    li.bold.Some? && Contains(li.bold.value, CategoryLabel)
  }

  predicate IsReleaseHeader(th: HeaderCell) {
    Contains(th.text, ReleaseLabel)
  }

  /** A text node the popularity loop stops at: it mentions `4 semanas` and
      its parent's text matches the popularity pattern. */
  predicate IsPopularityNode(n: TextNode) {
    Contains(n.text, PopularityLabel) && Search(n.parentText).Some?
  }

  /** The anchors of the first category item, joined with `, `. */
  function CategoryOf(items: seq<ListItem>): (r: Option<string>)
    ensures r.Some? <==> exists k :: 0 <= k < |items| && IsCategoryItem(items[k])
  {
    var i := FindFirst(items, IsCategoryItem);
    if i < |items| then Some(JoinWith(items[i].anchors, ", ")) else None
  }

  /** `k` is the first `th` mentioning the release label. */
  predicate FirstReleaseAt(headers: seq<HeaderCell>, k: int) {
    0 <= k < |headers| && IsReleaseHeader(headers[k]) && forall j :: 0 <= j < k ==> !IsReleaseHeader(headers[j])
  }

  /** The first release header lies in no table row, so `row.find` raises. */
  ghost predicate ReleaseInNoRow(headers: seq<HeaderCell>) {
    exists k :: FirstReleaseAt(headers, k) && headers[k].row.None?
  }

  /** The release date: Err when the first release header lies in no row
      (`row.find` raises); None when there is no such header or its row has
      no date cell; otherwise the date reformatted, or the raw text when it
      does not parse. */
  function ReleaseDateOf(headers: seq<HeaderCell>): (r: Result<Option<string>, string>)
    ensures r.Err? <==> ReleaseInNoRow(headers)
    ensures (forall k :: 0 <= k < |headers| ==> !IsReleaseHeader(headers[k])) ==> r == Ok(None)
    ensures forall k :: FirstReleaseAt(headers, k) && headers[k].row.Some? ==>
      r == Ok(match headers[k].row.value.dateCell
               case None => None
               case Some(raw) => Some(NormalizeReleaseDate(raw)))
  {
    var i := FindFirst(headers, IsReleaseHeader);
    assert i < |headers| ==> FirstReleaseAt(headers, i);
    assert forall k :: FirstReleaseAt(headers, k) ==> k == i;
    if i == |headers| then Ok(None)
    else
      match headers[i].row
      case None => Err("AttributeError")
      case Some(row) =>
        match row.dateCell
        case None => Ok(None)
        case Some(raw) => Ok(Some(NormalizeReleaseDate(raw)))
  }

  /** The figures read off a match: the rank digits as a number, and the
      hits with `,` and `.` removed, or failing that with only `.` removed;
      Err when both conversions raise. */
  function ReadingOf(g: Groups): (r: Result<PopularityReading, string>)
    requires IsDigits(g.rankDigits)
  {
    var rank: int := DigitsValue(g.rankDigits);
    match ParseInt(RemoveSeparators(g.hitsText))
    case Some(hits) => Ok(PopularityReading(Some(rank), Some(hits)))
    case None =>
      match ParseInt(RemoveChar(g.hitsText, '.'))
      case Some(hits) => Ok(PopularityReading(Some(rank), Some(hits)))
      case None => Err("ValueError")
  }

  /** The popularity figures of the first text node that mentions
      `4 semanas` and whose parent's text matches the pattern; both None when
      there is none. */
  function PopularityOf(texts: seq<TextNode>): Result<PopularityReading, string> {
    var i := FindFirst(texts, IsPopularityNode);
    if i == |texts| then Ok(PopularityReading(None, None))
    else ReadingOf(Search(texts[i].parentText).value)
  }

  /** When the popularity step does not fail, the rank and hits are both
      found or both absent, and found exactly when some text node mentions
      `4 semanas` with a parent that matches the pattern. */
  lemma PopularityFound(texts: seq<TextNode>)
    requires PopularityOf(texts).Ok?
    ensures var p := PopularityOf(texts).value;
      && (p.rank.Some? <==> p.hits.Some?)
      && (p.rank.Some? <==> exists k :: 0 <= k < |texts| && IsPopularityNode(texts[k]))
  {
    var i := FindFirst(texts, IsPopularityNode);
    if i < |texts| {
      assert IsPopularityNode(texts[i]);
    }
  }

  /** `scrape_distro_details_local(slug, html_file)`: None when the file is
      missing or unreadable, or when a step raises. */
  function DetailsLocal(slug: string, htmlFile: string, file: LocalFile): (r: Option<LocalRecord>)
    ensures r.Some? ==> r.value.id == slug && r.value.sourceFile == htmlFile
  {
    match file
    case Missing => None
    case Unreadable => None
    case Parsed(doc) =>
      match ReleaseDateOf(doc.headers)
      case Err(_) => None
      case Ok(date) =>
        match PopularityOf(doc.texts)
        case Err(_) => None
        case Ok(pop) =>
          Some(LocalRecord(slug, doc.heading, CategoryOf(doc.items), date, pop.rank, pop.hits, htmlFile))
  }

  /** The first conversion of the hits agrees with the hits figure: it
      succeeds exactly when the text holds a digit. */
  lemma FirstHitsConversion(hits: string)
    requires IsHitsText(hits)
    ensures ParseInt(RemoveSeparators(hits)).Some? <==> HitsValue(hits).Some?
    ensures HitsValue(hits).Some? ==> ParseInt(RemoveSeparators(hits)).value == HitsValue(hits).value
  {
    var digits := RemoveSeparators(hits);
    assert AllDigits(digits) by {
      forall k | 0 <= k < |digits| ensures IsDigit(digits[k]) {
        assert digits[k] in digits;
      }
    }
    if |digits| > 0 {
      assert !IsSpace(digits[0]) && !IsSpace(digits[|digits| - 1]);
    }
    StripOfTrimmed(digits);
  }

  /** The fallback conversion never rescues the hits: it is only tried when
      the text holds no digit, and then only `,` can remain. */
  lemma HitsFallbackFails(hits: string)
    requires IsHitsText(hits) && ParseInt(RemoveSeparators(hits)).None?
    ensures ParseInt(RemoveChar(hits, '.')).None?
  {
    FirstHitsConversion(hits);
    var rest := RemoveChar(hits, '.');
    assert forall k :: 0 <= k < |rest| ==> rest[k] == ',' by {
      forall k | 0 <= k < |rest| ensures rest[k] == ',' {
        assert rest[k] in rest;
        assert rest[k] in hits;
      }
    }
    if |rest| > 0 {
      assert !IsSpace(rest[0]) && !IsSpace(rest[|rest| - 1]);
    }
    StripOfTrimmed(rest);
  }

  /** The first node the popularity loop stops at has hits without a digit. */
  predicate HitsWithoutDigit(texts: seq<TextNode>) {
    var i := FindFirst(texts, IsPopularityNode);
    && i < |texts|
    && var h := Search(texts[i].parentText).value.hitsText;
       forall k :: 0 <= k < |h| ==> !IsDigit(h[k])
  }

  /** The popularity step fails exactly when the matched hits text holds no
      digit; it then makes the whole record None. */
  lemma PopularityFailsWithoutDigit(texts: seq<TextNode>)
    ensures PopularityOf(texts).Err? <==> HitsWithoutDigit(texts)
  {
    var i := FindFirst(texts, IsPopularityNode);
    if i < |texts| {
      var h := Search(texts[i].parentText).value.hitsText;
      FirstHitsConversion(h);
      if ParseInt(RemoveSeparators(h)).None? {
        HitsFallbackFails(h);
      }
    }
  }

  /** The detail scraper gives None exactly for a missing or unreadable file,
      a first release header outside any row, or popularity hits without a
      digit. Otherwise the record holds the three probes' findings, each
      read from its own part of the page, and the `h1` text as name: a page
      without `h1` still gives a record, with no name. */
  lemma DetailsLocalOutcome(slug: string, htmlFile: string, file: LocalFile)
    ensures DetailsLocal(slug, htmlFile, file).None? <==>
      !file.Parsed? || ReleaseInNoRow(file.doc.headers) || HitsWithoutDigit(file.doc.texts)
    ensures DetailsLocal(slug, htmlFile, file).Some? ==>
      var doc, x := file.doc, DetailsLocal(slug, htmlFile, file).value;
      && x.name == doc.heading
      && x.category == CategoryOf(doc.items)
      && Ok(x.releaseDate) == ReleaseDateOf(doc.headers)
      && Ok(PopularityReading(x.popularityRank, x.popularityHits)) == PopularityOf(doc.texts)
  {
    if file.Parsed? {
      PopularityFailsWithoutDigit(file.doc.texts);
    }
  }

  /** Whether a record is returned does not depend on the `h1` or the `li`s:
      only the release and popularity probes can fail. */
  lemma HeadingNotRequired(slug: string, htmlFile: string, doc: DetailDoc, heading: Option<string>, items: seq<ListItem>)
    ensures DetailsLocal(slug, htmlFile, Parsed(doc)).Some? <==>
      DetailsLocal(slug, htmlFile, Parsed(doc.(heading := heading, items := items))).Some?
  {
  }

  /** A page whose first popularity node's parent reads
      `... 4 semanas: <rank> (<hits>) ...` yields that rank and that hits
      figure. */
  lemma PopularityOfSpelled(texts: seq<TextNode>, p: string, ws1: string, rank: string,
                            ws2: string, hits: string, q: string)
    requires AllSpace(ws1) && AllSpace(ws2) && IsDigits(rank) && IsHitsText(hits)
    requires exists k :: 0 <= k < |hits| && IsDigit(hits[k])
    requires var i := FindFirst(texts, IsPopularityNode);
      && i < |texts|
      && texts[i].parentText == p + Spelled(ws1, rank, ws2, hits) + q
      && forall k :: 0 <= k < |p| ==> !OccursAt(texts[i].parentText, Phrase, k)
    ensures PopularityOf(texts) == Ok(PopularityReading(Some(DigitsValue(rank)), Some(HitsValue(hits).value)))
  {
    SearchFindsFirstPhrase(p, ws1, rank, ws2, hits, q);
    FirstHitsConversion(hits);
  }

  /** The category loop: the first `li` whose `b` mentions `Categoria`. */
  method FindCategory(items: seq<ListItem>) returns (category: Option<string>)
    ensures category == CategoryOf(items)
  {
    category := None;
    var i := 0;
    while i < |items|
      invariant i <= |items| && category == None
      invariant forall k :: 0 <= k < i ==> !IsCategoryItem(items[k])
    {
      if IsCategoryItem(items[i]) {
        category := Some(JoinWith(items[i].anchors, ", "));
        break;
      }
      i := i + 1;
    }
  }

  /** The release-date loop: the first `th` mentioning the release label,
      `strptime` tried on its row's date cell, the raw text kept when it
      raises. */
  method FindReleaseDate(headers: seq<HeaderCell>) returns (r: Result<Option<string>, string>)
    ensures r == ReleaseDateOf(headers)
  {
    var releaseDate: Option<string> := None;
    var j := 0;
    while j < |headers|
      invariant j <= |headers| && releaseDate == None
      invariant forall k :: 0 <= k < j ==> !IsReleaseHeader(headers[k])
    {
      var th := headers[j];
      if IsReleaseHeader(th) {
        if th.row.None? {
          return Err("AttributeError");
        }
        var dateCell := th.row.value.dateCell;
        if dateCell.Some? {
          var parsed := ParseIso(dateCell.value);
          if parsed.Some? {
            releaseDate := Some(FormatDmy(parsed.value));
          } else {
            releaseDate := Some(dateCell.value);
          }
        }
        break;
      }
      j := j + 1;
    }
    return Ok(releaseDate);
  }

  /** The popularity loop: the first text node mentioning `4 semanas` whose
      parent's text matches the pattern. */
  method FindPopularity(texts: seq<TextNode>) returns (r: Result<PopularityReading, string>)
    ensures r == PopularityOf(texts)
  {
    var n := 0;
    while n < |texts| && !IsPopularityNode(texts[n])
      invariant n <= |texts|
      invariant forall k :: 0 <= k < n ==> !IsPopularityNode(texts[k])
    {
      n := n + 1;
    }
    FindFirstIs(texts, IsPopularityNode, n);
    if n == |texts| {
      return Ok(PopularityReading(None, None));
    }
    r := ReadingOf(Search(texts[n].parentText).value);
  }

  /** `scrape_distro_details_local`: the file checks, then the three loops in
      the source's order; a step that raises makes the result None. */
  method ScrapeDistroDetailsLocal(slug: string, htmlFile: string, file: LocalFile) returns (r: Option<LocalRecord>)
    ensures r == DetailsLocal(slug, htmlFile, file)
  {
    if !file.Parsed? {
      return None;
    }
    var doc := file.doc;
    var name := doc.heading;
    var category := FindCategory(doc.items);
    var releaseDate := FindReleaseDate(doc.headers);
    if releaseDate.Err? {
      return None;
    }
    var popularity := FindPopularity(doc.texts);
    if popularity.Err? {
      return None;
    }
    return Some(LocalRecord(slug, name, category, releaseDate.value, popularity.value.rank,
                            popularity.value.hits, htmlFile));
  }

  // ------------------------------------------------------------ the run

  /** The limit `main` passes to the ranking scraper. */
  const RankingLimit: int := 10

  /** The detail scraper on one ranking entry. */
  function DetailsOf(d: LocalDistro, files: string -> LocalFile): Option<LocalRecord> {
    DetailsLocal(d.slug, d.htmlFile, files(d.htmlFile))
  }

  /** What one entry adds to the results: its record, when there is one. */
  function KeepRecord(d: LocalDistro, files: string -> LocalFile): (r: seq<LocalRecord>)
    ensures |r| <= 1
    ensures forall x :: x in r ==> x.id == d.slug && x.sourceFile == d.htmlFile
  {
    match DetailsOf(d, files)
    case None => []
    case Some(x) => [x]
  }

  /** The records the detail scraper returns for the ranking entries, in
      order, skipping the None ones. */
  function Kept(ds: seq<LocalDistro>, files: string -> LocalFile): seq<LocalRecord> {
    FlatMap(d => KeepRecord(d, files), ds)
  }

  /** At most one record per ranking entry. */
  lemma KeptAtMostOne(ds: seq<LocalDistro>, files: string -> LocalFile)
    ensures |Kept(ds, files)| <= |ds|
  {
    FlatMapAtMostOne(d => KeepRecord(d, files), ds);
  }

  /** Every record comes from a ranking entry: it carries that entry's slug
      and file name. */
  lemma KeptFromEntries(ds: seq<LocalDistro>, files: string -> LocalFile)
    ensures forall x :: x in Kept(ds, files) ==> exists d :: d in ds && x.id == d.slug && x.sourceFile == d.htmlFile
  {
    forall x | x in Kept(ds, files) ensures exists d :: d in ds && x.id == d.slug && x.sourceFile == d.htmlFile {
      FlatMapSource(d => KeepRecord(d, files), ds, x);
      var i :| 0 <= i < |ds| && x in KeepRecord(ds[i], files);
      assert ds[i] in ds;
    }
  }

  /** One entry alone: its record when the detail scraper returns one,
      nothing otherwise. */
  lemma KeptOne(d: LocalDistro, files: string -> LocalFile)
    ensures Kept([d], files) == if DetailsOf(d, files).Some? then [DetailsOf(d, files).value] else []
  {
    FlatMapSnoc(e => KeepRecord(e, files), [], d);
    assert [] + [d] == [d];
  }

  /** The results keep ranking order: two stretches of entries give the
      records of the first followed by those of the second. */
  lemma KeptAppend(a: seq<LocalDistro>, b: seq<LocalDistro>, files: string -> LocalFile)
    ensures Kept(a + b, files) == Kept(a, files) + Kept(b, files)
  {
    FlatMapAppend(d => KeepRecord(d, files), a, b);
  }

  /** No record is lost: every entry the detail scraper returns a record for
      has that record among the results. */
  lemma KeptComplete(ds: seq<LocalDistro>, files: string -> LocalFile, d: LocalDistro)
    requires d in ds && DetailsOf(d, files).Some?
    ensures DetailsOf(d, files).value in Kept(ds, files)
  {
    var i :| 0 <= i < |ds| && ds[i] == d;
    assert DetailsOf(d, files).value in KeepRecord(ds[i], files);
    FlatMapMember(e => KeepRecord(e, files), ds, i, DetailsOf(d, files).value);
  }

  /** The results file: timestamp, source tag, count and records. */
  datatype LocalOutput = LocalOutput(scrapedAt: string, source: string, total: int, distros: seq<LocalRecord>)

  /** How `main` ends: the ranking raised, it found nothing, or the results
      were written. */
  datatype LocalRun = RankingFailed(rankText: string) | NoDistros | Saved(output: LocalOutput)

  /** `main()` with the ranking cells, the saved detail pages by file name, and
      the ISO text of the current UTC time. */
  function LocalRunOf(cells: seq<RankCell>, files: string -> LocalFile, now: string): LocalRun {
    match RankingLocal(cells, RankingLimit)
    case Err(t) => RankingFailed(t)
    case Ok(ds) =>
      if |ds| == 0 then NoDistros
      else
        var results := Kept(ds, files);
        Saved(LocalOutput(now + "Z", "local_html_files", |results|, results))
  }

  /** What a written results file holds: a total equal to the number of
      records, at most ten records, each carrying the slug and file name of a
      ranking entry. */
  lemma LocalRunSaved(cells: seq<RankCell>, files: string -> LocalFile, now: string)
    requires LocalRunOf(cells, files, now).Saved?
    ensures var out := LocalRunOf(cells, files, now).output;
      && out.total == |out.distros| <= RankingLimit
      && out.scrapedAt == now + "Z"
      && (forall x :: x in out.distros ==>
           (IsSlug(x.id) && exists d :: d in RankingLocal(cells, RankingLimit).value && x.id == d.slug && x.sourceFile == d.htmlFile))
      && (forall d :: d in RankingLocal(cells, RankingLimit).value && DetailsOf(d, files).Some? ==>
           DetailsOf(d, files).value in out.distros)
  {
    RankingAtMostLimit(cells, RankingLimit);
    var ds := RankingLocal(cells, RankingLimit).value;
    KeptAtMostOne(ds, files);
    KeptFromEntries(ds, files);
    forall d | d in ds && DetailsOf(d, files).Some? ensures DetailsOf(d, files).value in Kept(ds, files) {
      KeptComplete(ds, files, d);
    }
  }

  lemma KeptStep(ds: seq<LocalDistro>, files: string -> LocalFile, i: nat)
    requires i < |ds|
    ensures Kept(ds[..i + 1], files) == Kept(ds[..i], files) + KeepRecord(ds[i], files)
  {
    FlatMapPrefixStep(d => KeepRecord(d, files), ds, i);
  }

  /** The body of the results loop: the entry's record appended when the
      detail scraper returns one. */
  method AddDetails(results: seq<LocalRecord>, item: LocalDistro, files: string -> LocalFile)
    returns (results': seq<LocalRecord>)
    ensures results' == results + KeepRecord(item, files)
  {
    var details := ScrapeDistroDetailsLocal(item.slug, item.htmlFile, files(item.htmlFile));
    results' := results;
    if details.Some? {
      results' := results + [details.value];
    }
  }

  /** `main()`: the ranking, then the detail scraper for each entry. */
  method RunLocalScraping(cells: seq<RankCell>, files: string -> LocalFile, now: string) returns (run: LocalRun)
    ensures run == LocalRunOf(cells, files, now)
  {
    var ranking := ScrapeRankingPageLocal(cells, RankingLimit);
    if ranking.Err? {
      return RankingFailed(ranking.error);
    }
    var distros := ranking.value;
    if |distros| == 0 {
      return NoDistros;
    }
    var results: seq<LocalRecord> := [];
    var i := 0;
    while i < |distros|
      invariant i <= |distros|
      invariant results == Kept(distros[..i], files)
    {
      KeptStep(distros, files, i);
      results := AddDetails(results, distros[i], files);
      i := i + 1;
    }
    assert distros[..i] == distros;
    return Saved(LocalOutput(now + "Z", "local_html_files", |results|, results));
  }
}
