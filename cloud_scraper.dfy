/** The production scraper (`DistroWatchCloudScraper`): what it does with the
    anchors of the popularity page, with the Info table of a detail page, and
    the limit `scrape_all` applies. The HTTP client and the HTML parser are
    outside the model: a page arrives as the values they would hand over. */
module CloudScraper {
  import opened Wrappers
  import opened Text
  import opened Sequences

  const BaseUrl: string := "https://distrowatch.com"

  /** The substring an anchor's `href` must contain to be a distribution link. */
  const DetailMarker: string := "table.php?distribution="

  /** An anchor of the popularity page: its stripped text, its `href`
      attribute (None when the anchor has none), and the stripped text of the
      first `td` of the table row around it (None when the anchor is in no row,
      or the row has no cell). */
  datatype Link = Link(text: string, href: Option<string>, firstCell: Option<string>)

  /** The popularity page as the scraper receives it: the request raised (a
      network error or a non-2xx status through `raise_for_status`), or the
      page's anchors in document order. */
  datatype ListPage = ListFetchFailed | ListFetched(links: seq<Link>)

  /** One entry of the list: `{'rank': ..., 'name': ..., 'url': ...}`. */
  datatype Distro = Distro(rank: string, name: string, url: string)

  // ------------------------------------------------------------ the anchors

  predicate IsDetailLink(l: Link) {
    l.href.Some? && Contains(l.href.value, DetailMarker)
  }

  /** The anchors `find_all('a', href=...)` returns: those whose `href` is
      present and contains the marker, in document order. */
  function DetailLinks(links: seq<Link>): (r: seq<Link>)
    ensures forall l :: l in r <==> l in links && IsDetailLink(l)
    ensures |r| <= |links|
  {
    if |links| == 0 then []
    else
      var init := DetailLinks(links[..|links| - 1]);
      var last := links[|links| - 1];
      assert links == links[..|links| - 1] + [last];
      if IsDetailLink(last) then init + [last] else init
  }

  /** A single anchor is kept exactly when it is a marker anchor. */
  lemma DetailLinksOne(l: Link)
    ensures DetailLinks([l]) == if IsDetailLink(l) then [l] else []
  {
    assert [l][..0] == [];
  }

  /** The filter keeps document order: the anchors of two stretches of the
      page are those of the first followed by those of the second. */
  lemma {:induction false} DetailLinksAppend(a: seq<Link>, b: seq<Link>)
    ensures DetailLinks(a + b) == DetailLinks(a) + DetailLinks(b)
  {
    if |b| == 0 {
      assert a + b == a;
    } else {
      var init := b[..|b| - 1];
      DetailLinksAppend(a, init);
      assert (a + b)[..|a + b| - 1] == a + init;
      var last := b[|b| - 1];
      assert (a + b)[|a + b| - 1] == last;
      assert b[..|b| - 1] == init;
      if IsDetailLink(last) {
        assert (DetailLinks(a) + DetailLinks(init)) + [last] == DetailLinks(a) + (DetailLinks(init) + [last]);
      }
    }
  }

  function Names(ls: seq<Link>): set<string> {
    set l | l in ls :: l.text
  }

  /** The anchors the de-duplicating loop keeps: each anchor whose text has
      not been seen earlier in the sequence. */
  function FirstByName(ls: seq<Link>): (r: seq<Link>)
    ensures forall l :: l in r ==> l in ls
  {
    if |ls| == 0 then []
    else
      var init, last := ls[..|ls| - 1], ls[|ls| - 1];
      assert ls == init + [last];
      if last.text in Names(init) then FirstByName(init) else FirstByName(init) + [last]
  }

  /** The position of the first anchor carrying a given text. */
  function FirstIndex(ls: seq<Link>, name: string): (j: nat)
    requires name in Names(ls)
    ensures j < |ls| && ls[j].text == name
    ensures forall i :: 0 <= i < j ==> ls[i].text != name
  {
    var init, last := ls[..|ls| - 1], ls[|ls| - 1];
    assert ls == init + [last];
    if name in Names(init) then FirstIndex(init, name) else |ls| - 1
  }

  /** De-duplication keeps exactly one anchor per text: every text of the
      input appears, and no two kept anchors share one. */
  lemma {:induction false} FirstByNameNames(ls: seq<Link>)
    ensures Names(FirstByName(ls)) == Names(ls)
    ensures var d := FirstByName(ls);
      forall p, q :: 0 <= p < q < |d| ==> d[p].text != d[q].text
  {
    if |ls| > 0 {
      var init, last := ls[..|ls| - 1], ls[|ls| - 1];
      assert ls == init + [last];
      FirstByNameNames(init);
      var di := FirstByName(init);
      assert Names(ls) == Names(init) + {last.text};
      if last.text !in Names(init) {
        var d := di + [last];
        assert FirstByName(ls) == d;
        forall k | 0 <= k < |di| ensures d[k].text in Names(di) {
          assert d[k] in di;
        }
        assert Names(d) == Names(di) + {last.text};
      }
    }
  }

  /** The anchor kept for each text is the first one carrying it, and the
      kept anchors follow the order of those first occurrences. */
  lemma {:induction false} FirstByNameFirst(ls: seq<Link>)
    ensures forall k :: 0 <= k < |FirstByName(ls)| ==>
      FirstByName(ls)[k].text in Names(ls) && FirstByName(ls)[k] == ls[FirstIndex(ls, FirstByName(ls)[k].text)]
    ensures forall p, q :: 0 <= p < q < |FirstByName(ls)| ==>
      FirstByName(ls)[p].text in Names(ls) && FirstByName(ls)[q].text in Names(ls) &&
      FirstIndex(ls, FirstByName(ls)[p].text) < FirstIndex(ls, FirstByName(ls)[q].text)
  {
    if |ls| > 0 {
      var init, last := ls[..|ls| - 1], ls[|ls| - 1];
      assert ls == init + [last];
      FirstByNameFirst(init);
      var di := FirstByName(init);
      var d := FirstByName(ls);
      assert Names(ls) == Names(init) + {last.text};
      assert d == if last.text in Names(init) then di else di + [last];
      forall k | 0 <= k < |di|
        ensures d[k] == di[k] && di[k].text in Names(init)
        ensures FirstIndex(ls, di[k].text) == FirstIndex(init, di[k].text) < |init|
        ensures di[k] == ls[FirstIndex(ls, di[k].text)]
      {
        var i := FirstIndex(init, di[k].text);
        assert di[k] == init[i];
        assert ls[i] == init[i];
      }
      if last.text !in Names(init) {
        assert FirstIndex(ls, last.text) == |ls| - 1;
        assert d[|di|] == last;
      }
    }
  }

  // ------------------------------------------------------------ one entry

  /** URL normalisation: an `href` not starting with `http` is taken relative
      to the site root. Only the prefix is tested, so `httpd.html` is kept as
      it is. */
  function NormalizeUrl(href: string): (r: string)
    ensures StartsWith(r, "http")
    ensures StartsWith(href, "http") ==> r == href
    ensures !StartsWith(href, "http") ==> r == BaseUrl + "/" + href
  {
    if StartsWith(href, "http") then href else BaseUrl + "/" + href
  }

  /** The `href` is never altered, only prefixed: it ends the URL. */
  lemma NormalizeUrlEndsWithHref(href: string)
    ensures |href| <= |NormalizeUrl(href)|
    ensures NormalizeUrl(href)[|NormalizeUrl(href)| - |href|..] == href
  {
    if !StartsWith(href, "http") {
      var prefix := BaseUrl + "/";
      assert NormalizeUrl(href) == prefix + href;
      assert (prefix + href)[|prefix|..] == href;
    }
  }

  lemma NormalizeUrlIdempotent(href: string)
    ensures NormalizeUrl(NormalizeUrl(href)) == NormalizeUrl(href)
  {
  }

  /** The rank of the anchor at 1-based output position `position`: the row's
      first cell when it is all digits, else the position written in decimal. */
  function RankOf(l: Link, position: nat): (r: string)
    ensures IsDigits(r)
    ensures r != "" && (l.firstCell.Some? && IsDigits(l.firstCell.value) ==> r == l.firstCell.value)
    ensures !(l.firstCell.Some? && IsDigits(l.firstCell.value)) ==> DigitsValue(r) == position
  {
    if l.firstCell.Some? && IsDigits(l.firstCell.value) then l.firstCell.value
    else
      NatToStringRoundTrip(position);
      NatToString(position)
  }

  function Entry(l: Link, position: nat): Distro
    requires l.href.Some?
  {
    Distro(RankOf(l, position), l.text, NormalizeUrl(l.href.value))
  }

  /** The entries built from kept anchors, numbered from 1. */
  function Numbered(ls: seq<Link>): (r: seq<Distro>)
    requires forall l :: l in ls ==> l.href.Some?
    ensures |r| == |ls|
  {
    seq(|ls|, k requires 0 <= k < |ls| => Entry(ls[k], k + 1))
  }

  /** What `scrape_distro_list` returns for a page. */
  function DistroList(page: ListPage): seq<Distro> {
    match page
    case ListFetchFailed => []
    case ListFetched(links) => Numbered(FirstByName(DetailLinks(links)))
  }

  /** Numbering keeps the anchors' texts as the entries' names. */
  lemma NumberedNames(ls: seq<Link>)
    requires forall l :: l in ls ==> l.href.Some?
    ensures (set e | e in Numbered(ls) :: e.name) == Names(ls)
  {
    var d := Numbered(ls);
    assert forall k :: 0 <= k < |d| ==> d[k].name == ls[k].text;
    forall n | n in Names(ls) ensures n in (set e | e in d :: e.name) {
      var l :| l in ls && l.text == n;
      var k :| 0 <= k < |ls| && ls[k] == l;
      assert d[k] in d && d[k].name == n;
    }
    forall n | n in (set e | e in d :: e.name) ensures n in Names(ls) {
      var e :| e in d && e.name == n;
      var k :| 0 <= k < |d| && d[k] == e;
      assert ls[k] in ls && ls[k].text == n;
    }
  }

  /** The list's names: exactly the distinct texts of the marker anchors,
      each once. */
  lemma DistroListNames(page: ListPage)
    requires page.ListFetched?
    ensures (set e | e in DistroList(page) :: e.name) == Names(DetailLinks(page.links))
    ensures var d := DistroList(page);
      forall p, q :: 0 <= p < q < |d| ==> d[p].name != d[q].name
  {
    var ls := DetailLinks(page.links);
    FirstByNameNames(ls);
    var f := FirstByName(ls);
    NumberedNames(f);
    var d := DistroList(page);
    assert d == Numbered(f);
    forall p, q | 0 <= p < q < |d| ensures d[p].name != d[q].name {
      assert d[p].name == f[p].text && d[q].name == f[q].text;
    }
  }

  /** Each entry is built from the FIRST marker anchor carrying its name and
      numbered by its own place in the output; its URL is that anchor's
      `href`, prefixed with the site root unless it starts with `http`, and
      every rank is a digit string. */
  lemma DistroListEntries(page: ListPage)
    requires page.ListFetched?
    ensures forall k :: 0 <= k < |DistroList(page)| ==>
      var ls := DetailLinks(page.links);
      DistroList(page)[k].name in Names(ls)
      && IsDetailLink(ls[FirstIndex(ls, DistroList(page)[k].name)])
      && DistroList(page)[k] == Entry(ls[FirstIndex(ls, DistroList(page)[k].name)], k + 1)
    ensures forall k :: 0 <= k < |DistroList(page)| ==>
      StartsWith(DistroList(page)[k].url, "http") && IsDigits(DistroList(page)[k].rank)
    ensures forall k :: 0 <= k < |DistroList(page)| ==>
      var ls := DetailLinks(page.links);
      var href := ls[FirstIndex(ls, DistroList(page)[k].name)].href.value;
      DistroList(page)[k].url == if StartsWith(href, "http") then href else BaseUrl + "/" + href
  {
    var ls := DetailLinks(page.links);
    FirstByNameFirst(ls);
    var f := FirstByName(ls);
    var d := DistroList(page);
    assert d == Numbered(f);
    forall k | 0 <= k < |d|
      ensures d[k].name in Names(ls) && IsDetailLink(ls[FirstIndex(ls, d[k].name)])
      ensures d[k] == Entry(ls[FirstIndex(ls, d[k].name)], k + 1)
    {
      assert f[k] in ls;
      assert d[k] == Entry(f[k], k + 1);
      assert d[k].name == f[k].text;
      assert f[k] == ls[FirstIndex(ls, f[k].text)];
    }
  }

  /** The rank of each entry: the first cell of its first anchor's row when
      that cell is all digits, otherwise the entry's own 1-based place. */
  lemma DistroListRanks(page: ListPage)
    requires page.ListFetched?
    ensures forall k :: 0 <= k < |DistroList(page)| ==>
      var ls := DetailLinks(page.links);
      RankedBy(DistroList(page)[k].rank, ls[FirstIndex(ls, DistroList(page)[k].name)].firstCell, k + 1)
  {
    DistroListEntries(page);
  }

  /** A rank read from a row's first cell when it is all digits, and
      otherwise the decimal text of `position`. */
  predicate RankedBy(rank: string, cell: Option<string>, position: nat) {
    && (cell.Some? && IsDigits(cell.value) ==> rank == cell.value)
    && (!(cell.Some? && IsDigits(cell.value)) ==> AllDigits(rank) && DigitsValue(rank) == position)
  }

  /** One more anchor: kept exactly when its text is new, and the texts seen
      grow by its text. */
  lemma FirstByNameStep(links: seq<Link>, i: nat)
    requires i < |links|
    ensures Names(links[..i + 1]) == Names(links[..i]) + {links[i].text}
    ensures FirstByName(links[..i + 1])
      == if links[i].text in Names(links[..i]) then FirstByName(links[..i]) else FirstByName(links[..i]) + [links[i]]
  {
    var ls := links[..i + 1];
    assert ls[..|ls| - 1] == links[..i];
    assert ls == links[..i] + [links[i]];
  }

  lemma NumberedSnoc(ls: seq<Link>, l: Link)
    requires forall x :: x in ls ==> x.href.Some?
    requires l.href.Some?
    ensures Numbered(ls + [l]) == Numbered(ls) + [Entry(l, |ls| + 1)]
  {
  }

  /** The body of that loop for a kept anchor: the site root put before an
      `href` not starting with `http`, the rank read from the row or else the
      position. */
  method BuildEntry(link: Link, position: nat) returns (d: Distro)
    requires link.href.Some?
    ensures d == Entry(link, position)
    ensures StartsWith(d.url, "http") && IsDigits(d.rank) && d.name == link.text
    ensures !(link.firstCell.Some? && IsDigits(link.firstCell.value)) ==> DigitsValue(d.rank) == position
    ensures StartsWith(link.href.value, "http") ==> d.url == link.href.value
    ensures !StartsWith(link.href.value, "http") ==> d.url == BaseUrl + "/" + link.href.value
  {
    var url := link.href.value;
    if !StartsWith(url, "http") {
      url := BaseUrl + "/" + url;
    }
    var rank: string;
    if link.firstCell.Some? && IsDigits(link.firstCell.value) {
      rank := link.firstCell.value;
    } else {
      rank := NatToString(position);
    }
    return Distro(rank, link.text, url);
  }

  /** `scrape_distro_list`: the loop over the marker anchors, skipping names
      already seen, normalising the URL and taking the rank from the row. */
  method ScrapeDistroList(page: ListPage) returns (distros: seq<Distro>)
    ensures distros == DistroList(page)
    ensures page.ListFetched? && (forall l :: l in page.links ==> !IsDetailLink(l)) ==> distros == []
  {
    if page.ListFetchFailed? {
      return [];
    }
    var links := DetailLinks(page.links);
    if |links| == 0 {
      return [];
    }
    assert links[0] in links;
    assert forall l :: l in links ==> l.href.Some?;
    var seen: set<string> := {};
    distros := [];
    ghost var kept: seq<Link> := [];
    var i := 0;
    while i < |links|
      invariant 0 <= i <= |links|
      invariant seen == Names(links[..i])
      invariant kept == FirstByName(links[..i])
      invariant forall l :: l in kept ==> l.href.Some?
      invariant distros == Numbered(kept)
    {
      var link := links[i];
      assert link in links;
      FirstByNameStep(links, i);
      if link.text !in seen {
        seen := seen + {link.text};
        var entry := BuildEntry(link, |distros| + 1);
        NumberedSnoc(kept, link);
        distros := distros + [entry];
        kept := kept + [link];
      }
      i := i + 1;
    }
    assert links[..i] == links;
  }

  // ------------------------------------------------------------ details

  /** A detail page as the scraper receives it: the request raised, or the
      rows of the `table.Info` (each row the stripped texts of its `td`
      cells), None when the page has no such table. */
  datatype DetailPage = DetailFetchFailed | DetailFetched(infoTable: Option<seq<seq<string>>>)

  /** The key a first cell becomes: lower-cased, colons removed. */
  function NormalizeKey(cell: string): (k: string)
    ensures ':' !in k
    ensures forall c :: c in k ==> !('A' <= c <= 'Z')
  {
    RemoveChar(Lower(cell), ':')
  }

  lemma NormalizeKeyIdempotent(cell: string)
    ensures NormalizeKey(NormalizeKey(cell)) == NormalizeKey(cell)
  {
    var k := NormalizeKey(cell);
    forall i | 0 <= i < |k| ensures LowerChar(k[i]) == k[i] {
      assert k[i] in k;
    }
    assert Lower(k) == k;
    RemoveCharOfAbsent(k, ':');
  }

  /** Row `i` has two or more cells and its first cell names `key`. */
  predicate Defines(rows: seq<seq<string>>, i: int, key: string) {
    0 <= i < |rows| && |rows[i]| >= 2 && NormalizeKey(rows[i][0]) == key
  }

  /** The dictionary the row loop builds: rows in order, each with two or
      more cells assigning its second cell to its key. */
  function InfoMap(rows: seq<seq<string>>): map<string, string> {
    if |rows| == 0 then map[]
    else
      var m := InfoMap(rows[..|rows| - 1]);
      var row := rows[|rows| - 1];
      if |row| >= 2 then m[NormalizeKey(row[0]) := row[1]] else m
  }

  /** The keys are exactly those of rows with two or more cells. */
  lemma {:induction false} InfoMapKeys(rows: seq<seq<string>>)
    ensures forall key :: key in InfoMap(rows) <==> exists i :: Defines(rows, i, key)
  {
    if |rows| > 0 {
      var init := rows[..|rows| - 1];
      InfoMapKeys(init);
      forall key | key in InfoMap(rows) ensures exists i :: Defines(rows, i, key) {
        if key in InfoMap(init) {
          var i :| Defines(init, i, key);
          assert Defines(rows, i, key);
        } else {
          assert Defines(rows, |rows| - 1, key);
        }
      }
      forall key | (exists i :: Defines(rows, i, key)) ensures key in InfoMap(rows) {
        var i :| Defines(rows, i, key);
        if i < |init| {
          assert Defines(init, i, key);
        }
      }
    }
  }

  /** Later rows overwrite earlier ones: a key holds the second cell of the
      LAST row naming it. */
  lemma {:induction false} InfoMapLastWins(rows: seq<seq<string>>, i: int, key: string)
    requires Defines(rows, i, key)
    requires forall j :: i < j < |rows| ==> !Defines(rows, j, key)
    ensures key in InfoMap(rows) && InfoMap(rows)[key] == rows[i][1]
  {
    var init := rows[..|rows| - 1];
    if i < |rows| - 1 {
      assert Defines(init, i, key);
      forall j | i < j < |init| ensures !Defines(init, j, key) {
        assert !Defines(rows, j, key);
      }
      assert !Defines(rows, |rows| - 1, key);
      InfoMapLastWins(init, i, key);
    }
  }

  /** `scrape_distro_details`: the Info table's rows folded into a dictionary. */
  method ScrapeDistroDetails(page: DetailPage) returns (details: Option<map<string, string>>)
    ensures page.DetailFetchFailed? ==> details == None
    ensures page.DetailFetched? && page.infoTable.None? ==> details == Some(map[])
    ensures page.DetailFetched? && page.infoTable.Some? ==> details == Some(InfoMap(page.infoTable.value))
  {
    if page.DetailFetchFailed? {
      return None;
    }
    var m: map<string, string> := map[];
    if page.infoTable.Some? {
      var rows := page.infoTable.value;
      var i := 0;
      while i < |rows|
        invariant 0 <= i <= |rows|
        invariant m == InfoMap(rows[..i])
      {
        assert rows[..i + 1][..i] == rows[..i];
        var cols := rows[i];
        if |cols| >= 2 {
          var key := RemoveChar(Lower(cols[0]), ':');
          m := m[key := cols[1]];
        }
        i := i + 1;
      }
      assert rows[..i] == rows;
    }
    return Some(m);
  }

  // ------------------------------------------------------------ scrape_all

  /** The limit `scrape_all` applies: an empty list stays empty, a truthy
      limit cuts the list with `distros[:limit]`, and `None` or `0` keeps it
      whole. */
  function ApplyLimit(distros: seq<Distro>, limit: Option<int>): (r: seq<Distro>)
    ensures r <= distros
    ensures limit.None? || limit == Some(0) ==> r == distros
    ensures limit.Some? && limit.value > 0 ==> |r| == Min(limit.value, |distros|)
    ensures limit.Some? && limit.value < 0 ==> |r| == Max(0, |distros| + limit.value)
  {
    if |distros| == 0 then []
    else if limit.Some? && limit.value != 0 then PyPrefix(distros, limit.value)
    else distros
  }

  /** `scrape_all`: the list, cut to the limit; no detail page is fetched. */
  method ScrapeAll(page: ListPage, limit: Option<int>) returns (distros: seq<Distro>)
    ensures distros == ApplyLimit(DistroList(page), limit)
    ensures limit.Some? && limit.value > 0 ==> |distros| <= limit.value
  {
    distros := ScrapeDistroList(page);
    if |distros| == 0 {
      return [];
    }
    if limit.Some? && limit.value != 0 {
      distros := PyPrefix(distros, limit.value);
    }
  }
}
