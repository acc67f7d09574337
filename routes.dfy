/** The scraping routes of the API (`api/scraping/routes.py`): the status and
    paginated data views over the cached snapshot, the snapshot that a
    scraping run writes, and the cache reset. The cache file is the state:
    absent, or holding a JSON object. */
module ScrapingRoutes {
  import opened Wrappers
  import opened Text
  import opened Sequences

  /** JSON values as `json.load` returns them (numbers other than integers
      are not modelled). */
  datatype Json =
    | JNull
    | JBool(b: bool)
    | JInt(i: int)
    | JStr(s: string)
    | JList(items: seq<Json>)
    | JObject(fields: map<string, Json>)

  /** The content of `data/cache/distros_scraped.json`. */
  type Snapshot = map<string, Json>

  /** `data.get(key, default)`: the stored value, else the default. */
  function GetOr(data: Snapshot, key: string, default: Json): (v: Json)
    ensures key in data ==> v == data[key]
    ensures key !in data ==> v == default
  {
    if key in data then data[key] else default
  }

  // ------------------------------------------------------------ status

  datatype StatusReply = NoData(message: string) | Available(scrapedAt: Json, total: Json)

  /** `GET /scraping/status` */
  function StatusOf(cache: Option<Snapshot>): (r: StatusReply)
    ensures r.NoData? <==> cache.None?
    ensures cache.Some? ==> r.scrapedAt == GetOr(cache.value, "scraped_at", JNull)
  {
    match cache
    case None => NoData("Nenhum scraping foi realizado ainda")
    case Some(data) => Available(GetOr(data, "scraped_at", JNull), GetOr(data, "total", JInt(0)))
  }

  /** A snapshot without `total` reports 0; one whose `total` is stored,
      even as null, reports what is stored. */
  lemma StatusTotal(data: Snapshot)
    ensures "total" !in data ==> StatusOf(Some(data)).total == JInt(0)
    ensures "total" in data ==> StatusOf(Some(data)).total == data["total"]
  {
  }

  // ------------------------------------------------------------ data

  const DefaultSkip: int := 0
  const DefaultLimit: int := 100

  /** `distros[skip:skip + limit]` */
  function Page<T>(xs: seq<T>, skip: int, limit: int): seq<T> {
    PySlice(xs, skip, skip + limit)
  }

  /** For non-negative arguments the page holds the `limit` elements from
      `skip` on, or fewer at the end of the list. */
  lemma PageContents<T>(xs: seq<T>, skip: int, limit: int)
    requires 0 <= skip && 0 <= limit
    ensures |Page(xs, skip, limit)| == Min(limit, Max(0, |xs| - skip))
    ensures forall k :: 0 <= k < |Page(xs, skip, limit)| ==> Page(xs, skip, limit)[k] == xs[skip + k]
  {
  }

  /** Two consecutive pages together are the page spanning both. */
  lemma PagesJoin<T>(xs: seq<T>, skip: int, first: int, second: int)
    requires 0 <= skip && 0 <= first && 0 <= second
    ensures Page(xs, skip, first) + Page(xs, skip + first, second) == Page(xs, skip, first + second)
  {
    var a, b := Page(xs, skip, first), Page(xs, skip + first, second);
    var c := Page(xs, skip, first + second);
    PageContents(xs, skip, first);
    PageContents(xs, skip + first, second);
    PageContents(xs, skip, first + second);
    assert |a + b| == |c|;
    forall k | 0 <= k < |c| ensures (a + b)[k] == c[k] {
      if k < |a| {
        assert (a + b)[k] == a[k] == xs[skip + k];
      } else {
        assert |a| == first;
        var j := k - first;
        assert (a + b)[k] == b[j];
        assert b[j] == xs[skip + first + j];
      }
    }
  }

  /** The default page is the first hundred distributions. */
  lemma DefaultPage<T>(xs: seq<T>)
    ensures Page(xs, DefaultSkip, DefaultLimit) == xs[..Min(100, |xs|)]
  {
    PageContents(xs, DefaultSkip, DefaultLimit);
  }

  datatype HttpError = NotFound(detail: string) | ServerError

  /** The data reply: the full count, the stored time and the page. */
  datatype DataReply = DataReply(total: nat, scrapedAt: Json, distros: Json)

  /** `GET /scraping/data?skip=..&limit=..`: 404 without a snapshot; a
      missing `distros` is an empty list. Python's `len` and slicing also
      accept a string, sliced character-wise; any other stored value makes
      `len` raise, a server error. */
  function DataOf(cache: Option<Snapshot>, skip: int, limit: int): (r: Result<DataReply, HttpError>)
    ensures cache.None? ==> r == Err(NotFound("Nenhum dado disponível"))
    ensures cache.Some? && "distros" !in cache.value ==> r == Ok(DataReply(0, GetOr(cache.value, "scraped_at", JNull), JList([])))
    ensures r.Ok? ==> r.value.scrapedAt == GetOr(cache.value, "scraped_at", JNull)
  {
    match cache
    case None => Err(NotFound("Nenhum dado disponível"))
    case Some(data) =>
      var scrapedAt := GetOr(data, "scraped_at", JNull);
      match GetOr(data, "distros", JList([]))
      case JList(items) => Ok(DataReply(|items|, scrapedAt, JList(Page(items, skip, limit))))
      case JStr(s) => Ok(DataReply(|s|, scrapedAt, JStr(Page(s, skip, limit))))
      case _ => Err(ServerError)
  }

  /** The reported total is the size of the whole stored list, whatever the
      page asked for, and the page is that list's slice. */
  lemma DataTotalIgnoresPaging(data: Snapshot, skip: int, limit: int, skip': int, limit': int)
    requires "distros" in data && data["distros"].JList?
    ensures var items := data["distros"].items;
      && DataOf(Some(data), skip, limit).Ok?
      && DataOf(Some(data), skip, limit).value.total == |items|
      && DataOf(Some(data), skip', limit').value.total == |items|
      && DataOf(Some(data), skip, limit).value.distros == JList(Page(items, skip, limit))
  {
  }

  // ------------------------------------------------------------ the cache

  /** The snapshot `execute_scraping` writes: the time, no distributions,
      and the metadata. */
  function Written(now: string): (s: Snapshot)
    ensures s.Keys == {"scraped_at", "total", "distros", "metadata"}
  {
    map[
      "scraped_at" := JStr(now + "Z"),
      "total" := JInt(0),
      "distros" := JList([]),
      "metadata" := JObject(map["version" := JStr("2.0.0"), "source" := JStr("vercel")])
    ]
  }

  /** What both views read from a freshly written snapshot: the run's time,
      and a total of 0 that agrees with the (empty) list of distributions. */
  lemma WrittenViews(now: string, skip: int, limit: int)
    ensures StatusOf(Some(Written(now))) == Available(JStr(now + "Z"), JInt(0))
    ensures DataOf(Some(Written(now)), skip, limit) == Ok(DataReply(0, JStr(now + "Z"), JList([])))
  {
    var w := Written(now);
    assert w["scraped_at"] == JStr(now + "Z") && w["total"] == JInt(0) && w["distros"] == JList([]);
  }

  datatype ClearReply = Cleared | AlreadyEmpty

  /** The cache file: absent (`None`) or holding a snapshot. */
  class SnapshotStore {
    var stored: Option<Snapshot>

    constructor(initial: Option<Snapshot>)
      ensures stored == initial
    {
      stored := initial;
    }

    /** `execute_scraping(limit)`: (over)writes the snapshot. The limit is
        only logged. */
    method ExecuteScraping(limit: int, now: string)
      modifies this
      ensures stored == Some(Written(now))
    {
      stored := Some(Written(now));
    }

    /** `DELETE /scraping/cache`: removes a present snapshot. */
    method ClearCache() returns (r: ClearReply)
      modifies this
      ensures stored == None
      ensures r == (if old(stored).Some? then Cleared else AlreadyEmpty)
    {
      if stored.Some? {
        stored := None;
        return Cleared;
      }
      return AlreadyEmpty;
    }
  }

  /** Whatever the first reset answers, a second one finds nothing to
      remove, and the views then report no data and 404. */
  method ClearTwice(store: SnapshotStore) returns (first: ClearReply, second: ClearReply)
    modifies store
    ensures second == AlreadyEmpty
    ensures StatusOf(store.stored).NoData? && DataOf(store.stored, DefaultSkip, DefaultLimit).Err?
  {
    first := store.ClearCache();
    second := store.ClearCache();
  }
}
