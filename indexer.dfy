/**
 * The article and project indexes of js/core/Indexer.mjs. An `Index` keeps
 * the processed contents of one JSON file and the time of its last sync; a
 * call younger than MaximumAge is served from the store, any other call
 * empties the store, stamps the time, fetches and processes. Articles become
 * records sorted by recency; projects are stored as the file gives them.
 *
 * The clock (`Date.now()`) and the fetch are parameters: `now` is the time
 * read at the start of the call and `fetched` is what the fetch delivered
 * (the parsed JSON or the failure).
 */
module Indexer {
  import opened JsValues
  import opened Records

  // ---------------------------------------------------------------------
  // The cache

  /**
   * `Index.get(forceSync)`: the state after the call and what it returns.
   * `empty` is the `[]` the store holds while the fetch is under way.
   */
  function Sync<T>(s: CacheState<T>, now: int, forceSync: bool, fetched: Result<Json>,
                   process: Json -> Result<T>, empty: T): (r: Synced<T>)
    ensures r.result.Ok? ==> r.result.value == r.state.store
  {
    if Fresh(now, s.last, forceSync) then Synced(s, Ok(s.store))
    else
      match fetched
      case Err(e) => Synced(CacheState(Some(empty), now), Err(e))
      case Ok(data) =>
        match process(data)
        case Err(e) => Synced(CacheState(Some(empty), now), Err(e))
        case Ok(v) => Synced(CacheState(Some(v), now), Ok(Some(v)))
  }

  /** Within the window and unforced, the store is returned and the fetch plays no part. */
  lemma ServedFromStore<T>(s: CacheState<T>, now: int, f1: Result<Json>, f2: Result<Json>,
                           process: Json -> Result<T>, empty: T)
    requires now - s.last < MaximumAge
    ensures Sync(s, now, false, f1, process, empty) == Synced(s, Ok(s.store))
    ensures Sync(s, now, false, f1, process, empty) == Sync(s, now, false, f2, process, empty)
  {
  }

  /** A forced call always syncs: it stamps `now` and stores and returns what the fetch and `process` give. */
  lemma ForcedSync<T>(s: CacheState<T>, now: int, data: Json, process: Json -> Result<T>, empty: T)
    requires process(data).Ok?
    ensures Sync(s, now, true, Ok(data), process, empty) ==
      Synced(CacheState(Some(process(data).value), now), Ok(Some(process(data).value)))
  {
  }

  /**
   * The time is stamped before the fetch: after a failed fetch or a failed
   * `process` the store is `[]`, and every unforced call in the next
   * MaximumAge milliseconds returns that `[]` without fetching.
   */
  lemma FailureServesEmpty<T>(s: CacheState<T>, now: int, force: bool, fetched: Result<Json>,
                              later: int, again: Result<Json>, process: Json -> Result<T>, empty: T)
    requires !Fresh(now, s.last, force)
    requires Sync(s, now, force, fetched, process, empty).result.Err?
    requires now <= later < now + MaximumAge
    ensures Sync(s, now, force, fetched, process, empty).state == CacheState(Some(empty), now)
    ensures Sync(Sync(s, now, force, fetched, process, empty).state, later, false, again, process, empty).result
      == Ok(Some(empty))
  {
  }

  /** The first call returns the initial `null` when the clock reads less than MaximumAge. */
  lemma EarlyFirstCall<T>(now: int, fetched: Result<Json>, process: Json -> Result<T>, empty: T)
    requires now < MaximumAge
    ensures Sync(Initial(), now, false, fetched, process, empty).result == Ok(None)
  {
  }

  /** `Index`: one cached JSON resource and the function that processes it. */
  class Index<T> {
    const url: string
    const process: Json -> Result<T>
    /** The `[]` the store is reset to before each fetch. */
    const empty: T
    /** `#store`, `null` until the first sync. */
    var store: Option<T>
    /** `#lastSync` */
    var lastSync: int

    function State(): CacheState<T>
      reads this
    {
      CacheState(store, lastSync)
    }

    constructor (url: string, process: Json -> Result<T>, empty: T)
      ensures this.url == url && this.process == process && this.empty == empty
      ensures State() == Initial()
    {
      this.url := url;
      this.process := process;
      this.empty := empty;
      store := None;
      lastSync := 0;
    }

    /** `get(forceSync)` */
    method Get(now: int, forceSync: bool, fetched: Result<Json>) returns (r: Result<Option<T>>)
      modifies this
      ensures Synced(State(), r) == Sync(old(State()), now, forceSync, fetched, process, empty)
    {
      if now - lastSync < MaximumAge && !forceSync {
        return Ok(store);
      }
      store := Some(empty);
      lastSync := now;
      match fetched {
        case Err(e) =>
          return Err(e);
        case Ok(data) =>
          var processed := process(data);
          if processed.Err? {
            return Err(processed.error);
          }
          store := Some(processed.value);
          return Ok(store);
      }
    }
  }

  // ---------------------------------------------------------------------
  // Articles

  /** One entry of the articles index; `date` is the time value of its Date. */
  datatype ArticleInfo = ArticleInfo(
    id: Option<Json>,
    date: Time,
    title: Option<Json>,
    description: Option<Json>,
    resourcePath: string)

  function ArticleDate(a: ArticleInfo): Time {
    a.date
  }

  function ArticleId(a: ArticleInfo): Result<Option<Json>> {
    Ok(a.id)
  }

  /** The record pushed for one article. */
  function ArticleRecord(article: Json, parse: string -> Time): (r: Result<ArticleInfo>)
    ensures article.JNull? ==> r == Err(TypeError)
  {
    if article.JNull? then Err(TypeError)
    else
      var id := Prop(article, "id").value;
      var date := DateOrEpoch(Prop(article, "date").value, parse);
      var name := ToStr(id);
      if date.Err? then Err(date.error)
      else if name.Err? then Err(name.error)
      else Ok(ArticleInfo(id, date.value, Prop(article, "title").value, Prop(article, "description").value,
                          "meta/articles/repo/" + name.value + ".json"))
  }

  /** The records pushed for `articles`, in order; the first failing article ends the loop. */
  function ArticleRecords(articles: seq<Json>, parse: string -> Time): (r: Result<seq<ArticleInfo>>)
    ensures r.Ok? ==> |r.value| == |articles|
  {
    CollectAll(articles, a => ArticleRecord(a, parse))
  }

  /** `#processArticles(data)`: one record per article, sorted by recency. */
  function Articles(data: Json, parse: string -> Time): (r: Result<seq<ArticleInfo>>)
    ensures data.JNull? ==> r == Err(TypeError)
  {
    match Prop(data, "articles")
    case Err(e) => Err(e)
    case Ok(list) =>
      if list.None? then Err(TypeError)
      else
        match Iterate(list.value)
        case Err(e) => Err(e)
        case Ok(articles) =>
          match ArticleRecords(articles, parse)
          case Err(e) => Err(e)
          case Ok(items) => Ok(SortByRecency(items, ArticleDate))
  }

  /** `#processArticles`, the loop that pushes the records and the sort. */
  method ProcessArticles(data: Json, parse: string -> Time) returns (r: Result<seq<ArticleInfo>>)
    ensures r == Articles(data, parse)
  {
    var list := Prop(data, "articles");
    if list.Err? {
      return Err(list.error);
    }
    if list.value.None? {
      return Err(TypeError);
    }
    var articles := Iterate(list.value.value);
    if articles.Err? {
      return Err(articles.error);
    }
    var all := articles.value;
    var items: seq<ArticleInfo> := [];
    var i := 0;
    while i < |all|
      invariant 0 <= i <= |all|
      invariant ArticleRecords(all[..i], parse) == Ok(items)
    {
      var x := ArticleRecord(all[i], parse);
      CollectStep(all, a => ArticleRecord(a, parse), i);
      if x.Err? {
        CollectErrorPersists(all, a => ArticleRecord(a, parse), i + 1);
        return Err(x.error);
      }
      items := items + [x.value];
      i := i + 1;
    }
    assert all[..i] == all;
    return Ok(SortByRecency(items, ArticleDate));
  }

  /** The records are those of the articles, one each and in order, as long as none fails. */
  lemma ArticleRecordsSpec(articles: seq<Json>, parse: string -> Time)
    ensures ArticleRecords(articles, parse).Ok? <==>
      forall i :: 0 <= i < |articles| ==> ArticleRecord(articles[i], parse).Ok?
    ensures ArticleRecords(articles, parse).Ok? ==>
      forall i :: 0 <= i < |articles| ==>
        ArticleRecords(articles, parse).value[i] == ArticleRecord(articles[i], parse).value
  {
    CollectAllSpec(articles, a => ArticleRecord(a, parse));
  }

  /**
   * An article without a date is dated at the epoch, and its resource path
   * is built from its id.
   */
  lemma ArticleDefaults(fields: seq<Field>, id: string, parse: string -> Time)
    requires Get(fields, "id") == Some(JStr(id)) && Get(fields, "date").None?
    ensures ArticleRecord(JObj(fields), parse) ==
      Ok(ArticleInfo(Some(JStr(id)), Time(0), Get(fields, "title"), Get(fields, "description"),
                     "meta/articles/repo/" + id + ".json"))
  {
  }

  /** An article without an id gets the path of the id `undefined`. */
  lemma ArticleWithoutId(fields: seq<Field>, parse: string -> Time)
    requires !HasKey(fields, "id") && !Nullish(Get(fields, "date"))
    requires DateOf(Get(fields, "date").value, parse).Ok?
    ensures ArticleRecord(JObj(fields), parse).Ok?
    ensures ArticleRecord(JObj(fields), parse).value.resourcePath == "meta/articles/repo/undefined.json"
  {
  }

  /**
   * With valid dates, the processed list holds exactly the articles'
   * records, most recent first, and records of equal date in input order.
   */
  lemma ArticlesByRecency(data: Json, list: seq<Json>, records: seq<ArticleInfo>, parse: string -> Time, t: Time)
    requires Prop(data, "articles") == Ok(Some(JArr(list)))
    requires ArticleRecords(list, parse) == Ok(records) && Timed(records, ArticleDate)
    ensures Articles(data, parse).Ok?
    ensures multiset(Articles(data, parse).value) == multiset(records)
    ensures Descending(Articles(data, parse).value, ArticleDate)
    ensures WithDate(Articles(data, parse).value, ArticleDate, t) == WithDate(records, ArticleDate, t)
  {
    SortPermutes(records, ArticleDate);
    SortSorted(records, ArticleDate);
    SortKeepsDateGroups(records, ArticleDate, t);
  }

  // ---------------------------------------------------------------------
  // Projects

  /** `#processProjects(data)`: `data.projects`, as it is. */
  function Projects(data: Json): (r: Result<Option<Json>>)
    ensures data.JObj? ==> r == Ok(Get(data.fields, "projects"))
    ensures data.JNull? ==> r.Err?
  {
    Prop(data, "projects")
  }

  function RawUuid(p: Json): Result<Option<Json>> {
    Prop(p, "uuid")
  }

  // ---------------------------------------------------------------------
  // Lookups

  /** `(await getArticles())?.find(p => p.id == id)` once the `get` has given `got`. */
  function ArticleLookup(got: Result<Option<seq<ArticleInfo>>>, id: Option<Json>): (r: Result<Option<ArticleInfo>>)
    ensures got.Ok? && got.value.None? ==> r == Ok(None)
    ensures got.Err? ==> r == Err(got.error)
    ensures r.Ok? && r.value.Some? ==>
      got.Ok? && got.value.Some? && r.value.value in got.value.value && LooseEquals(r.value.value.id, id) == Ok(true)
  {
    match got
    case Err(e) => Err(e)
    case Ok(store) => if store.None? then Ok(None) else FindFirst(store.value, ArticleId, id, false)
  }

  /**
   * `(await getProjects())?.find(p => p.uuid == uuid)`: the stored
   * `data.projects` must be an array, `null` or `undefined`; anything else
   * has no callable `find`.
   */
  function ProjectLookup(got: Result<Option<Option<Json>>>, uuid: Option<Json>): (r: Result<Option<Json>>)
    ensures got.Err? ==> r == Err(got.error)
    ensures got == Ok(None) || got == Ok(Some(None)) || got == Ok(Some(Some(JNull))) ==> r == Ok(None)
    ensures (got.Ok? && got.value.Some? && got.value.value.Some? &&
             !got.value.value.value.JNull? && !got.value.value.value.JArr?) ==> r == Err(TypeError)
    ensures r.Ok? && r.value.Some? ==> exists items :: got == Ok(Some(Some(JArr(items)))) && r.value.value in items
  {
    match got
    case Err(e) => Err(e)
    case Ok(store) =>
      if store.None? || store.value.None? then Ok(None)
      else
        match store.value.value
        case JNull => Ok(None)
        case JArr(items) => FindFirst(items, RawUuid, uuid, false)
        case _ => Err(TypeError)
  }

  /** `Indexer.getArticleInfo(id)`: an unforced `getArticles()` and a loose search by id. */
  method GetArticleInfo(articles: Index<seq<ArticleInfo>>, now: int, fetched: Result<Json>, id: Option<Json>)
    returns (r: Result<Option<ArticleInfo>>)
    modifies articles
    ensures var got := Sync(old(articles.State()), now, false, fetched, articles.process, articles.empty);
      articles.State() == got.state && r == ArticleLookup(got.result, id)
  {
    var got := articles.Get(now, false, fetched);
    r := ArticleLookup(got, id);
  }

  /** `Indexer.getProjectInfo(uuid)`: an unforced `getProjects()` and a loose search by uuid. */
  method GetProjectInfo(projects: Index<Option<Json>>, now: int, fetched: Result<Json>, uuid: Option<Json>)
    returns (r: Result<Option<Json>>)
    modifies projects
    ensures var got := Sync(old(projects.State()), now, false, fetched, projects.process, projects.empty);
      projects.State() == got.state && r == ProjectLookup(got.result, uuid)
  {
    var got := projects.Get(now, false, fetched);
    r := ProjectLookup(got, uuid);
  }
}
