/**
 * The post and project indexes of js/provider.mjs. Like the indexes of
 * js/core/Indexer.mjs they are served from a store for MaximumAge
 * milliseconds, but here the parse callback pushes records straight into
 * the store, so a parse that throws half way leaves the records pushed so
 * far in place; and any failure is rethrown wrapped in a new Error.
 *
 * The clock and the fetch are parameters, as in the Indexer module.
 */
module Provider {
  import opened JsValues
  import opened Records

  /** What a parse callback did to the store: the records it pushed, and what it threw, if anything. */
  datatype Filled<R> = Filled(pushed: seq<R>, error: Option<Exception>)

  /** `Index.get(forceRefresh)`: the state after the call and what it returns. */
  function Refresh<R>(s: CacheState<seq<R>>, now: int, forceRefresh: bool, fetched: Result<Json>,
                      parse: Json -> Filled<R>): (r: Synced<seq<R>>)
    ensures r.result.Ok? ==> r.result.value == r.state.store
    ensures r.result.Err? ==> r.result.error.Wrapped?
  {
    if Fresh(now, s.last, forceRefresh) then Synced(s, Ok(s.store))
    else
      match fetched
      case Err(e) => Synced(CacheState(Some([]), now), Err(Wrapped(e)))
      case Ok(data) =>
        var f := parse(data);
        var state := CacheState(Some(f.pushed), now);
        if f.error.Some? then Synced(state, Err(Wrapped(f.error.value))) else Synced(state, Ok(Some(f.pushed)))
  }

  /** Within the window and unforced, the store is returned and the fetch plays no part. */
  lemma RefreshServedFromStore<R>(s: CacheState<seq<R>>, now: int, f1: Result<Json>, f2: Result<Json>,
                                  parse: Json -> Filled<R>)
    requires now - s.last < MaximumAge
    ensures Refresh(s, now, false, f1, parse) == Synced(s, Ok(s.store))
    ensures Refresh(s, now, false, f1, parse) == Refresh(s, now, false, f2, parse)
  {
  }

  /** A forced refresh stamps `now` and stores exactly what the callback pushed. */
  lemma ForcedRefresh<R>(s: CacheState<seq<R>>, now: int, data: Json, parse: Json -> Filled<R>)
    ensures Refresh(s, now, true, Ok(data), parse).state == CacheState(Some(parse(data).pushed), now)
    ensures parse(data).error.None? ==> Refresh(s, now, true, Ok(data), parse).result == Ok(Some(parse(data).pushed))
  {
  }

  /**
   * A failed fetch is rethrown as `new Error(e)`; the store stays `[]` and is
   * what unforced calls in the next MaximumAge milliseconds return.
   */
  lemma FetchFailureWrapped<R>(s: CacheState<seq<R>>, now: int, force: bool, e: Exception,
                               later: int, again: Result<Json>, parse: Json -> Filled<R>)
    requires !Fresh(now, s.last, force) && now <= later < now + MaximumAge
    ensures Refresh(s, now, force, Err(e), parse) == Synced(CacheState(Some([]), now), Err(Wrapped(e)))
    ensures Refresh(CacheState(Some([]), now), later, false, again, parse).result == Ok(Some([]))
  {
  }

  /**
   * A callback that throws after pushing some records leaves them in the
   * store: the call fails, and unforced calls in the next MaximumAge
   * milliseconds return those records.
   */
  lemma PartialStoreServed<R>(s: CacheState<seq<R>>, now: int, force: bool, data: Json,
                              later: int, again: Result<Json>, parse: Json -> Filled<R>)
    requires !Fresh(now, s.last, force) && now <= later < now + MaximumAge
    requires parse(data).error.Some?
    ensures Refresh(s, now, force, Ok(data), parse).result == Err(Wrapped(parse(data).error.value))
    ensures Refresh(Refresh(s, now, force, Ok(data), parse).state, later, false, again, parse).result
      == Ok(Some(parse(data).pushed))
  {
  }

  /** `Index` of js/provider.mjs: one cached JSON resource and its parse callback. */
  class RefreshIndex<R> {
    const url: string
    const parse: Json -> Filled<R>
    /** `#store`, `null` until the first refresh. */
    var store: Option<seq<R>>
    /** `#lastRefresh` */
    var lastRefresh: int

    function State(): CacheState<seq<R>>
      reads this
    {
      CacheState(store, lastRefresh)
    }

    constructor (url: string, parse: Json -> Filled<R>)
      ensures this.url == url && this.parse == parse
      ensures State() == Initial()
    {
      this.url := url;
      this.parse := parse;
      store := None;
      lastRefresh := 0;
    }

    /** `get(forceRefresh)` */
    method Get(now: int, forceRefresh: bool, fetched: Result<Json>) returns (r: Result<Option<seq<R>>>)
      modifies this
      ensures Synced(State(), r) == Refresh(old(State()), now, forceRefresh, fetched, parse)
    {
      if now - lastRefresh < MaximumAge && !forceRefresh {
        return Ok(store);
      }
      store := Some([]);
      lastRefresh := now;
      if fetched.Err? {
        return Err(Wrapped(fetched.error));
      }
      var f := parse(fetched.value);
      store := Some(f.pushed);
      if f.error.Some? {
        return Err(Wrapped(f.error.value));
      }
      return Ok(store);
    }
  }

  // ---------------------------------------------------------------------
  // Posts

  /** One entry of the posts index; `date` is the time value of its Date. */
  datatype PostInfo = PostInfo(id: Json, date: Time, title: Json, description: Json, resourceUrl: string)

  function PostDate(p: PostInfo): Time {
    p.date
  }

  function PostId(p: PostInfo): Result<Option<Json>> {
    Ok(Some(p.id))
  }

  /** `v ?? fallback` where the fallback is never nullish. */
  function Or(v: Option<Json>, fallback: Json): (r: Json)
    ensures Nullish(v) ==> r == fallback
    ensures !Nullish(v) ==> r == v.value
  {
    if Nullish(v) then fallback else v.value
  }

  /** The record pushed for one post; the resource URL is built from the raw `post.id`. */
  function PostRecord(post: Json, parse: string -> Time): (r: Result<PostInfo>)
    ensures post.JNull? ==> r == Err(TypeError)
  {
    if post.JNull? then Err(TypeError)
    else
      var id := Prop(post, "id").value;
      var date := DateOrEpoch(Prop(post, "date").value, parse);
      var name := ToStr(id);
      if date.Err? then Err(date.error)
      else if name.Err? then Err(name.error)
      else Ok(PostInfo(Or(id, JStr("the-void")), date.value, Or(Prop(post, "title").value, JStr("N/A")),
                       Or(Prop(post, "description").value, JStr("N/A")), "meta/posts/repo/" + name.value))
  }

  /**
   * The pushes of a `forEach` loop that pushes `f(x)` for each item: an
   * item that throws stops the loop with the earlier records pushed.
   */
  function PushAll<X, R>(xs: seq<X>, f: X -> Result<R>): (r: Filled<R>)
    ensures |r.pushed| <= |xs|
    ensures r.error.None? ==> |r.pushed| == |xs|
  {
    if xs == [] then Filled([], None)
    else
      var prior := PushAll(xs[..|xs| - 1], f);
      if prior.error.Some? then prior
      else
        match f(xs[|xs| - 1])
        case Err(e) => Filled(prior.pushed, Some(e))
        case Ok(x) => Filled(prior.pushed + [x], None)
  }

  /** The pushes of `posts.forEach`. */
  function PushPosts(posts: seq<Json>, parse: string -> Time): (r: Filled<PostInfo>)
    ensures |r.pushed| <= |posts|
    ensures r.error.None? ==> |r.pushed| == |posts|
  {
    PushAll(posts, p => PostRecord(p, parse))
  }

  /** The posts callback: push a record per post, then sort the store by recency. */
  function PostsParse(data: Json, parse: string -> Time): (r: Filled<PostInfo>)
    ensures data.JNull? ==> r == Filled([], Some(TypeError))
  {
    match Prop(data, "posts")
    case Err(e) => Filled([], Some(e))
    case Ok(list) =>
      if list.Some? && list.value.JArr? then
        var f := PushPosts(list.value.items, parse);
        if f.error.Some? then f else Filled(SortByRecency(f.pushed, PostDate), None)
      else Filled([], Some(TypeError))
  }

  /** One more item after a loop that has not thrown: its error stops the loop, its record is pushed otherwise. */
  lemma PushStep<X, R>(xs: seq<X>, f: X -> Result<R>, i: nat)
    requires i < |xs| && PushAll(xs[..i], f).error.None?
    ensures PushAll(xs[..i + 1], f) ==
      match f(xs[i])
      case Err(e) => Filled(PushAll(xs[..i], f).pushed, Some(e))
      case Ok(x) => Filled(PushAll(xs[..i], f).pushed + [x], None)
  {
    assert xs[..i + 1][..i] == xs[..i];
  }

  /** Once an item has thrown, one more item changes nothing. */
  lemma PushStopped<X, R>(xs: seq<X>, x: X, f: X -> Result<R>)
    requires PushAll(xs, f).error.Some?
    ensures PushAll(xs + [x], f) == PushAll(xs, f)
  {
    assert (xs + [x])[..|xs|] == xs;
  }

  /** Once an item has thrown, the items after it change nothing. */
  lemma {:induction false} PushStopsAtError<X, R>(xs: seq<X>, f: X -> Result<R>, i: nat)
    requires i <= |xs| && PushAll(xs[..i], f).error.Some?
    ensures PushAll(xs, f) == PushAll(xs[..i], f)
    decreases |xs| - i
  {
    if i < |xs| {
      assert xs[..i + 1] == xs[..i] + [xs[i]];
      PushStopped(xs[..i], xs[i], f);
      PushStopsAtError(xs, f, i + 1);
    } else {
      assert xs[..i] == xs;
    }
  }

  /** The posts callback: the `forEach` loop pushing into the store, then the sort. */
  method FillPosts(data: Json, parse: string -> Time) returns (f: Filled<PostInfo>)
    ensures f == PostsParse(data, parse)
  {
    var list := Prop(data, "posts");
    if list.Err? {
      return Filled([], Some(list.error));
    }
    if list.value.None? || !list.value.value.JArr? {
      return Filled([], Some(TypeError));
    }
    var posts := list.value.value.items;
    var store: seq<PostInfo> := [];
    var i := 0;
    while i < |posts|
      invariant 0 <= i <= |posts|
      invariant PushPosts(posts[..i], parse) == Filled(store, None)
    {
      var x := PostRecord(posts[i], parse);
      PushStep(posts, p => PostRecord(p, parse), i);
      if x.Err? {
        PushStopsAtError(posts, p => PostRecord(p, parse), i + 1);
        return Filled(store, Some(x.error));
      }
      store := store + [x.value];
      i := i + 1;
    }
    assert posts[..i] == posts;
    return Filled(SortByRecency(store, PostDate), None);
  }

  /** A post with none of the optional fields gets the defaults. */
  lemma PostDefaults(fields: seq<Field>, parse: string -> Time)
    requires !HasKey(fields, "id") && !HasKey(fields, "date")
    requires !HasKey(fields, "title") && !HasKey(fields, "description")
    ensures PostRecord(JObj(fields), parse) ==
      Ok(PostInfo(JStr("the-void"), Time(0), JStr("N/A"), JStr("N/A"), "meta/posts/repo/undefined"))
  {
    assert "meta/posts/repo/" + "undefined" == "meta/posts/repo/undefined";
  }

  /** The record pushed for each item, and only the records before a throwing item. */
  lemma {:induction false} PushAllSpec<X, R>(xs: seq<X>, f: X -> Result<R>)
    ensures forall i :: 0 <= i < |PushAll(xs, f).pushed| ==> f(xs[i]) == Ok(PushAll(xs, f).pushed[i])
    ensures PushAll(xs, f).error.Some? ==> f(xs[|PushAll(xs, f).pushed|]).Err?
    ensures PushAll(xs, f).error.None? <==> forall i :: 0 <= i < |xs| ==> f(xs[i]).Ok?
  {
    if xs != [] {
      var init := xs[..|xs| - 1];
      PushAllSpec(init, f);
      assert forall i :: 0 <= i < |init| ==> init[i] == xs[i];
    }
  }

  /** The record pushed for each post, and only the records before a throwing post. */
  lemma PushPostsSpec(posts: seq<Json>, parse: string -> Time)
    ensures forall i :: 0 <= i < |PushPosts(posts, parse).pushed| ==>
      PostRecord(posts[i], parse) == Ok(PushPosts(posts, parse).pushed[i])
    ensures PushPosts(posts, parse).error.Some? ==>
      PostRecord(posts[|PushPosts(posts, parse).pushed|], parse).Err?
    ensures PushPosts(posts, parse).error.None? <==> forall i :: 0 <= i < |posts| ==> PostRecord(posts[i], parse).Ok?
  {
    PushAllSpec(posts, p => PostRecord(p, parse));
  }

  /**
   * With valid dates, the posts store ends up holding the posts' records,
   * most recent first, and records of equal date in input order.
   */
  lemma PostsByRecency(data: Json, list: seq<Json>, parse: string -> Time, t: Time)
    requires Prop(data, "posts") == Ok(Some(JArr(list)))
    requires PushPosts(list, parse).error.None? && Timed(PushPosts(list, parse).pushed, PostDate)
    ensures PostsParse(data, parse).error.None?
    ensures multiset(PostsParse(data, parse).pushed) == multiset(PushPosts(list, parse).pushed)
    ensures Descending(PostsParse(data, parse).pushed, PostDate)
    ensures WithDate(PostsParse(data, parse).pushed, PostDate, t) == WithDate(PushPosts(list, parse).pushed, PostDate, t)
  {
    SortPermutes(PushPosts(list, parse).pushed, PostDate);
    SortSorted(PushPosts(list, parse).pushed, PostDate);
    SortKeepsDateGroups(PushPosts(list, parse).pushed, PostDate, t);
  }

  // ---------------------------------------------------------------------
  // Projects

  /** One entry of the projects index. */
  datatype ProjectInfo = ProjectInfo(
    uuid: Option<Json>,
    name: Option<Json>,
    logo: Json,
    url: Option<Json>,
    status: Option<Json>,
    description: Option<Json>,
    details: Json,
    resourceUrl: string)

  function ProjectUuid(p: ProjectInfo): Result<Option<Json>> {
    Ok(p.uuid)
  }

  /** The record pushed for one project: `logo ?? null`, `details ?? []`, the URL from the raw uuid. */
  function ProjectRecord(proj: Json): (r: Result<ProjectInfo>)
    ensures proj.JNull? ==> r == Err(TypeError)
  {
    if proj.JNull? then Err(TypeError)
    else
      var uuid := Prop(proj, "uuid").value;
      var name := ToStr(uuid);
      if name.Err? then Err(name.error)
      else
        Ok(ProjectInfo(uuid, Prop(proj, "name").value, Or(Prop(proj, "logo").value, JNull),
                       Prop(proj, "url").value, Prop(proj, "status").value, Prop(proj, "description").value,
                       Or(Prop(proj, "details").value, JArr([])), "meta/projects/repo/" + name.value))
  }

  function PushProjects(projects: seq<Json>): (r: Filled<ProjectInfo>)
    ensures |r.pushed| <= |projects|
  {
    if projects == [] then Filled([], None)
    else
      var f := PushProjects(projects[..|projects| - 1]);
      if f.error.Some? then f
      else
        match ProjectRecord(projects[|projects| - 1])
        case Err(e) => Filled(f.pushed, Some(e))
        case Ok(x) => Filled(f.pushed + [x], None)
  }

  /** The projects callback: push a record per project, in input order. */
  function ProjectsParse(data: Json): (r: Filled<ProjectInfo>)
    ensures data.JNull? ==> r == Filled([], Some(TypeError))
  {
    match Prop(data, "projects")
    case Err(e) => Filled([], Some(e))
    case Ok(list) =>
      if list.Some? && list.value.JArr? then PushProjects(list.value.items) else Filled([], Some(TypeError))
  }

  lemma {:induction false} ProjectsStopAtError(projects: seq<Json>, i: nat)
    requires i <= |projects| && PushProjects(projects[..i]).error.Some?
    ensures PushProjects(projects) == PushProjects(projects[..i])
    decreases |projects| - i
  {
    if i < |projects| {
      assert projects[..i + 1][..i] == projects[..i];
      ProjectsStopAtError(projects, i + 1);
    } else {
      assert projects[..i] == projects;
    }
  }

  /** The projects callback: the `forEach` loop pushing into the store. */
  method FillProjects(data: Json) returns (f: Filled<ProjectInfo>)
    ensures f == ProjectsParse(data)
  {
    var list := Prop(data, "projects");
    if list.Err? {
      return Filled([], Some(list.error));
    }
    if list.value.None? || !list.value.value.JArr? {
      return Filled([], Some(TypeError));
    }
    var projects := list.value.value.items;
    var store: seq<ProjectInfo> := [];
    var i := 0;
    while i < |projects|
      invariant 0 <= i <= |projects|
      invariant PushProjects(projects[..i]) == Filled(store, None)
    {
      var x := ProjectRecord(projects[i]);
      assert projects[..i + 1][..i] == projects[..i];
      if x.Err? {
        ProjectsStopAtError(projects, i + 1);
        return Filled(store, Some(x.error));
      }
      store := store + [x.value];
      i := i + 1;
    }
    assert projects[..i] == projects;
    return Filled(store, None);
  }

  /** Projects are stored in the order the file lists them, one record each. */
  lemma {:induction false} ProjectsKeepOrder(projects: seq<Json>)
    ensures PushProjects(projects).error.None? ==> |PushProjects(projects).pushed| == |projects|
    ensures forall i :: 0 <= i < |PushProjects(projects).pushed| ==>
      ProjectRecord(projects[i]) == Ok(PushProjects(projects).pushed[i])
  {
    if projects != [] {
      var init := projects[..|projects| - 1];
      ProjectsKeepOrder(init);
      assert forall i :: 0 <= i < |init| ==> init[i] == projects[i];
    }
  }

  /** A project without logo or details gets `null` and `[]`. */
  lemma ProjectDefaults(fields: seq<Field>, uuid: string)
    requires Get(fields, "uuid") == Some(JStr(uuid)) && !HasKey(fields, "logo") && !HasKey(fields, "details")
    ensures ProjectRecord(JObj(fields)).Ok?
    ensures ProjectRecord(JObj(fields)).value.logo == JNull
    ensures ProjectRecord(JObj(fields)).value.details == JArr([])
    ensures ProjectRecord(JObj(fields)).value.resourceUrl == "meta/projects/repo/" + uuid
  {
  }

  // ---------------------------------------------------------------------
  // Lookups

  /** `(await index.get())?.find(p => key(p) === target)` (or `==`) once the `get` has given `got`. */
  function Lookup<R>(got: Result<Option<seq<R>>>, key: R -> Result<Option<Json>>, target: Option<Json>, strict: bool)
    : (r: Result<Option<R>>)
    ensures got.Err? ==> r == Err(got.error)
    ensures got == Ok(None) ==> r == Ok(None)
    ensures r.Ok? && r.value.Some? ==>
      got.Ok? && got.value.Some? && r.value.value in got.value.value &&
      Matches(r.value.value, key, target, strict) == Ok(true)
  {
    match got
    case Err(e) => Err(e)
    case Ok(store) => if store.None? then Ok(None) else FindFirst(store.value, key, target, strict)
  }

  /** `Provider.getPostInfo(postId)`: an unforced get and a strict (`===`) search by id. */
  method GetPostInfo(posts: RefreshIndex<PostInfo>, now: int, fetched: Result<Json>, postId: Option<Json>)
    returns (r: Result<Option<PostInfo>>)
    modifies posts
    ensures var got := Refresh(old(posts.State()), now, false, fetched, posts.parse);
      posts.State() == got.state && r == Lookup(got.result, PostId, postId, true)
  {
    var got := posts.Get(now, false, fetched);
    r := Lookup(got, PostId, postId, true);
  }

  /** `Provider.getProjectInfo(projectUuid)`: an unforced get and a loose (`==`) search by uuid. */
  method GetProjectInfo(projects: RefreshIndex<ProjectInfo>, now: int, fetched: Result<Json>, projectUuid: Option<Json>)
    returns (r: Result<Option<ProjectInfo>>)
    modifies projects
    ensures var got := Refresh(old(projects.State()), now, false, fetched, projects.parse);
      projects.State() == got.state && r == Lookup(got.result, ProjectUuid, projectUuid, false)
  {
    var got := projects.Get(now, false, fetched);
    r := Lookup(got, ProjectUuid, projectUuid, false);
  }

  /**
   * The two lookups compare differently: a numeric id is not found by the
   * string of its digits with `===`, while a numeric uuid is, with `==`.
   */
  lemma StrictAndLooseLookups(post: PostInfo, project: ProjectInfo)
    requires post.id == JNum(5) && project.uuid == Some(JNum(5))
    ensures Lookup(Ok(Some([post])), PostId, Some(JStr("5")), true) == Ok(None)
    ensures Lookup(Ok(Some([project])), ProjectUuid, Some(JStr("5")), false) == Ok(Some(project))
  {
    assert Matches(post, PostId, Some(JStr("5")), true) == Ok(false);
    assert [post][1..] == [];
    assert FindFirst([post], PostId, Some(JStr("5")), true) == FindFirst([], PostId, Some(JStr("5")), true);
    var five: string := "5";
    assert TrimStart(five) == five;
    assert TrimEnd(five) == five;
    assert DigitsValue(five) == 5;
  }
}
