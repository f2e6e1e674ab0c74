/**
 * The tab registry of js/ui/TabRegistry.mjs over the immutable tab records
 * of js/ui/TabInfo.mjs. Lookups use `find` with loose equality (`==`)
 * between a tab's id and the argument, so any value that converts to a
 * registered id (the string itself, a one-element array holding it) finds
 * that tab.
 */
module Tabs {
  import opened JsValues
  import Records

  /**
   * A tab: its id, its parent's id (`null` as None) and whether it is
   * rebuilt on each activation. Set once by the constructor and only read.
   */
  datatype TabInfo = TabInfo(id: string, parentId: Option<string>, isDynamic: bool)

  /** `isRootTab`: `!this.parentId`, so a null or empty parent id makes a root. */
  predicate IsRoot(t: TabInfo) {
    t.parentId.None? || t.parentId.value == ""
  }

  /** The registered tabs, in registry order. */
  const Registry: seq<TabInfo> := [
    TabInfo("Home", None, false),
    TabInfo("News", None, true),
    TabInfo("Projects", None, true),
    TabInfo("About", None, false),
    TabInfo("ArticleReader", Some("News"), true),
    TabInfo("ProjectViewer", Some("Projects"), true)
  ]

  const RegisteredIds: set<string> := {"Home", "News", "Projects", "About", "ArticleReader", "ProjectViewer"}

  /** The value `find` compares: the tab's id. */
  function TabId(t: TabInfo): Result<Option<Json>> {
    Ok(Some(JStr(t.id)))
  }

  /** `getTab(id)`: the first tab whose id `==` the argument; converting the argument may throw. */
  function GetTab(tabs: seq<TabInfo>, id: Option<Json>): (r: Result<Option<TabInfo>>)
    ensures r.Ok? && r.value.Some? ==> r.value.value in tabs && LooseEquals(Some(JStr(r.value.value.id)), id) == Ok(true)
  {
    Records.FindFirst(tabs, TabId, id, false)
  }

  /** `getParentId(id)`: the tab's parent id, or null (None) for a root or an unknown id. */
  function GetParentId(tabs: seq<TabInfo>, id: Option<Json>): (r: Result<Option<string>>)
    ensures GetTab(tabs, id) == Ok(None) ==> r == Ok(None)
    ensures GetTab(tabs, id).Ok? && GetTab(tabs, id).value.Some? ==> r == Ok(GetTab(tabs, id).value.value.parentId)
  {
    match GetTab(tabs, id)
    case Err(e) => Err(e)
    case Ok(found) => Ok(if found.Some? then found.value.parentId else None)
  }

  /** `isValid(id)`: whether `getTab` finds a tab. */
  function IsValid(tabs: seq<TabInfo>, id: Option<Json>): (r: Result<bool>)
    ensures r.Ok? <==> GetTab(tabs, id).Ok?
    ensures r.Ok? ==> (r.value <==> GetTab(tabs, id).value.Some?)
  {
    match GetTab(tabs, id)
    case Err(e) => Err(e)
    case Ok(found) => Ok(found.Some?)
  }

  /** `isRootTab(id)`: reading a property of the `undefined` an unknown id gives throws a TypeError. */
  function IsRootTab(tabs: seq<TabInfo>, id: Option<Json>): (r: Result<bool>)
    ensures GetTab(tabs, id) == Ok(None) ==> r == Err(TypeError)
    ensures r.Ok? ==> GetTab(tabs, id).Ok? && GetTab(tabs, id).value.Some? && (r.value <==> IsRoot(GetTab(tabs, id).value.value))
  {
    match GetTab(tabs, id)
    case Err(e) => Err(e)
    case Ok(found) => if found.Some? then Ok(IsRoot(found.value)) else Err(TypeError)
  }

  /** `isDynamic(id)`: false for an unknown id. */
  function IsDynamic(tabs: seq<TabInfo>, id: Option<Json>): (r: Result<bool>)
    ensures GetTab(tabs, id) == Ok(None) ==> r == Ok(false)
    ensures r == Ok(true) ==> GetTab(tabs, id).Ok? && GetTab(tabs, id).value.Some? && GetTab(tabs, id).value.value.isDynamic
  {
    match GetTab(tabs, id)
    case Err(e) => Err(e)
    case Ok(found) => Ok(found.Some? && found.value.isDynamic)
  }

  /** `build(id, options)`: the tab whose `buildUI` is called; an unknown id has none, a TypeError. */
  function BuildTarget(tabs: seq<TabInfo>, id: Option<Json>): (r: Result<TabInfo>)
    ensures GetTab(tabs, id) == Ok(None) ==> r == Err(TypeError)
    ensures r.Ok? ==> GetTab(tabs, id) == Ok(Some(r.value))
  {
    match GetTab(tabs, id)
    case Err(e) => Err(e)
    case Ok(found) => if found.Some? then Ok(found.value) else Err(TypeError)
  }

  /** Two strings are loosely equal exactly when they are the same string. */
  lemma StringsLooselyEqual(a: string, b: string)
    ensures LooseEquals(Some(JStr(a)), Some(JStr(b))) == Ok(a == b)
  {
  }

  lemma MatchesById(tabs: seq<TabInfo>, s: string)
    ensures forall k :: 0 <= k < |tabs| ==> Records.Matches(tabs[k], TabId, Some(JStr(s)), false) == Ok(tabs[k].id == s)
  {
    forall k | 0 <= k < |tabs|
      ensures Records.Matches(tabs[k], TabId, Some(JStr(s)), false) == Ok(tabs[k].id == s)
    {
      StringsLooselyEqual(tabs[k].id, s);
    }
  }

  /** Looking up a string finds the first tab with exactly that id. */
  lemma GetTabFound(tabs: seq<TabInfo>, s: string, i: nat)
    requires i < |tabs| && tabs[i].id == s
    requires forall k :: 0 <= k < i ==> tabs[k].id != s
    ensures GetTab(tabs, Some(JStr(s))) == Ok(Some(tabs[i]))
  {
    MatchesById(tabs, s);
    Records.FindFirstAt(tabs, TabId, Some(JStr(s)), false, i);
  }

  /** Looking up a string no tab has as its id finds nothing. */
  lemma GetTabMissing(tabs: seq<TabInfo>, s: string)
    requires forall k :: 0 <= k < |tabs| ==> tabs[k].id != s
    ensures GetTab(tabs, Some(JStr(s))) == Ok(None)
  {
    MatchesById(tabs, s);
    Records.FindFirstNone(tabs, TabId, Some(JStr(s)), false);
  }

  /** The registered tab with id `s`. */
  function RegisteredIndex(s: string): (i: nat)
    requires s in RegisteredIds
    ensures i < |Registry| && Registry[i].id == s
    ensures forall k :: 0 <= k < i ==> Registry[k].id != s
  {
    if s == "Home" then 0
    else if s == "News" then 1
    else if s == "Projects" then 2
    else if s == "About" then 3
    else if s == "ArticleReader" then 4
    else 5
  }

  /** A string id is valid exactly when it is one of the six registered ids. */
  lemma ValidIds(s: string)
    ensures IsValid(Registry, Some(JStr(s))) == Ok(s in RegisteredIds)
  {
    if s in RegisteredIds {
      GetTabFound(Registry, s, RegisteredIndex(s));
    } else {
      GetTabMissing(Registry, s);
    }
  }

  /** For an unknown string id, `getParentId` is null and `isDynamic` false, while `isRootTab` throws. */
  lemma UnknownId(s: string)
    requires s !in RegisteredIds
    ensures GetParentId(Registry, Some(JStr(s))) == Ok(None)
    ensures IsDynamic(Registry, Some(JStr(s))) == Ok(false)
    ensures IsRootTab(Registry, Some(JStr(s))) == Err(TypeError)
  {
    GetTabMissing(Registry, s);
  }

  /** The two reader tabs have their list tabs as parents and are not roots; the others are roots. */
  lemma ReaderParents()
    ensures GetParentId(Registry, Some(JStr("ArticleReader"))) == Ok(Some("News"))
    ensures GetParentId(Registry, Some(JStr("ProjectViewer"))) == Ok(Some("Projects"))
    ensures IsRootTab(Registry, Some(JStr("ArticleReader"))) == Ok(false)
    ensures IsRootTab(Registry, Some(JStr("Home"))) == Ok(true)
  {
    GetTabFound(Registry, "ArticleReader", RegisteredIndex("ArticleReader"));
    GetTabFound(Registry, "ProjectViewer", RegisteredIndex("ProjectViewer"));
    GetTabFound(Registry, "Home", RegisteredIndex("Home"));
  }

  /** A one-element array holding an id converts to that id, so it finds the tab too. */
  lemma ArrayFindsTab()
    ensures GetTab(Registry, Some(JArr([JStr("Home")]))) == Ok(Some(Registry[0]))
  {
    var target := Some(JArr([JStr("Home")]));
    assert JsonToString(JArr([JStr("Home")])) == Ok("Home");
    assert Records.Matches(Registry[0], TabId, target, false) == Ok(true);
  }
}
