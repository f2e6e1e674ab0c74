/**
 * The view manager of js/views.mjs, which keeps its session in the
 * browser's session storage. Storage holds strings: a view name as itself,
 * an absent key copied into another becomes the text "undefined", and
 * options are stored as `JSON.stringify(options ?? "null")`. A stored
 * options text is kept here as the value it serialises (`JSON.parse` of
 * `JSON.stringify(v)` gives `v` back for JSON values) or as the text
 * "undefined", which `JSON.parse` rejects.
 *
 * A view change sets the shared `view-changed` event detail, dispatches it,
 * updates the session, and then builds the view. `window.location.assign`
 * is recorded as an effect.
 */
module Views {
  import opened JsValues
  import Navigation

  /** The registry: view name to parent. Views starting with `_` are not to be opened from the address bar. */
  const ViewRegistry: map<string, Navigation.Entry> := map[
    "home" := Navigation.Entry(None, false),
    "posts" := Navigation.Entry(None, false),
    "projects" := Navigation.Entry(None, false),
    "about" := Navigation.Entry(None, false),
    "post-reader" := Navigation.Entry(Some("posts"), false),
    "project-viewer" := Navigation.Entry(Some("projects"), false),
    "_error" := Navigation.Entry(None, false)
  ]

  /** A stored options text: `JSON.stringify(value)`, or "undefined". */
  datatype StoredOptions = Serialized(value: Json) | UndefinedText

  /** The four session storage keys (None: the key is absent). */
  datatype Storage = Storage(currentView: Option<string>, currentViewOptions: Option<StoredOptions>,
                             previousView: Option<string>, previousViewOptions: Option<StoredOptions>)

  const Empty := Storage(None, None, None, None)

  /** The `view-changed` event detail. */
  datatype Detail = Detail(action: string, currentView: string, currentViewParent: Option<string>)

  const InitialDetail := Detail("", "", Some(""))

  datatype Effect =
    | Assigned(url: string)                     // window.location.assign(url)
    | Dispatched(detail: Detail)                // document.dispatchEvent(view-changed)
    | Built(view: string, options: Json)        // ViewRegistry[view].build(options)
    | ErrorBuilt(view: string)                  // the build failed; the error view is built instead

  /** The storage and event detail after a call, and its effects. */
  datatype Step = Step(storage: Storage, detail: Detail, effects: seq<Effect>)

  /** `JSON.parse(text ?? "null")` */
  function ParseStored(text: Option<StoredOptions>): (r: Result<Json>)
    ensures r.Err? <==> text == Some(UndefinedText)
  {
    match text
    case None => Ok(JNull)
    case Some(Serialized(v)) => Ok(v)
    case Some(UndefinedText) => Err(SyntaxError)
  }

  /** What `options ?? "null"` serialises to. */
  function OptionsOrNull(options: Option<Json>): Json {
    if Nullish(options) then JStr("null") else options.value
  }

  /**
   * `Session.update(view, options)`: a view other than the current one
   * moves the current view and options into the previous keys (an absent
   * key is copied as "undefined"); then the view and its options are stored.
   */
  function Updated(st: Storage, view: string, options: Option<Json>): (r: Storage)
    ensures r.currentView == Some(view) && r.currentViewOptions == Some(Serialized(OptionsOrNull(options)))
    ensures st.currentView != Some(view) ==>
      r.previousView == Some(Navigation.Key(st.currentView)) &&
      r.previousViewOptions == Some(if st.currentViewOptions.Some? then st.currentViewOptions.value else UndefinedText)
    ensures st.currentView == Some(view) ==>
      r.previousView == st.previousView && r.previousViewOptions == st.previousViewOptions
  {
    var shifted :=
      if Some(view) != st.currentView then
        st.(previousView := Some(Navigation.Key(st.currentView)),
            previousViewOptions := Some(if st.currentViewOptions.Some? then st.currentViewOptions.value else UndefinedText))
      else st;
    shifted.(currentView := Some(view), currentViewOptions := Some(Serialized(OptionsOrNull(options))))
  }

  /** `ViewRegistry[view].parent` for a valid view. */
  function ParentOf(view: string): Option<string> {
    match Navigation.SlotOf(ViewRegistry, Some(view))
    case Registered(e) => e.parent
    case _ => None
  }

  /**
   * `Views.view(view, options)`: an unknown view sends the browser to "/";
   * otherwise the detail says "activate" when the view is the stored
   * current one and "refresh" when not, the session is updated, and the
   * view is built with `options ?? {}` (a member of Object.prototype has no
   * `build`, so the error view is built).
   */
  function ViewStep(st: Storage, detail: Detail, view: string, options: Option<Json>): (r: Step)
    ensures !Navigation.IsValid(ViewRegistry, Some(view)) ==> r == Step(st, detail, [Assigned("/")])
    ensures Navigation.IsValid(ViewRegistry, Some(view)) ==>
      r.storage == Updated(st, view, options) &&
      r.detail == Detail(if st.currentView == Some(view) then "activate" else "refresh", view, ParentOf(view))
  {
    if !Navigation.IsValid(ViewRegistry, Some(view)) then Step(st, detail, [Assigned("/")])
    else
      var d := Detail(if st.currentView == Some(view) then "activate" else "refresh", view, ParentOf(view));
      var built := if view in ViewRegistry then Built(view, if Nullish(options) then JObj([]) else options.value)
                   else ErrorBuilt(view);
      Step(Updated(st, view, options), d, [Dispatched(d), built])
  }

  /** `Session.reset()`: the four keys are deleted. */
  function ResetStorage(st: Storage): (r: Storage)
    ensures r.currentView.None? && r.currentViewOptions.None? && r.previousView.None? && r.previousViewOptions.None?
  {
    Empty
  }

  /**
   * `ActionRegistry.activate(action)`: "reload" and "reset" go to "/",
   * "reset" clearing the session first; a name `in` the actions object only
   * through Object.prototype calls that member, which throws for the three
   * that need arguments or are not callable; any other name is ignored.
   */
  function Action(st: Storage, detail: Detail, action: string): (r: Result<Step>)
    ensures action == "reload" ==> r == Ok(Step(st, detail, [Assigned("/")]))
    ensures action == "reset" ==> r == Ok(Step(ResetStorage(st), detail, [Assigned("/")]))
    ensures action !in {"reload", "reset"} ==> r == Ok(Step(st, detail, [])) || r == Err(TypeError)
  {
    if action == "reload" then Ok(Step(st, detail, [Assigned("/")]))
    else if action == "reset" then Ok(Step(ResetStorage(st), detail, [Assigned("/")]))
    else if action in {"__proto__", "__defineGetter__", "__defineSetter__"} then Err(TypeError)
    else Ok(Step(st, detail, []))
  }

  /** `Session.restore()`: the stored current view with its parsed options; `false` without one. */
  function RestoreStep(st: Storage, detail: Detail): (r: Result<(Step, bool)>)
    ensures r.Ok? && !r.value.1 ==> r.value.0 == Step(st, detail, [])
    ensures r.Ok? ==> (r.value.1 <==> Navigation.TruthyName(st.currentView))
  {
    if !Navigation.TruthyName(st.currentView) then Ok((Step(st, detail, []), false))
    else
      match ParseStored(st.currentViewOptions)
      case Err(e) => Err(e)
      case Ok(v) => Ok((ViewStep(st, detail, st.currentView.value, Some(v)), true))
  }

  /** `ViewRegistry[view]?.parent ?? "home"` */
  function ParentOrHome(view: Option<string>): string {
    match Navigation.SlotOf(ViewRegistry, view)
    case Registered(e) => if e.parent.Some? then e.parent.value else "home"
    case _ => "home"
  }

  /**
   * `Views.previousView(fallbackParent)`: the previous view with its parsed
   * options and `true`; without one, the parent (always "home") and
   * `undefined` (None) when falling back, else `false`.
   */
  function PreviousStep(st: Storage, detail: Detail, fallbackParent: bool): (r: Result<(Step, Option<bool>)>)
    ensures !Navigation.TruthyName(st.previousView) ==> r.Ok? && (r.value.1 == if fallbackParent then None else Some(false))
    ensures Navigation.TruthyName(st.previousView) && st.previousViewOptions == Some(UndefinedText) ==> r == Err(SyntaxError)
    ensures Navigation.TruthyName(st.previousView) && st.previousViewOptions != Some(UndefinedText) ==>
      r == Ok((ViewStep(st, detail, st.previousView.value, Some(ParseStored(st.previousViewOptions).value)), Some(true)))
  {
    if !Navigation.TruthyName(st.previousView) then
      if fallbackParent then Ok((ViewStep(st, detail, ParentOrHome(st.previousView), Some(JNull)), None))
      else Ok((Step(st, detail, []), Some(false)))
    else
      match ParseStored(st.previousViewOptions)
      case Err(e) => Err(e)
      case Ok(v) => Ok((ViewStep(st, detail, st.previousView.value, Some(v)), Some(true)))
  }

  predicate StartsWithUnderscore(s: string) {
    |s| > 0 && s[0] == '_'
  }

  /**
   * `Views.setup()`: the first present of `action`, `project`, `post` and
   * `view` in the query decides; then a stored current view is restored;
   * otherwise "home" is shown.
   */
  function SetupStep(st: Storage, detail: Detail, search: seq<Field>): Result<Step> {
    var action := Get(search, "action");
    var project := Get(search, "project");
    var post := Get(search, "post");
    var view := Get(search, "view");
    if TruthyOpt(action) then
      match ToStr(action)
      case Err(e) => Err(e)
      case Ok(name) => Action(st, detail, name)
    else if TruthyOpt(project) then Ok(ViewStep(st, detail, "project-viewer", Some(JObj([Field("projectUuid", project.value)]))))
    else if TruthyOpt(post) then Ok(ViewStep(st, detail, "post-reader", Some(JObj([Field("postId", post.value)]))))
    else if TruthyOpt(view) then
      match view.value
      case JStr(name) => if !StartsWithUnderscore(name) then Ok(ViewStep(st, detail, name, Some(JNull))) else Action(st, detail, "reset")
      case _ => Err(TypeError)
    else if Navigation.TruthyName(st.currentView) then
      match RestoreStep(st, detail)
      case Err(e) => Err(e)
      case Ok(restored) => Ok(restored.0)
    else Ok(ViewStep(st, detail, "home", Some(JNull)))
  }

  // ---------------------------------------------------------------------
  // Properties

  /** Restoring the view just shown shows it again, as "activate", with its options (a missing one as the string "null"). */
  lemma RestoreRoundTrip(st: Storage, detail: Detail, view: string, options: Option<Json>)
    requires view in ViewRegistry && view != ""
    ensures var shown := ViewStep(st, detail, view, options);
      var back := RestoreStep(shown.storage, shown.detail);
      back.Ok? && back.value.1 &&
      back.value.0.detail.action == "activate" &&
      back.value.0.storage == shown.storage &&
      back.value.0.effects == [Dispatched(back.value.0.detail), Built(view, OptionsOrNull(options))]
  {
  }

  /** After `a` and then a different `b`, going back shows `a` again with its options. */
  lemma BackReturns(st: Storage, detail: Detail, a: string, oa: Option<Json>, b: string, ob: Option<Json>, fallbackParent: bool)
    requires a in ViewRegistry && b in ViewRegistry && a != b && a != ""
    ensures var first := ViewStep(st, detail, a, oa);
      var second := ViewStep(first.storage, first.detail, b, ob);
      var back := PreviousStep(second.storage, second.detail, fallbackParent);
      back.Ok? && back.value.1 == Some(true) &&
      back.value.0.storage.currentView == Some(a) &&
      back.value.0.storage.previousView == Some(b) &&
      back.value.0.effects[1] == Built(a, OptionsOrNull(oa))
  {
  }

  /**
   * Going back from the first view of a session throws: the update copied
   * the absent current options as the text "undefined", which `JSON.parse`
   * rejects.
   */
  lemma FirstBackThrows(view: string, options: Option<Json>, fallbackParent: bool)
    requires Navigation.IsValid(ViewRegistry, Some(view))
    ensures var shown := ViewStep(Empty, InitialDetail, view, options);
      shown.storage.previousView == Some("undefined") &&
      PreviousStep(shown.storage, shown.detail, fallbackParent) == Err(SyntaxError)
  {
  }

  /** The update as evidently intended: an absent current key leaves the previous key absent. */
  function UpdateKeepingAbsence(st: Storage, view: string, options: Option<Json>): (r: Storage)
    ensures r.currentView == Some(view) && r.currentViewOptions == Some(Serialized(OptionsOrNull(options)))
    ensures st.currentView != Some(view) ==>
      r.previousView == st.currentView && r.previousViewOptions == st.currentViewOptions
    ensures st.currentView == Some(view) ==>
      r.previousView == st.previousView && r.previousViewOptions == st.previousViewOptions
  {
    var shifted :=
      if Some(view) != st.currentView then st.(previousView := st.currentView, previousViewOptions := st.currentViewOptions)
      else st;
    shifted.(currentView := Some(view), currentViewOptions := Some(Serialized(OptionsOrNull(options))))
  }

  /** With the intended update, going back from the first view finds no previous view instead of throwing. */
  lemma FirstBackWithoutThrow(view: string, options: Option<Json>)
    ensures var st := UpdateKeepingAbsence(Empty, view, options);
      PreviousStep(st, InitialDetail, false) == Ok((Step(st, InitialDetail, []), Some(false)))
  {
  }

  /** With no previous view, the fallback shows "home". */
  lemma FallbackShowsHome(st: Storage, detail: Detail)
    requires !Navigation.TruthyName(st.previousView)
    ensures PreviousStep(st, detail, true) == Ok((ViewStep(st, detail, "home", Some(JNull)), None))
  {
    assert Navigation.Key(st.previousView) == "" || Navigation.Key(st.previousView) == "undefined";
  }

  /** A query `action` takes priority over everything else in the query and in the session. */
  lemma ActionFirst(st: Storage, detail: Detail, search: seq<Field>, name: string)
    requires Get(search, "action") == Some(JStr(name)) && name != ""
    ensures SetupStep(st, detail, search) == Action(st, detail, name)
  {
  }

  /** A view name starting with `_` in the query resets the session instead of opening the view. */
  lemma UnderscoreViewResets(st: Storage, detail: Detail, search: seq<Field>, name: string)
    requires !TruthyOpt(Get(search, "action")) && !TruthyOpt(Get(search, "project")) && !TruthyOpt(Get(search, "post"))
    requires Get(search, "view") == Some(JStr(name)) && StartsWithUnderscore(name)
    ensures SetupStep(st, detail, search) == Ok(Step(Empty, detail, [Assigned("/")]))
  {
  }

  /** Without query directives, a stored view is restored, and an empty session starts at "home". */
  lemma SetupFromSession(st: Storage, detail: Detail)
    ensures Navigation.TruthyName(st.currentView) && st.currentViewOptions != Some(UndefinedText) ==>
      SetupStep(st, detail, []) == Ok(RestoreStep(st, detail).value.0)
    ensures !Navigation.TruthyName(st.currentView) ==>
      SetupStep(st, detail, []) == Ok(ViewStep(st, detail, "home", Some(JNull)))
  {
  }

  /** An unknown view leaves the session and the event detail as they were. */
  lemma UnknownViewKeepsSession(st: Storage, detail: Detail, view: string, options: Option<Json>)
    requires view !in ViewRegistry && view !in ObjectPrototypeNames
    ensures ViewStep(st, detail, view, options) == Step(st, detail, [Assigned("/")])
  {
  }

  // ---------------------------------------------------------------------
  // The manager

  /** `Views`, `Session` and the storage and event they share. */
  class ViewManager {
    var currentView: Option<string>
    var currentViewOptions: Option<StoredOptions>
    var previousView: Option<string>
    var previousViewOptions: Option<StoredOptions>
    /** The shared `view-changed` event's detail. */
    var detail: Detail
    /** The effects so far, oldest first. */
    var effects: seq<Effect>

    function Stored(): Storage
      reads this
    {
      Storage(currentView, currentViewOptions, previousView, previousViewOptions)
    }

    constructor (st: Storage)
      ensures Stored() == st && detail == InitialDetail && effects == []
    {
      currentView := st.currentView;
      currentViewOptions := st.currentViewOptions;
      previousView := st.previousView;
      previousViewOptions := st.previousViewOptions;
      detail := InitialDetail;
      effects := [];
    }

    /** `Session.update(view, options)` */
    method Update(view: string, options: Option<Json>)
      modifies this
      ensures Stored() == Updated(old(Stored()), view, options)
      ensures detail == old(detail) && effects == old(effects)
    {
      if Some(view) != currentView {
        previousView := Some(Navigation.Key(currentView));
        previousViewOptions := Some(if currentViewOptions.Some? then currentViewOptions.value else UndefinedText);
      }
      currentView := Some(view);
      currentViewOptions := Some(Serialized(OptionsOrNull(options)));
    }

    /** `Session.reset()` */
    method Reset()
      modifies this
      ensures Stored() == ResetStorage(old(Stored()))
      ensures detail == old(detail) && effects == old(effects)
    {
      currentView := None;
      currentViewOptions := None;
      previousView := None;
      previousViewOptions := None;
    }

    /** `Views.view(view, options)` */
    method View(view: string, options: Option<Json>)
      modifies this
      ensures var r := ViewStep(old(Stored()), old(detail), view, options);
        Stored() == r.storage && detail == r.detail && effects == old(effects) + r.effects
    {
      if !Navigation.IsValid(ViewRegistry, Some(view)) {
        effects := effects + [Assigned("/")];
        return;
      }
      var action := if currentView == Some(view) then "activate" else "refresh";
      detail := Detail(action, view, ParentOf(view));
      effects := effects + [Dispatched(detail)];
      Update(view, options);
      if view in ViewRegistry {
        effects := effects + [Built(view, if Nullish(options) then JObj([]) else options.value)];
      } else {
        effects := effects + [ErrorBuilt(view)];
      }
    }

    /** `ActionRegistry.activate(action)`; `thrown` is what the call threw. */
    method Activate(action: string) returns (thrown: Option<Exception>)
      modifies this
      ensures var r := Action(old(Stored()), old(detail), action);
        (r.Ok? ==> thrown.None? && Stored() == r.value.storage && effects == old(effects) + r.value.effects) &&
        (r.Err? ==> thrown == Some(r.error) && Stored() == old(Stored()) && effects == old(effects))
      ensures detail == old(detail)
    {
      thrown := None;
      if action == "reload" {
        effects := effects + [Assigned("/")];
      } else if action == "reset" {
        Reset();
        effects := effects + [Assigned("/")];
      } else if action in {"__proto__", "__defineGetter__", "__defineSetter__"} {
        thrown := Some(TypeError);
      }
    }

    /** `Session.restore()` */
    method Restore() returns (r: Result<bool>)
      modifies this
      ensures var e := RestoreStep(old(Stored()), old(detail));
        (e.Ok? ==> r == Ok(e.value.1) && Stored() == e.value.0.storage && detail == e.value.0.detail &&
                   effects == old(effects) + e.value.0.effects) &&
        (e.Err? ==> r == Err(e.error) && Stored() == old(Stored()) && detail == old(detail) && effects == old(effects))
    {
      if !Navigation.TruthyName(currentView) {
        return Ok(false);
      }
      var options := ParseStored(currentViewOptions);
      if options.Err? {
        return Err(options.error);
      }
      View(currentView.value, Some(options.value));
      return Ok(true);
    }

    /** `Views.previousView(fallbackParent)`; `Ok(None)` is the `undefined` it returns after falling back. */
    method PreviousView(fallbackParent: bool) returns (r: Result<Option<bool>>)
      modifies this
      ensures var e := PreviousStep(old(Stored()), old(detail), fallbackParent);
        (e.Ok? ==> r == Ok(e.value.1) && Stored() == e.value.0.storage && detail == e.value.0.detail &&
                   effects == old(effects) + e.value.0.effects) &&
        (e.Err? ==> r == Err(e.error) && Stored() == old(Stored()) && detail == old(detail) && effects == old(effects))
    {
      if !Navigation.TruthyName(previousView) {
        if fallbackParent {
          View(ParentOrHome(previousView), Some(JNull));
          return Ok(None);
        }
        return Ok(Some(false));
      }
      var options := ParseStored(previousViewOptions);
      if options.Err? {
        return Err(options.error);
      }
      View(previousView.value, Some(options.value));
      return Ok(Some(true));
    }

    /** `Views.readPost(postId)` */
    method ReadPost(postId: Json)
      modifies this
      ensures var r := ViewStep(old(Stored()), old(detail), "post-reader", Some(JObj([Field("postId", postId)])));
        Stored() == r.storage && detail == r.detail && effects == old(effects) + r.effects
    {
      View("post-reader", Some(JObj([Field("postId", postId)])));
    }

    /** `Views.showProject(projectUuid)` */
    method ShowProject(projectUuid: Json)
      modifies this
      ensures var r := ViewStep(old(Stored()), old(detail), "project-viewer", Some(JObj([Field("projectUuid", projectUuid)])));
        Stored() == r.storage && detail == r.detail && effects == old(effects) + r.effects
    {
      View("project-viewer", Some(JObj([Field("projectUuid", projectUuid)])));
    }

    /** `Views.setup()` over the parsed query. */
    method Setup(search: seq<Field>) returns (thrown: Option<Exception>)
      modifies this
      ensures var e := SetupStep(old(Stored()), old(detail), search);
        (e.Ok? ==> thrown.None? && Stored() == e.value.storage && detail == e.value.detail &&
                   effects == old(effects) + e.value.effects) &&
        (e.Err? ==> thrown == Some(e.error) && Stored() == old(Stored()) && detail == old(detail) && effects == old(effects))
    {
      thrown := None;
      var action := Get(search, "action");
      var project := Get(search, "project");
      var post := Get(search, "post");
      var view := Get(search, "view");
      if TruthyOpt(action) {
        var name := ToStr(action);
        if name.Err? {
          return Some(name.error);
        }
        thrown := Activate(name.value);
      } else if TruthyOpt(project) {
        ShowProject(project.value);
      } else if TruthyOpt(post) {
        ReadPost(post.value);
      } else if TruthyOpt(view) {
        if !view.value.JStr? {
          return Some(TypeError);
        }
        if !StartsWithUnderscore(view.value.s) {
          View(view.value.s, Some(JNull));
        } else {
          thrown := Activate("reset");
        }
      } else if Navigation.TruthyName(currentView) {
        var restored := Restore();
        if restored.Err? {
          thrown := Some(restored.error);
        }
      } else {
        View("home", Some(JNull));
      }
    }
  }
}
