/**
 * The view manager of js/utils/ViewManager.mjs and its page-named twin in
 * js/core/Pages.mjs. A fixed registry maps names to entries with a parent
 * and a secret flag; showing a view shifts the current view and its options
 * into the previous slot and activates the new one; an unknown name resets
 * the session and reloads the document.
 *
 * The registries are plain objects, so a name that Object.prototype
 * provides (`toString`, `constructor`, ...) also finds a truthy value there.
 * The session is the record of the four keys the manager reads and writes;
 * a reload keeps it, the way session storage does. `window.location`
 * changes are recorded as effects and end the call: what the document does
 * after reloading is the next call to `initialize`.
 */
module Navigation {
  import opened JsValues

  /** A registry entry: the parent's name (`null` as None) and whether the view is secret. */
  datatype Entry = Entry(parent: Option<string>, secret: bool)

  /** What `store[name]` finds: an own entry, a member of Object.prototype, or nothing. */
  datatype Slot = Registered(entry: Entry) | Inherited | Absent

  /** The property key a name becomes; `undefined` becomes "undefined". */
  function Key(name: Option<string>): string {
    if name.Some? then name.value else "undefined"
  }

  function SlotOf(registry: map<string, Entry>, name: Option<string>): Slot {
    var k := Key(name);
    if k in registry then Registered(registry[k])
    else if k in ObjectPrototypeNames then Inherited
    else Absent
  }

  /** `isValid(name)`: `!!store[name]`. */
  predicate IsValid(registry: map<string, Entry>, name: Option<string>) {
    !SlotOf(registry, name).Absent?
  }

  /** `isSecret(name)`: undefined (None) for an invalid name, otherwise the entry's flag. */
  function IsSecret(registry: map<string, Entry>, name: Option<string>): (r: Option<bool>)
    ensures !IsValid(registry, name) ==> r.None?
    ensures Key(name) in registry ==> r == Some(registry[Key(name)].secret)
  {
    match SlotOf(registry, name)
    case Registered(e) => Some(e.secret)
    case _ => None
  }

  /** `getParent(name, fallback)`: the fallback for an invalid name, otherwise the entry's parent. */
  function GetParent(registry: map<string, Entry>, name: Option<string>, fallback: string): (r: Option<string>)
    ensures !IsValid(registry, name) ==> r == Some(fallback)
    ensures Key(name) in registry ==> r == registry[Key(name)].parent
  {
    match SlotOf(registry, name)
    case Registered(e) => e.parent
    case Inherited => None
    case Absent => Some(fallback)
  }

  /** What `activate` settles with: `undefined`, or the view built with these options. */
  datatype Activation = NotBuilt | Built(name: string, options: Json)

  /**
   * `activate(name, options, allowSecret)`: nothing for an invalid name; an
   * Error for a secret one unless allowed; otherwise `build(options ?? {})`,
   * which an inherited member does not have.
   */
  function Activate(registry: map<string, Entry>, kind: string, name: Option<string>, options: Option<Json>,
                    allowSecret: bool): (r: Result<Activation>)
    ensures !IsValid(registry, name) <==> r == Ok(NotBuilt)
    ensures r.Ok? && r.value.Built? ==> Key(name) in registry && (allowSecret || !registry[Key(name)].secret)
  {
    match SlotOf(registry, name)
    case Absent => Ok(NotBuilt)
    case Inherited => Err(TypeError)
    case Registered(e) =>
      if !allowSecret && e.secret then Err(Error("Invalid access to secret " + kind + ": \"" + Key(name) + "\""))
      else Ok(Built(Key(name), if Nullish(options) then JObj([]) else options.value))
  }

  /** The session: current and previous view names and their options (None is `undefined`). */
  datatype Session = Session(current: Option<string>, currentOptions: Option<Json>,
                             previous: Option<string>, previousOptions: Option<Json>)

  const Cleared := Session(None, None, None, None)

  /** What a call did besides changing the session. */
  datatype Effect =
    | Reloaded                                             // Session.reset(); window.location.reload()
    | SearchCleared                                        // window.location.search = ""
    | Presented(name: Option<string>, result: Result<Activation>)  // the build ran; an error opens the dialog

  datatype Step = Step(session: Session, effects: seq<Effect>)

  predicate TruthyName(name: Option<string>) {
    name.Some? && name.value != ""
  }

  /** `showView(view, options)` */
  function Show(registry: map<string, Entry>, kind: string, s: Session, view: Option<string>, options: Option<Json>): Step {
    if !IsValid(registry, view) then Step(Cleared, [Reloaded])
    else Step(Session(view, options, s.current, s.currentOptions), [Presented(view, Activate(registry, kind, view, options, false))])
  }

  /** `showPreviousView(fallbackParent)`: the step and whether it reports the session restored. */
  function ShowPrevious(registry: map<string, Entry>, kind: string, s: Session, fallbackParent: bool): (Step, bool) {
    if TruthyName(s.previous) then (Show(registry, kind, s, s.previous, s.previousOptions), true)
    else if fallbackParent then
      var parent := GetParent(registry, s.previous, "Home");
      (Show(registry, kind, s, s.previous, if parent.Some? then Some(JStr(parent.value)) else None), true)
    else (Step(s, []), false)
  }

  /** `reload()`: the current view again, with its options. */
  function ReloadStep(registry: map<string, Entry>, kind: string, s: Session): Step {
    Show(registry, kind, s, s.current, s.currentOptions)
  }

  /** A query directive of `initialize`: `q` selects `target`, with option `key` set to the search parameter `param`. */
  datatype Directive = Directive(q: string, target: string, key: string, param: string)

  /** The first directive whose `q` is strictly equal to the search's `q`. */
  function FindDirective(directives: seq<Directive>, q: Json): (r: Option<Directive>)
    ensures r.Some? ==> r.value in directives && q == JStr(r.value.q)
  {
    if directives == [] then None
    else if q == JStr(directives[0].q) then Some(directives[0])
    else FindDirective(directives[1..], q)
  }

  /** `{ key: search[param] }`; an undefined property is left out. */
  function DirectiveOptions(d: Directive, search: seq<Field>): Json {
    var v := Get(search, d.param);
    if v.Some? then JObj([Field(d.key, v.value)]) else JObj([])
  }

  /**
   * `initialize()`: a `q` directive selects a view and clears the query
   * (which reloads the document); otherwise a stored current view is
   * reloaded; otherwise Home is shown.
   */
  function InitializeStep(registry: map<string, Entry>, kind: string, directives: seq<Directive>, s: Session,
                      search: seq<Field>): Step {
    var q := Get(search, "q");
    if TruthyOpt(q) then
      var d := FindDirective(directives, q.value);
      var s' := if d.Some? then s.(current := Some(d.value.target), currentOptions := Some(DirectiveOptions(d.value, search))) else s;
      Step(s', [SearchCleared])
    else if TruthyName(s.current) then ReloadStep(registry, kind, s)
    else Show(registry, kind, s, Some("Home"), Some(JNull))
  }

  // ---------------------------------------------------------------------
  // The two registries

  /** The views of js/utils/ViewManager.mjs. */
  const ViewRegistry: map<string, Entry> := map[
    "Home" := Entry(None, false),
    "PostFeed" := Entry(None, false),
    "Portfolio" := Entry(None, false),
    "About" := Entry(None, false),
    "PostReader" := Entry(Some("PostFeed"), false),
    "ProjectViewer" := Entry(Some("Portfolio"), false)
  ]

  const ViewDirectives: seq<Directive> := [
    Directive("view-post", "PostReader", "postId", "id"),
    Directive("view-project", "ProjectViewer", "projectUuid", "uuid")
  ]

  /** The pages of js/core/Pages.mjs. */
  const PageRegistry: map<string, Entry> := map[
    "Home" := Entry(None, false),
    "News" := Entry(None, false),
    "Projects" := Entry(None, false),
    "About" := Entry(None, false),
    "ArticleReader" := Entry(Some("News"), false),
    "ProjectViewer" := Entry(Some("Projects"), false)
  ]

  const PageDirectives: seq<Directive> := [
    Directive("page-News", "NewsReader", "NewsId", "id"),
    Directive("page-project", "ProjectViewer", "projectUuid", "uuid")
  ]

  // ---------------------------------------------------------------------
  // Properties

  /** The valid view names are the six registered ones and the members of Object.prototype. */
  lemma ValidViews(name: string)
    ensures IsValid(ViewRegistry, Some(name)) <==>
      name in {"Home", "PostFeed", "Portfolio", "About", "PostReader", "ProjectViewer"} || name in ObjectPrototypeNames
  {
  }

  lemma ValidPages(name: string)
    ensures IsValid(PageRegistry, Some(name)) <==>
      name in {"Home", "News", "Projects", "About", "ArticleReader", "ProjectViewer"} || name in ObjectPrototypeNames
  {
  }

  /** A secret entry is built only when secrets are allowed. */
  lemma SecretGuard(registry: map<string, Entry>, kind: string, name: string, options: Option<Json>)
    requires name in registry && registry[name].secret
    ensures Activate(registry, kind, Some(name), options, false) ==
      Err(Error("Invalid access to secret " + kind + ": \"" + name + "\""))
    ensures Activate(registry, kind, Some(name), options, true) ==
      Ok(Built(name, if Nullish(options) then JObj([]) else options.value))
  {
  }

  /** An unknown name resets the session and reloads; nothing is presented. */
  lemma UnknownNameResets(registry: map<string, Entry>, kind: string, s: Session, view: Option<string>, options: Option<Json>)
    requires !IsValid(registry, view)
    ensures Show(registry, kind, s, view, options) == Step(Cleared, [Reloaded])
  {
  }

  /**
   * Going back after showing `a` and then `b` shows `a` again with its
   * options, and leaves `b` as the previous view.
   */
  lemma BackReturns(registry: map<string, Entry>, kind: string, s: Session,
                    a: string, oa: Option<Json>, b: string, ob: Option<Json>, fallbackParent: bool)
    requires IsValid(registry, Some(a)) && IsValid(registry, Some(b)) && a != ""
    ensures var s2 := Show(registry, kind, Show(registry, kind, s, Some(a), oa).session, Some(b), ob).session;
      var back := ShowPrevious(registry, kind, s2, fallbackParent);
      back.1 && back.0.session == Session(Some(a), oa, Some(b), ob) &&
      back.0.effects == [Presented(Some(a), Activate(registry, kind, Some(a), oa, false))]
  {
  }

  /**
   * Without a previous view, `showPreviousView(true)` passes the missing
   * name itself to `showView` (with the parent as its options), so it
   * resets the session instead of showing a parent.
   */
  lemma FallbackResets(s: Session)
    requires !TruthyName(s.previous)
    ensures ShowPrevious(ViewRegistry, "view", s, true) == (Step(Cleared, [Reloaded]), true)
    ensures ShowPrevious(PageRegistry, "page", s, true) == (Step(Cleared, [Reloaded]), true)
  {
    assert !IsValid(ViewRegistry, s.previous) && !IsValid(PageRegistry, s.previous) by {
      assert Key(s.previous) == "" || Key(s.previous) == "undefined";
    }
  }

  /** `showPreviousView` as its documentation describes it: the fallback shows the parent view. */
  function ShowPreviousIntended(registry: map<string, Entry>, kind: string, s: Session, fallbackParent: bool): (r: (Step, bool))
    ensures TruthyName(s.previous) ==> r == ShowPrevious(registry, kind, s, fallbackParent)
    ensures !fallbackParent ==> r == ShowPrevious(registry, kind, s, fallbackParent)
  {
    if TruthyName(s.previous) || !fallbackParent then ShowPrevious(registry, kind, s, fallbackParent)
    else (Show(registry, kind, s, GetParent(registry, s.previous, "Home"), None), true)
  }

  /** With the intended fallback and no previous view, Home is presented and becomes the current view. */
  lemma IntendedFallbackShowsHome(s: Session)
    requires !TruthyName(s.previous)
    ensures var (step, restored) := ShowPreviousIntended(ViewRegistry, "view", s, true);
      restored && step.session.current == Some("Home") &&
      step.effects == [Presented(Some("Home"), Ok(Built("Home", JObj([]))))]
  {
    assert !IsValid(ViewRegistry, s.previous) by {
      assert Key(s.previous) == "" || Key(s.previous) == "undefined";
    }
  }

  /** Without a previous view or the fallback, nothing happens and `false` is returned. */
  lemma NoPreviousNoChange(registry: map<string, Entry>, kind: string, s: Session)
    requires !TruthyName(s.previous)
    ensures ShowPrevious(registry, kind, s, false) == (Step(s, []), false)
  {
  }

  /** A `q=view-post` start selects the post reader with the post id and clears the query. */
  lemma InitializeViewPost(s: Session, search: seq<Field>, id: string)
    requires Get(search, "q") == Some(JStr("view-post")) && Get(search, "id") == Some(JStr(id))
    ensures InitializeStep(ViewRegistry, "view", ViewDirectives, s, search) ==
      Step(s.(current := Some("PostReader"), currentOptions := Some(JObj([Field("postId", JStr(id))]))), [SearchCleared])
  {
    assert FindDirective(ViewDirectives, JStr("view-post")) == Some(ViewDirectives[0]);
  }

  /** Without a query, a stored current view is reloaded, and a fresh session shows Home. */
  lemma InitializeWithoutQuery(registry: map<string, Entry>, kind: string, directives: seq<Directive>, s: Session, search: seq<Field>)
    requires !TruthyOpt(Get(search, "q"))
    ensures TruthyName(s.current) ==> InitializeStep(registry, kind, directives, s, search) == ReloadStep(registry, kind, s)
    ensures !TruthyName(s.current) ==>
      InitializeStep(registry, kind, directives, s, search) == Show(registry, kind, s, Some("Home"), Some(JNull))
  {
  }

  /**
   * `q=page-News` stores the unregistered page "NewsReader"; the start after
   * the query is cleared reloads it, which resets the session.
   */
  lemma NewsDirectiveResets(s: Session, search: seq<Field>)
    requires Get(search, "q") == Some(JStr("page-News"))
    ensures var first := InitializeStep(PageRegistry, "page", PageDirectives, s, search);
      first.session.current == Some("NewsReader") &&
      InitializeStep(PageRegistry, "page", PageDirectives, first.session, []) == Step(Cleared, [Reloaded])
  {
    assert FindDirective(PageDirectives, JStr("page-News")) == Some(PageDirectives[0]);
    assert !IsValid(PageRegistry, Some("NewsReader"));
  }

  // ---------------------------------------------------------------------
  // The manager

  /** `ViewManager` (or `Pages`) over its registry, with the session it keeps. */
  class Navigator {
    const registry: map<string, Entry>
    /** "view" or "page", as the error message names them. */
    const kind: string
    const directives: seq<Directive>
    var currentView: Option<string>
    var currentViewOptions: Option<Json>
    var previousView: Option<string>
    var previousViewOptions: Option<Json>
    /** The effects so far, oldest first. */
    var effects: seq<Effect>

    function State(): Session
      reads this
    {
      Session(currentView, currentViewOptions, previousView, previousViewOptions)
    }

    constructor (registry: map<string, Entry>, kind: string, directives: seq<Directive>, session: Session)
      ensures this.registry == registry && this.kind == kind && this.directives == directives
      ensures State() == session && effects == []
    {
      this.registry := registry;
      this.kind := kind;
      this.directives := directives;
      currentView := session.current;
      currentViewOptions := session.currentOptions;
      previousView := session.previous;
      previousViewOptions := session.previousOptions;
      effects := [];
    }

    /** `reset()`: clears the session and reloads the document. */
    method Reset()
      modifies this
      ensures State() == Cleared && effects == old(effects) + [Reloaded]
    {
      currentView := None;
      currentViewOptions := None;
      previousView := None;
      previousViewOptions := None;
      effects := effects + [Reloaded];
    }

    /** `showView(view, options)` */
    method ShowView(view: Option<string>, options: Option<Json>)
      modifies this
      ensures State() == Show(registry, kind, old(State()), view, options).session
      ensures effects == old(effects) + Show(registry, kind, old(State()), view, options).effects
    {
      if !IsValid(registry, view) {
        Reset();
        return;
      }
      previousView := currentView;
      previousViewOptions := currentViewOptions;
      currentView := view;
      currentViewOptions := options;
      var result := Activate(registry, kind, view, options, false);
      effects := effects + [Presented(view, result)];
    }

    /** `showPreviousView(fallbackParent)` */
    method ShowPreviousView(fallbackParent: bool) returns (restored: bool)
      modifies this
      ensures var (step, r) := ShowPrevious(registry, kind, old(State()), fallbackParent);
        State() == step.session && effects == old(effects) + step.effects && restored == r
    {
      if TruthyName(previousView) {
        ShowView(previousView, previousViewOptions);
        return true;
      }
      if fallbackParent {
        var parent := GetParent(registry, previousView, "Home");
        ShowView(previousView, if parent.Some? then Some(JStr(parent.value)) else None);
        return true;
      }
      return false;
    }

    /**
     * `showPost(postId)`, `showArticle(articleId)` and `showProject(projectUuid)`:
     * the reader `view` with the one option `key`.
     */
    method ShowWith(view: string, key: string, value: Json)
      modifies this
      ensures var step := Show(registry, kind, old(State()), Some(view), Some(JObj([Field(key, value)])));
        State() == step.session && effects == old(effects) + step.effects
    {
      ShowView(Some(view), Some(JObj([Field(key, value)])));
    }

    /** `reload()` */
    method Reload()
      modifies this
      ensures State() == ReloadStep(registry, kind, old(State())).session
      ensures effects == old(effects) + ReloadStep(registry, kind, old(State())).effects
    {
      ShowView(currentView, currentViewOptions);
    }

    /** `initialize(search)` */
    method Initialize(search: seq<Field>)
      modifies this
      ensures State() == InitializeStep(registry, kind, directives, old(State()), search).session
      ensures effects == old(effects) + InitializeStep(registry, kind, directives, old(State()), search).effects
    {
      var q := Get(search, "q");
      if TruthyOpt(q) {
        var d := FindDirective(directives, q.value);
        if d.Some? {
          currentView := Some(d.value.target);
          currentViewOptions := Some(DirectiveOptions(d.value, search));
        }
        effects := effects + [SearchCleared];
      } else if TruthyName(currentView) {
        Reload();
      } else {
        ShowView(Some("Home"), Some(JNull));
      }
    }
  }
}
