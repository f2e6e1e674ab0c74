/**
 * The JSON-to-HTML renderer in both of its iterations: DocJSON
 * (js/utils/DocJSON.mjs, escaping with `Text.escape`) and HyperJSON
 * (js/hyperjson.mjs, escaping with `TextUtils.sanitize`). A node list is
 * rendered node by node; a node's `type` selects a rule that names the
 * tag, the keys that become attributes and the keys that become
 * properties; `compose` assembles the tag.
 */
module Markup {
  import opened JsValues
  import opened Escaping
  import opened JsonText

  datatype Dialect = DocJson | HyperJson

  /**
   * One entry of the rule table: the tag, the node keys kept as attributes
   * and as properties, the entries each prefix object adds, and whether
   * `compose` is told the tag is closable.
   */
  datatype Rule = Rule(tag: string, attrKeys: seq<string>, attrPrefix: seq<Field>,
                       propKeys: seq<string>, propPrefix: seq<Field>, closable: bool)

  const RuleNames: set<string> := {
    "h1", "h2", "h3", "h4", "h5", "h6", "group", "paragraph", "link", "image",
    "span", "list", "listitem", "quote", "blockquote", "code", "blockcode", "table"
  }

  const BlockProps: seq<string> := ["stripBlank", "text", "lines", "children"]
  const ContentProps: seq<string> := ["text", "lines", "children"]
  const ScrollPrefix: seq<Field> := [Field("verticalScroll", JBool(true))]

  function BlockRule(tag: string): Rule {
    Rule(tag, ["style"], [], BlockProps, [], true)
  }

  /** The rule table of `parseNode`, per dialect. */
  function RuleFor(d: Dialect, name: string): (r: Option<Rule>)
    ensures r.Some? <==> name in RuleNames
    ensures r.Some? ==> (r.value.closable <==> name != "image")
    ensures r.Some? ==> r.value.propPrefix == [] || r.value.propPrefix == ScrollPrefix
  {
    if name in {"h1", "h2", "h3", "h4", "h5", "h6"} then Some(BlockRule(name))
    else if name == "group" then Some(BlockRule("div"))
    else if name == "paragraph" then Some(BlockRule("p"))
    else if name == "link" then
      Some(Rule("a", if d == DocJson then ["style", "href", "openInNew", "block"] else ["style", "href", "openInNew"],
                [], ["text", "lines", "children", "overlay"], [], true))
    else if name == "image" then Some(Rule("img", ["src", "alt"], [Field("draggable", JBool(false))], [], [], false))
    else if name == "span" then Some(Rule("span", ["style"], [], ["text"], [], true))
    else if name == "list" then Some(Rule("ul", ["style"], [], ["children"], [], true))
    else if name == "listitem" then Some(Rule("li", ["style", "classes"], [], ContentProps, [], true))
    else if name == "quote" then
      if d == DocJson then Some(Rule("q", ["cite"], [], ["stripBlank", "text", "children"], [], true))
      else Some(Rule("q", ["stripBlank", "cite"], [], ["text", "children"], [], true))
    else if name == "blockquote" then
      if d == DocJson then Some(Rule("blockquote", ["cite"], [], BlockProps, [], true))
      else Some(Rule("blockquote", ["stripBlank", "cite"], [], ["text", "children"], [], true))
    else if name == "code" then Some(Rule("code", [], [], ContentProps, [], true))
    else if name == "blockcode" then Some(Rule("code", ["language", "highlight"], [Field("block", JBool(true))], ContentProps, ScrollPrefix, true))
    else if name == "table" then Some(Rule("table", [], [], ["caption", "head", "body"], ScrollPrefix, true))
    else None
  }

  function StylePrefix(d: Dialect): string {
    if d == DocJson then "style-" else "hj-"
  }

  function ScrollClass(d: Dialect): string {
    if d == DocJson then "meta-scrolled-window" else "hj-scrolled-window"
  }

  function OverlayClass(d: Dialect): string {
    if d == DocJson then "meta-overlay" else "hj-overlay"
  }

  function IconElement(d: Dialect): string {
    if d == DocJson then "embed-svg" else "pl-svg"
  }

  /** A template literal's rendering of a value that may be undefined. */
  function OptText(o: Option<string>): string {
    if o.None? then "undefined" else o.value
  }

  // ---------------------------------------------------------------------
  // getNodeProperties

  /** The entries of `fields` whose key is listed in `what`, in order. */
  function Pick(fields: seq<Field>, what: seq<string>): (r: seq<Field>)
    ensures forall i :: 0 <= i < |r| ==> r[i] in fields && r[i].key in what
  {
    if fields == [] then []
    else (if fields[0].key in what then [fields[0]] else []) + Pick(fields[1..], what)
  }

  /** `getNodeProperties(node, prefix, ...what)` for an object node. */
  function GetNodeProperties(fields: seq<Field>, prefix: seq<Field>, what: seq<string>): seq<Field> {
    FromEntries(Pick(fields, what) + prefix)
  }

  // ---------------------------------------------------------------------
  // composeAttributes

  /** `Text.escape(v)` or `TextUtils.sanitize(v)` as a template literal prints it. */
  function AttrValue(d: Dialect, v: Json): Result<string> {
    if d == DocJson then Ok(OptText(EscapeText(Some(v)))) else JsonToString(Sanitize(Some(v)))
  }

  /** The `style` class list: `v.map(t => prefix + t).join(" ")`. */
  function StyleClasses(d: Dialect, v: Json): Result<string> {
    if !v.JArr? then Err(TypeError)
    else
      match StyleTokens(d, v.items)
      case Err(e) => Err(e)
      case Ok(tokens) => Ok(Join(tokens, " "))
  }

  function StyleTokens(d: Dialect, ts: seq<Json>): (r: Result<seq<string>>)
    ensures r.Ok? ==> |r.value| == |ts|
  {
    if ts == [] then Ok([])
    else
      match StyleTokens(d, ts[..|ts| - 1])
      case Err(e) => Err(e)
      case Ok(init) =>
        match JsonToString(ts[|ts| - 1])
        case Err(e) => Err(e)
        case Ok(t) => Ok(init + [StylePrefix(d) + t])
  }

  /** What one attribute entry pushes onto the list; the `draggable` case falls through to `openInNew`. */
  function AttrPieces(d: Dialect, k: string, v: Json): Result<seq<string>> {
    if v.JNull? then Ok([])
    else if k == "id" || k == "alt" || k == "src" || k == "cite" || k == "href" then
      (match AttrValue(d, v)
       case Err(e) => Err(e)
       case Ok(s) => Ok([k + "=\"" + s + "\""]))
    else if k == "style" then
      (match StyleClasses(d, v)
       case Err(e) => Err(e)
       case Ok(c) => Ok(["class=\"" + c + "\""]))
    else if k == "language" then
      (match AttrValue(d, v)
       case Err(e) => Err(e)
       case Ok(s) => Ok(["data-language=\"" + s + "\""]))
    else if k == "draggable" then
      Ok(["draggable=\"" + (if v == JBool(true) then "true" else "false") + "\"", "target='_blank'"])
    else if k == "openInNew" then Ok(["target='_blank'"])
    else if k == "highlight" then Ok(["data-hightlight"])
    else if k == "block" then Ok(["data-block"])
    else Ok([])
  }

  function AttrParts(d: Dialect, attrs: seq<Field>): Result<seq<string>> {
    if attrs == [] then Ok([])
    else
      match AttrParts(d, attrs[..|attrs| - 1])
      case Err(e) => Err(e)
      case Ok(init) =>
        match AttrPieces(d, attrs[|attrs| - 1].key, attrs[|attrs| - 1].value)
        case Err(e) => Err(e)
        case Ok(p) => Ok(init + p)
  }

  /** `composeAttributes(attrs)` */
  function AttributesText(d: Dialect, attrs: seq<Field>): Result<string> {
    match AttrParts(d, attrs)
    case Err(e) => Err(e)
    case Ok(parts) => Ok(Join(parts, " "))
  }

  // ---------------------------------------------------------------------
  // processText, composeOverlay, makeTable

  /** `join` over the results of `Text.escape`, undefined printing as "". */
  function JoinOpt(parts: seq<Option<string>>, sep: string): string {
    if parts == [] then ""
    else
      var last := if parts[|parts| - 1].Some? then parts[|parts| - 1].value else "";
      if |parts| == 1 then last else JoinOpt(parts[..|parts| - 1], sep) + sep + last
  }

  /** `processText(text)`: a string is escaped, an array escaped line by line and joined with "\n", anything else is undefined. */
  function ProcessText(d: Dialect, text: Option<Json>): (r: Result<Option<string>>)
    ensures text.Some? && text.value.JStr? ==> r.Ok?
  {
    if text.Some? && text.value.JStr? then
      Ok(if d == DocJson then EscapeText(text) else Some(EscapeChars(text.value.s)))
    else if text.Some? && text.value.JArr? then
      if d == DocJson then Ok(Some(JoinOpt(EscapeLines(text.value).value, "\n")))
      else
        var lines := SanitizeLines(text.value).value;
        ItemsSmaller(lines);
        (match JoinItems(lines, "\n", JArr(lines))
         case Err(e) => Err(e)
         case Ok(s) => Ok(Some(s)))
    else Ok(None)
  }

  /** `icons[key]` as a template literal prints it; inherited members print as native functions. */
  function IconSource(key: string): (r: Option<string>)
    ensures key == "link" ==> r == Some("img/icons/link.svg")
    ensures key == "external-link" ==> r == Some("img/icons/open-in-new.svg")
    ensures r.Some? <==> key == "link" || key == "external-link" || key in ObjectPrototypeNames
  {
    if key == "link" then Some("img/icons/link.svg")
    else if key == "external-link" then Some("img/icons/open-in-new.svg")
    else if key == "__proto__" then Some("[object Object]")
    else if key == "constructor" then Some("function Object() { [native code] }")
    else if key in ObjectPrototypeNames then Some("function " + key + "() { [native code] }")
    else None
  }

  /** The label of an overlay inside a `<span>`, not escaped; nothing when it is falsy. */
  function OverlayLabel(overlay: Json): Result<string>
    requires Truthy(overlay)
  {
    var labelValue := Prop(overlay, "label").value;
    if TruthyOpt(labelValue) then
      match ToStr(labelValue)
      case Err(e) => Err(e)
      case Ok(s) => Ok("<span>" + s + "</span>")
    else Ok("")
  }

  /** The icon element of an overlay; nothing when the icon is falsy or has no source. */
  function OverlayIcon(d: Dialect, overlay: Json): Result<string>
    requires Truthy(overlay)
  {
    var icon := Prop(overlay, "icon").value;
    if TruthyOpt(icon) then
      match ToStr(icon)
      case Err(e) => Err(e)
      case Ok(key) =>
        var src := IconSource(key);
        if src.Some? then Ok("<" + IconElement(d) + " src='" + src.value + "'></" + IconElement(d) + ">") else Ok("")
    else Ok("")
  }

  /** `composeOverlay(overlay)` for a truthy overlay: the label, then the icon. */
  function ComposeOverlay(d: Dialect, overlay: Json): Result<string>
    requires Truthy(overlay)
  {
    match OverlayLabel(overlay)
    case Err(e) => Err(e)
    case Ok(l) =>
      match OverlayIcon(d, overlay)
      case Err(e) => Err(e)
      case Ok(i) => Ok("<div class='" + OverlayClass(d) + "'><div>" + l + i + "</div></div>")
  }

  /** How a table cell prints: DocJSON escapes `cell.toString()`, HyperJSON sanitizes the cell itself. */
  function CellText(d: Dialect, cell: Json): Result<string> {
    if d == DocJson then
      if cell.JNull? then Err(TypeError)
      else
        (match JsonToString(cell)
         case Err(e) => Err(e)
         case Ok(s) => Ok(OptText(EscapeString(s))))
    else JsonToString(Sanitize(Some(cell)))
  }

  function CellsText(d: Dialect, cellTag: string, cells: seq<Json>): Result<string> {
    if cells == [] then Ok("")
    else
      match CellsText(d, cellTag, cells[..|cells| - 1])
      case Err(e) => Err(e)
      case Ok(init) =>
        match CellText(d, cells[|cells| - 1])
        case Err(e) => Err(e)
        case Ok(c) => Ok(init + TagCell(cellTag, c))
  }

  /** A cell between its opening and closing tags. */
  function TagCell(tag: string, content: string): string {
    "<" + tag + ">" + content + "</" + tag + ">"
  }

  function RowText(d: Dialect, cellTag: string, row: Json): Result<string> {
    match Iterate(row)
    case Err(e) => Err(e)
    case Ok(cells) =>
      match CellsText(d, cellTag, cells)
      case Err(e) => Err(e)
      case Ok(c) => Ok("<tr>" + c + "</tr>")
  }

  function RowsText(d: Dialect, cellTag: string, rows: seq<Json>): Result<string> {
    if rows == [] then Ok("")
    else
      match RowsText(d, cellTag, rows[..|rows| - 1])
      case Err(e) => Err(e)
      case Ok(init) =>
        match RowText(d, cellTag, rows[|rows| - 1])
        case Err(e) => Err(e)
        case Ok(r) => Ok(init + r)
  }

  /** A `<thead>` or `<tbody>` section. */
  function SectionText(d: Dialect, group: string, cellTag: string, rows: Json): Result<string> {
    match Iterate(rows)
    case Err(e) => Err(e)
    case Ok(rs) =>
      match RowsText(d, cellTag, rs)
      case Err(e) => Err(e)
      case Ok(r) => Ok("<" + group + ">" + r + "</" + group + ">")
  }

  /** `a` followed by `b`; the first error wins. */
  function Then(a: Result<string>, b: Result<string>): (r: Result<string>)
    ensures a.Ok? && b.Ok? ==> r == Ok(a.value + b.value)
    ensures a.Err? ==> r == a
    ensures a.Ok? && b.Err? ==> r == b
  {
    if a.Err? then a else if b.Err? then b else Ok(a.value + b.value)
  }

  /** The caption part of `makeTable`: not escaped. */
  function CaptionText(caption: Option<Json>): Result<string> {
    if TruthyOpt(caption) then
      (match ToStr(caption)
       case Err(e) => Err(e)
       case Ok(s) => Ok("<caption>" + s + "</caption>"))
    else Ok("")
  }

  function OptSection(d: Dialect, group: string, cellTag: string, rows: Option<Json>): Result<string> {
    if TruthyOpt(rows) then SectionText(d, group, cellTag, rows.value) else Ok("")
  }

  /** `makeTable(caption, head, body)` */
  function TableText(d: Dialect, caption: Option<Json>, head: Option<Json>, body: Option<Json>): Result<string> {
    Then(Then(CaptionText(caption), OptSection(d, "thead", "th", head)), OptSection(d, "tbody", "td", body))
  }

  // ---------------------------------------------------------------------
  // parseNodes, parseNode, compose, composeContent

  /** What an inherited Object.prototype member of the rule table does when called as a rule. */
  function InheritedRule(key: string, n: Json): Result<string> {
    if key == "toString" || key == "toLocaleString" || key == "valueOf" then Ok("[object Object]")
    else if key == "constructor" then JsonToString(n)
    else if key == "hasOwnProperty" || key == "propertyIsEnumerable" then
      (match JsonToString(n)
       case Err(e) => Err(e)
       case Ok(_) => Ok("false"))
    else if key == "isPrototypeOf" then Ok("false")
    else if key == "__lookupGetter__" || key == "__lookupSetter__" then
      (match JsonToString(n)
       case Err(e) => Err(e)
       case Ok(_) => Ok(""))
    else Err(TypeError)
  }

  /** The paragraph an unknown node becomes: its JSON text, escaped. */
  function Fallback(d: Dialect, n: Json): string {
    if d == DocJson then "<p>" + OptText(EscapeString(Stringify(n))) + "</p>"
    else "<p>" + Sanitize(Some(JStr(Stringify(n)))).s + "</p>"
  }

  /** `parseNodes(nodes)`: "" for a falsy list, otherwise the nodes' renderings in order. */
  function RenderNodes(d: Dialect, nodes: Option<Json>): (r: Result<string>)
    decreases SizeOpt(nodes), 6
    ensures !TruthyOpt(nodes) ==> r == Ok("")
  {
    if !TruthyOpt(nodes) then Ok("")
    else
      match Iterate(nodes.value)
      case Err(e) => Err(e)
      case Ok(items) =>
        IterateNotLarger(nodes.value);
        RenderList(d, items, nodes.value)
  }

  function RenderList(d: Dialect, items: seq<Json>, ghost parent: Json): Result<string>
    requires forall i :: 0 <= i < |items| ==> Size(items[i]) <= Size(parent)
    decreases Size(parent), 5, |items|
  {
    if items == [] then Ok("")
    else
      match RenderList(d, items[..|items| - 1], parent)
      case Err(e) => Err(e)
      case Ok(init) =>
        match RenderNode(d, items[|items| - 1])
        case Err(e) => Err(e)
        case Ok(s) => Ok(init + s)
  }

  /** `parseNode(n)`, as the string `join` makes of its result. */
  function RenderNode(d: Dialect, n: Json): Result<string>
    decreases Size(n), 4
  {
    match Prop(n, "type")
    case Err(e) => Err(e)
    case Ok(t) =>
      match ToStr(t)
      case Err(e) => Err(e)
      case Ok(key) =>
        var found := RuleFor(d, key);
        if found.Some? then
          RuleTypeIsString(d, n, key);
          var rule := found.value;
          var props := GetNodeProperties(n.fields, rule.propPrefix, rule.propKeys);
          NodePropertiesBelow(n, rule.propPrefix, rule.propKeys);
          Compose(d, rule.tag, GetNodeProperties(n.fields, rule.attrPrefix, rule.attrKeys), props, rule.closable, n)
        else if key in ObjectPrototypeNames then InheritedRule(key, n)
        else Ok(Fallback(d, n))
  }

  /** A node whose `type` names a rule is an object with a `type` entry. */
  lemma RuleTypeIsString(d: Dialect, n: Json, key: string)
    requires Prop(n, "type").Ok? && ToStr(Prop(n, "type").value) == Ok(key) && RuleFor(d, key).Some?
    ensures n.JObj?
  {
    assert "undefined" !in RuleNames;
  }

  /** The tail of `compose`: the scroll wrapper, then "\n" unless `stripBlank` is truthy. */
  function Finish(d: Dialect, props: seq<Field>, result: string): string {
    var wrapped :=
      if TruthyOpt(Get(props, "verticalScroll")) then "<div class=\"" + ScrollClass(d) + "\">" + result + "</div>"
      else result;
    wrapped + (if TruthyOpt(Get(props, "stripBlank")) then "" else "\n")
  }

  predicate HasAnyContent(props: seq<Field>) {
    TruthyOpt(Get(props, "caption")) || TruthyOpt(Get(props, "head")) || TruthyOpt(Get(props, "body")) ||
    TruthyOpt(Get(props, "text")) || TruthyOpt(Get(props, "lines")) || TruthyOpt(Get(props, "children"))
  }

  /** `compose(tag, attrs, props, closable)`: the tag, then the scroll wrapper and the newline. */
  function Compose(d: Dialect, tag: string, attrs: seq<Field>, props: seq<Field>, closable: bool, ghost n: Json): Result<string>
    requires AllBelow(props, Size(n))
    decreases Size(n), 3
  {
    match ComposeTag(d, tag, attrs, props, closable, n)
    case Err(e) => Err(e)
    case Ok(t) => Ok(Finish(d, props, t))
  }

  /** The element `compose` builds before wrapping: open and close tags around content and overlay, or a self-closing tag. */
  function ComposeTag(d: Dialect, tag: string, attrs: seq<Field>, props: seq<Field>, closable: bool, ghost n: Json): Result<string>
    requires AllBelow(props, Size(n))
    decreases Size(n), 2
  {
    match AttributesText(d, attrs)
    case Err(e) => Err(e)
    case Ok(a) =>
      if closable || HasAnyContent(props) then
        (match ComposeContent(d, props, n)
         case Err(e) => Err(e)
         case Ok(c) =>
           var overlay := Get(props, "overlay");
           var o := if TruthyOpt(overlay) then ComposeOverlay(d, overlay.value) else Ok("");
           match o
           case Err(e) => Err(e)
           case Ok(os) => Ok("<" + tag + " " + a + ">" + OptText(c) + os + "</" + tag + ">"))
      else Ok("<" + tag + " " + a + "/>")
  }

  /** `composeContent(props)`: text or lines, else children, else a table, else undefined. */
  function ComposeContent(d: Dialect, props: seq<Field>, ghost n: Json): Result<Option<string>>
    requires AllBelow(props, Size(n))
    decreases Size(n), 1
  {
    var text, lines := Get(props, "text"), Get(props, "lines");
    var children := Get(props, "children");
    if TruthyOpt(text) || TruthyOpt(lines) then ProcessText(d, Coalesce(text, lines))
    else if TruthyOpt(children) then
      GetBelow(props, "children", Size(n));
      (match RenderNodes(d, children)
       case Err(e) => Err(e)
       case Ok(s) => Ok(Some(s)))
    else if TruthyOpt(Get(props, "caption")) || TruthyOpt(Get(props, "head")) || TruthyOpt(Get(props, "body")) then
      (match TableText(d, Get(props, "caption"), Get(props, "head"), Get(props, "body"))
       case Err(e) => Err(e)
       case Ok(s) => Ok(Some(s)))
    else Ok(None)
  }

  // ---------------------------------------------------------------------
  // The loops of parseNodes, composeAttributes and makeTable

  /** `parseNodes(nodes)`: pushes each node's rendering onto `strNodes`, then joins them with "". */
  method ParseNodes(d: Dialect, nodes: Option<Json>) returns (r: Result<string>)
    ensures r == RenderNodes(d, nodes)
  {
    if !TruthyOpt(nodes) {
      return Ok("");
    }
    var it := Iterate(nodes.value);
    if it.Err? {
      return Err(it.error);
    }
    var items := it.value;
    IterateNotLarger(nodes.value);
    var strNodes: seq<string> := [];
    var i := 0;
    while i < |items|
      invariant 0 <= i <= |items|
      invariant RenderList(d, items[..i], nodes.value) == Ok(Join(strNodes, ""))
    {
      var part := RenderNode(d, items[i]);
      if part.Err? {
        RenderListErr(d, items, i, nodes.value);
        return Err(part.error);
      }
      RenderListOk(d, items, i, nodes.value, strNodes);
      strNodes := strNodes + [part.value];
      i := i + 1;
    }
    assert items[..i] == items;
    r := Ok(Join(strNodes, ""));
  }

  /** `composeAttributes(attrs)`: a `switch` per entry, pushing onto `tmp`, then a join with " ". */
  method ComposeAttributes(d: Dialect, attrs: seq<Field>) returns (r: Result<string>)
    ensures r == AttributesText(d, attrs)
  {
    var tmp: seq<string> := [];
    var i := 0;
    while i < |attrs|
      invariant 0 <= i <= |attrs|
      invariant AttrParts(d, attrs[..i]) == Ok(tmp)
    {
      var pushed := PushAttribute(d, attrs[i].key, attrs[i].value, tmp);
      if pushed.Err? {
        AttrErr(d, attrs, i);
        return Err(pushed.error);
      }
      AttrOk(d, attrs, i, tmp);
      tmp := pushed.value;
      i := i + 1;
    }
    assert attrs[..i] == attrs;
    r := Ok(Join(tmp, " "));
  }

  /** One round of the `switch` of `composeAttributes`: what entry `k: v` pushes onto `tmp`, or the error it throws. */
  method PushAttribute(d: Dialect, k: string, v: Json, tmp: seq<string>) returns (r: Result<seq<string>>)
    ensures AttrPieces(d, k, v).Err? ==> r == Err(AttrPieces(d, k, v).error)
    ensures AttrPieces(d, k, v).Ok? ==> r == Ok(tmp + AttrPieces(d, k, v).value)
  {
    if v.JNull? {
      return Ok(tmp + []);
    }
    var out := tmp;
    if k == "id" || k == "alt" || k == "src" || k == "cite" || k == "href" {
      var s := AttrValue(d, v);
      if s.Err? {
        return Err(s.error);
      }
      out := out + [k + "=\"" + s.value + "\""];
    } else if k == "style" {
      var classes := StyleClasses(d, v);
      if classes.Err? {
        return Err(classes.error);
      }
      out := out + ["class=\"" + classes.value + "\""];
    } else if k == "language" {
      var s := AttrValue(d, v);
      if s.Err? {
        return Err(s.error);
      }
      out := out + ["data-language=\"" + s.value + "\""];
    } else if k == "draggable" || k == "openInNew" {
      ghost var flagText := "draggable=\"" + (if v == JBool(true) then "true" else "false") + "\"";
      if k == "draggable" {
        var flag := v.JBool? && v.b;
        assert flag <==> v == JBool(true);
        out := out + ["draggable=\"" + (if flag then "true" else "false") + "\""];
        assert out == tmp + [flagText];
      }
      out := out + ["target='_blank'"];
      assert k == "draggable" ==> out == tmp + [flagText, "target='_blank'"];
    } else if k == "highlight" {
      out := out + ["data-hightlight"];
    } else if k == "block" {
      out := out + ["data-block"];
    } else {
      out := out + [];
    }
    return Ok(out);
  }

  /** The cell loop of `makeTable` for one row: `<tr>`, a cell per element, `</tr>`. */
  method MakeRow(d: Dialect, cellTag: string, row: Json) returns (r: Result<string>)
    ensures r == RowText(d, cellTag, row)
  {
    var it := Iterate(row);
    if it.Err? {
      return Err(it.error);
    }
    var cells := it.value;
    var cellsText := "";
    var j := 0;
    while j < |cells|
      invariant 0 <= j <= |cells|
      invariant CellsText(d, cellTag, cells[..j]) == Ok(cellsText)
    {
      var c := CellText(d, cells[j]);
      if c.Err? {
        CellsErr(d, cellTag, cells, j);
        return Err(c.error);
      }
      var cell := TagCell(cellTag, c.value);
      CellsOk(d, cellTag, cells, j, cellsText);
      cellsText := cellsText + cell;
      j := j + 1;
    }
    assert cells[..j] == cells;
    r := Ok("<tr>" + cellsText + "</tr>");
  }

  /** One `<thead>`/`<tbody>` section of `makeTable`: the row loop. */
  method MakeSection(d: Dialect, group: string, cellTag: string, rows: Json) returns (r: Result<string>)
    ensures r == SectionText(d, group, cellTag, rows)
  {
    var it := Iterate(rows);
    if it.Err? {
      return Err(it.error);
    }
    var rs := it.value;
    var rowsText := "";
    var i := 0;
    while i < |rs|
      invariant 0 <= i <= |rs|
      invariant RowsText(d, cellTag, rs[..i]) == Ok(rowsText)
    {
      var row := MakeRow(d, cellTag, rs[i]);
      if row.Err? {
        RowsErr(d, cellTag, rs, i);
        return Err(row.error);
      }
      RowsOk(d, cellTag, rs, i, rowsText);
      rowsText := rowsText + row.value;
      i := i + 1;
    }
    assert rs[..i] == rs;
    r := Ok("<" + group + ">" + rowsText + "</" + group + ">");
  }

  /** `makeTable(caption, head, body)`, accumulating into `table`. */
  method MakeTable(d: Dialect, caption: Option<Json>, head: Option<Json>, body: Option<Json>) returns (r: Result<string>)
    ensures r == TableText(d, caption, head, body)
  {
    var table := "";
    if TruthyOpt(caption) {
      var c := ToStr(caption);
      if c.Err? {
        return Err(c.error);
      }
      table := table + "<caption>" + c.value + "</caption>";
      assert table == "<caption>" + c.value + "</caption>";
    }
    ghost var captionPart := table;
    assert CaptionText(caption) == Ok(captionPart);
    if TruthyOpt(head) {
      var h := MakeSection(d, "thead", "th", head.value);
      if h.Err? {
        return Err(h.error);
      }
      table := table + h.value;
    } else {
      assert table == table + "";
    }
    ghost var headPart := table;
    assert Then(CaptionText(caption), OptSection(d, "thead", "th", head)) == Ok(headPart);
    if TruthyOpt(body) {
      var b := MakeSection(d, "tbody", "td", body.value);
      if b.Err? {
        return Err(b.error);
      }
      table := table + b.value;
    } else {
      assert table == table + "";
    }
    r := Ok(table);
  }

  // ---------------------------------------------------------------------
  // Folding lemmas: an error in a prefix is the error of the whole list

  lemma RenderListOk(d: Dialect, items: seq<Json>, i: nat, parent: Json, strNodes: seq<string>)
    requires i < |items|
    requires forall j :: 0 <= j < |items| ==> Size(items[j]) <= Size(parent)
    requires RenderList(d, items[..i], parent) == Ok(Join(strNodes, "")) && RenderNode(d, items[i]).Ok?
    ensures RenderList(d, items[..i + 1], parent) == Ok(Join(strNodes + [RenderNode(d, items[i]).value], ""))
  {
    RenderListStep(d, items, i, parent);
    JoinNoSeparator(strNodes, RenderNode(d, items[i]).value);
  }

  lemma JoinNoSeparator(parts: seq<string>, x: string)
    ensures Join(parts + [x], "") == Join(parts, "") + x
  {
    JoinSnoc(parts, x, "");
  }

  lemma RenderListErr(d: Dialect, items: seq<Json>, i: nat, parent: Json)
    requires i < |items|
    requires forall j :: 0 <= j < |items| ==> Size(items[j]) <= Size(parent)
    requires RenderList(d, items[..i], parent).Ok? && RenderNode(d, items[i]).Err?
    ensures RenderList(d, items, parent) == Err(RenderNode(d, items[i]).error)
  {
    RenderListStep(d, items, i, parent);
    RenderListPrefixErr(d, items, i + 1, parent);
  }

  lemma RenderListStep(d: Dialect, items: seq<Json>, i: nat, parent: Json)
    requires i < |items|
    requires forall j :: 0 <= j < |items| ==> Size(items[j]) <= Size(parent)
    ensures var init, last := RenderList(d, items[..i], parent), RenderNode(d, items[i]);
      RenderList(d, items[..i + 1], parent) ==
        if init.Err? then init else if last.Err? then Err(last.error) else Ok(init.value + last.value)
  {
    assert items[..i + 1][..i] == items[..i];
  }

  lemma AttrOk(d: Dialect, attrs: seq<Field>, i: nat, acc: seq<string>)
    requires i < |attrs| && AttrParts(d, attrs[..i]) == Ok(acc)
    requires AttrPieces(d, attrs[i].key, attrs[i].value).Ok?
    ensures AttrParts(d, attrs[..i + 1]) == Ok(acc + AttrPieces(d, attrs[i].key, attrs[i].value).value)
  {
    AttrPartsStep(d, attrs, i);
  }

  lemma AttrErr(d: Dialect, attrs: seq<Field>, i: nat)
    requires i < |attrs| && AttrParts(d, attrs[..i]).Ok?
    requires AttrPieces(d, attrs[i].key, attrs[i].value).Err?
    ensures AttrParts(d, attrs) == Err(AttrPieces(d, attrs[i].key, attrs[i].value).error)
  {
    AttrPartsStep(d, attrs, i);
    AttrPartsPrefixErr(d, attrs, i + 1);
  }

  lemma AttrPartsStep(d: Dialect, attrs: seq<Field>, i: nat)
    requires i < |attrs|
    ensures var init, last := AttrParts(d, attrs[..i]), AttrPieces(d, attrs[i].key, attrs[i].value);
      AttrParts(d, attrs[..i + 1]) ==
        if init.Err? then init else if last.Err? then Err(last.error) else Ok(init.value + last.value)
  {
    assert attrs[..i + 1][..i] == attrs[..i];
  }

  lemma RowsOk(d: Dialect, cellTag: string, rows: seq<Json>, i: nat, acc: string)
    requires i < |rows| && RowsText(d, cellTag, rows[..i]) == Ok(acc) && RowText(d, cellTag, rows[i]).Ok?
    ensures RowsText(d, cellTag, rows[..i + 1]) == Ok(acc + RowText(d, cellTag, rows[i]).value)
  {
    RowsTextStep(d, cellTag, rows, i);
  }

  lemma RowsErr(d: Dialect, cellTag: string, rows: seq<Json>, i: nat)
    requires i < |rows| && RowsText(d, cellTag, rows[..i]).Ok? && RowText(d, cellTag, rows[i]).Err?
    ensures RowsText(d, cellTag, rows) == Err(RowText(d, cellTag, rows[i]).error)
  {
    RowsTextStep(d, cellTag, rows, i);
    RowsTextPrefixErr(d, cellTag, rows, i + 1);
  }

  lemma CellsOk(d: Dialect, cellTag: string, cells: seq<Json>, i: nat, acc: string)
    requires i < |cells| && CellsText(d, cellTag, cells[..i]) == Ok(acc) && CellText(d, cells[i]).Ok?
    ensures CellsText(d, cellTag, cells[..i + 1]) ==
      Ok(acc + TagCell(cellTag, CellText(d, cells[i]).value))
  {
    CellsTextStep(d, cellTag, cells, i);
  }

  lemma CellsErr(d: Dialect, cellTag: string, cells: seq<Json>, i: nat)
    requires i < |cells| && CellsText(d, cellTag, cells[..i]).Ok? && CellText(d, cells[i]).Err?
    ensures CellsText(d, cellTag, cells) == Err(CellText(d, cells[i]).error)
  {
    CellsTextStep(d, cellTag, cells, i);
    CellsTextPrefixErr(d, cellTag, cells, i + 1);
  }

  lemma RowsTextStep(d: Dialect, cellTag: string, rows: seq<Json>, i: nat)
    requires i < |rows|
    ensures var init, last := RowsText(d, cellTag, rows[..i]), RowText(d, cellTag, rows[i]);
      RowsText(d, cellTag, rows[..i + 1]) ==
        if init.Err? then init else if last.Err? then Err(last.error) else Ok(init.value + last.value)
  {
    assert rows[..i + 1][..i] == rows[..i];
  }

  lemma CellsTextStep(d: Dialect, cellTag: string, cells: seq<Json>, i: nat)
    requires i < |cells|
    ensures var init, last := CellsText(d, cellTag, cells[..i]), CellText(d, cells[i]);
      CellsText(d, cellTag, cells[..i + 1]) ==
        if init.Err? then init
        else if last.Err? then Err(last.error)
        else Ok(init.value + TagCell(cellTag, last.value))
  {
    assert cells[..i + 1][..i] == cells[..i];
  }

  lemma JoinSnoc(parts: seq<string>, x: string, sep: string)
    ensures Join(parts + [x], sep) == if parts == [] then x else Join(parts, sep) + sep + x
  {
    assert (parts + [x])[..|parts|] == parts;
    if parts == [] {
      assert parts + [x] == [x];
    }
  }

  lemma {:induction false} RenderListPrefixErr(d: Dialect, items: seq<Json>, i: nat, parent: Json)
    requires i <= |items|
    requires forall j :: 0 <= j < |items| ==> Size(items[j]) <= Size(parent)
    requires RenderList(d, items[..i], parent).Err?
    ensures RenderList(d, items, parent) == RenderList(d, items[..i], parent)
    decreases |items|
  {
    if i < |items| {
      assert items[..|items| - 1][..i] == items[..i];
      RenderListPrefixErr(d, items[..|items| - 1], i, parent);
    } else {
      assert items[..i] == items;
    }
  }

  lemma {:induction false} AttrPartsPrefixErr(d: Dialect, attrs: seq<Field>, i: nat)
    requires i <= |attrs|
    requires AttrParts(d, attrs[..i]).Err?
    ensures AttrParts(d, attrs) == AttrParts(d, attrs[..i])
    decreases |attrs|
  {
    if i < |attrs| {
      assert attrs[..|attrs| - 1][..i] == attrs[..i];
      AttrPartsPrefixErr(d, attrs[..|attrs| - 1], i);
    } else {
      assert attrs[..i] == attrs;
    }
  }

  lemma {:induction false} CellsTextPrefixErr(d: Dialect, cellTag: string, cells: seq<Json>, i: nat)
    requires i <= |cells|
    requires CellsText(d, cellTag, cells[..i]).Err?
    ensures CellsText(d, cellTag, cells) == CellsText(d, cellTag, cells[..i])
    decreases |cells|
  {
    if i < |cells| {
      assert cells[..|cells| - 1][..i] == cells[..i];
      CellsTextPrefixErr(d, cellTag, cells[..|cells| - 1], i);
    } else {
      assert cells[..i] == cells;
    }
  }

  lemma {:induction false} RowsTextPrefixErr(d: Dialect, cellTag: string, rows: seq<Json>, i: nat)
    requires i <= |rows|
    requires RowsText(d, cellTag, rows[..i]).Err?
    ensures RowsText(d, cellTag, rows) == RowsText(d, cellTag, rows[..i])
    decreases |rows|
  {
    if i < |rows| {
      assert rows[..|rows| - 1][..i] == rows[..i];
      RowsTextPrefixErr(d, cellTag, rows[..|rows| - 1], i);
    } else {
      assert rows[..i] == rows;
    }
  }

  // ---------------------------------------------------------------------
  // Termination helpers

  lemma IterateNotLarger(v: Json)
    requires Iterate(v).Ok?
    ensures forall i :: 0 <= i < |Iterate(v).value| ==> Size(Iterate(v).value[i]) <= Size(v)
  {
    if v.JArr? { ItemsSmaller(v.items); }
  }

  lemma NodePropertiesBelow(n: Json, prefix: seq<Field>, what: seq<string>)
    requires n.JObj?
    requires prefix == [] || prefix == ScrollPrefix
    ensures AllBelow(GetNodeProperties(n.fields, prefix, what), Size(n))
  {
    var entries := Pick(n.fields, what) + prefix;
    FieldsSmaller(n.fields);
    forall i | 0 <= i < |entries| ensures Size(entries[i].value) < Size(n) {
      if i < |Pick(n.fields, what)| {
        assert entries[i] in n.fields;
      } else {
        assert entries[i] == prefix[i - |Pick(n.fields, what)|];
      }
    }
    FromEntriesBelow(entries, Size(n));
  }
}
