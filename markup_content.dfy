/**
 * Properties of the content a renderer node carries: escaped lines,
 * escaped table cells, the caption and overlay label that are inserted
 * as they are, and the HyperJSON quote rules that lose `stripBlank`.
 */
module MarkupContent {
  import opened JsValues
  import opened Escaping
  import opened Markup
  import opened MarkupProperties

  /** Each string escaped. */
  function EscapeEach(texts: seq<string>): (r: seq<string>)
    ensures |r| == |texts| && forall i :: 0 <= i < |texts| ==> r[i] == EscapeChars(texts[i])
  {
    seq(|texts|, i requires 0 <= i < |texts| => EscapeChars(texts[i]))
  }

  /** Joining parts none of which is undefined is joining their strings. */
  lemma {:induction false} JoinOptPresent(parts: seq<Option<string>>, texts: seq<string>, sep: string)
    requires |parts| == |texts| && forall i :: 0 <= i < |parts| ==> parts[i] == Some(texts[i])
    ensures JoinOpt(parts, sep) == Join(texts, sep)
    decreases |parts|
  {
    if |parts| > 1 {
      JoinOptPresent(parts[..|parts| - 1], texts[..|texts| - 1], sep);
    }
  }

  /** DocJSON `lines` of non-empty strings: each line escaped, joined with "\n". */
  lemma DocLinesEscaped(items: seq<Json>, texts: seq<string>)
    requires |items| == |texts|
    requires forall i :: 0 <= i < |items| ==> items[i] == JStr(texts[i]) && texts[i] != ""
    ensures ProcessText(DocJson, Some(JArr(items))) == Ok(Some(Join(EscapeEach(texts), "\n")))
  {
    var parts := EscapeLines(JArr(items)).value;
    JoinOptPresent(parts, EscapeEach(texts), "\n");
  }

  /** The `<tag>` cells of a row, one per string, in order. */
  function TagEach(tag: string, texts: seq<string>): (r: string)
    ensures texts == [] ==> r == ""
  {
    if texts == [] then ""
    else TagEach(tag, texts[..|texts| - 1]) + TagCell(tag, texts[|texts| - 1])
  }

  /** DocJSON cells holding non-empty strings are each escaped, in order. */
  lemma {:induction false} DocCellsEscaped(tag: string, cells: seq<Json>, texts: seq<string>)
    requires |cells| == |texts|
    requires forall i :: 0 <= i < |cells| ==> cells[i] == JStr(texts[i]) && texts[i] != ""
    ensures CellsText(DocJson, tag, cells) == Ok(TagEach(tag, EscapeEach(texts)))
    decreases |cells|
  {
    if cells != [] {
      var n := |cells|;
      var e := EscapeEach(texts);
      DocCellsEscaped(tag, cells[..n - 1], texts[..n - 1]);
      assert e[..n - 1] == EscapeEach(texts[..n - 1]);
      assert CellText(DocJson, cells[n - 1]) == Ok(e[n - 1]);
      assert TagEach(tag, e) == TagEach(tag, e[..n - 1]) + TagCell(tag, e[n - 1]);
    }
  }

  /**
   * How single cells print: DocJSON throws for null and prints the empty
   * string as "undefined"; HyperJSON prints null as "" and a number as
   * itself; both escape a non-empty string.
   */
  lemma CellValues(d: Dialect, n: int, s: string)
    requires s != ""
    ensures CellText(DocJson, JNull) == Err(TypeError)
    ensures CellText(DocJson, JStr("")) == Ok("undefined")
    ensures CellText(HyperJson, JNull) == Ok("")
    ensures CellText(HyperJson, JNum(n)) == Ok(Decimal(n))
    ensures CellText(d, JStr(s)) == Ok(EscapeChars(s))
  {
  }

  /** A table with only a caption: the caption between the tags, not escaped. */
  lemma CaptionNotEscaped(d: Dialect, s: string)
    requires s != ""
    ensures TableText(d, Some(JStr(s)), None, None) == Ok("<caption>" + s + "</caption>")
  {
    var c := "<caption>" + s + "</caption>";
    assert CaptionText(Some(JStr(s))) == Ok(c);
    assert OptSection(d, "thead", "th", None) == Ok("");
    assert OptSection(d, "tbody", "td", None) == Ok("");
    ThenEmpty(Ok(c));
    ThenEmpty(Then(Ok(c), Ok("")));
  }

  /** An overlay with only a label: the label inside a span, not escaped, and no icon. */
  lemma OverlayLabelNotEscaped(d: Dialect, s: string)
    requires s != ""
    ensures ComposeOverlay(d, JObj([Field("label", JStr(s))])) ==
      Ok("<div class='" + OverlayClass(d) + "'><div>" + ("<span>" + s + "</span>") + "</div></div>")
  {
    var o := JObj([Field("label", JStr(s))]);
    assert Prop(o, "label") == Ok(Some(JStr(s)));
    assert Prop(o, "icon") == Ok(None);
    assert OverlayLabel(o) == Ok("<span>" + s + "</span>");
    assert OverlayIcon(d, o) == Ok("");
    OverlayConcat("<div class='" + OverlayClass(d) + "'><div>", "<span>" + s + "</span>");
  }

  lemma OverlayConcat(head: string, l: string)
    ensures head + l + "" + "</div></div>" == head + l + "</div></div>"
  {
    assert l + "" == l;
  }

  /** An overlay icon other than the two known ones and the inherited names adds nothing. */
  lemma UnknownIconOmitted(d: Dialect, icon: string)
    requires icon != "" && icon != "link" && icon != "external-link" && icon !in ObjectPrototypeNames
    ensures ComposeOverlay(d, JObj([Field("icon", JStr(icon))])) ==
      Ok("<div class='" + OverlayClass(d) + "'><div>" + "</div></div>")
  {
    var o := JObj([Field("icon", JStr(icon))]);
    assert Prop(o, "label") == Ok(None);
    assert Prop(o, "icon") == Ok(Some(JStr(icon)));
    assert OverlayLabel(o) == Ok("");
    assert IconSource(icon) == None;
    assert OverlayIcon(d, o) == Ok("");
    var head := "<div class='" + OverlayClass(d) + "'><div>";
    OverlayConcat(head, "");
    assert head + "" == head;
  }

  /** `compose` ends in "\n" whenever `stripBlank` is not truthy. */
  lemma FinishNewline(d: Dialect, props: seq<Field>, t: string)
    requires !TruthyOpt(Get(props, "stripBlank"))
    ensures var r := Finish(d, props, t); |r| > 0 && r[|r| - 1] == '\n'
  {
  }

  /**
   * HyperJSON lists `stripBlank` of quote and blockquote among the
   * attributes, where it has no case: such a node always ends in "\n",
   * and a blockquote's `lines` never reach its content.
   */
  lemma HyperQuoteEndsWithNewline(fields: seq<Field>, name: string)
    requires name == "quote" || name == "blockquote"
    requires DistinctKeys(fields) && Get(fields, "type") == Some(JStr(name))
    ensures var r := RenderNode(HyperJson, JObj(fields)); r.Ok? ==> |r.value| > 0 && r.value[|r.value| - 1] == '\n'
    ensures Get(GetNodeProperties(fields, [], RuleFor(HyperJson, name).value.propKeys), "lines") == None
  {
    HyperQuoteRule(name);
    var rule := RuleFor(HyperJson, name).value;
    UnlistedKeyAbsent(fields, [], rule.propKeys, "lines");
    UnselectedStripBlankNewline(HyperJson, fields, name, rule);
  }

  /** A node whose rule selects no `stripBlank` property always ends in "\n". */
  lemma UnselectedStripBlankNewline(d: Dialect, fields: seq<Field>, name: string, rule: Rule)
    requires Get(fields, "type") == Some(JStr(name)) && RuleFor(d, name) == Some(rule)
    requires "stripBlank" !in rule.propKeys && rule.propPrefix == []
    ensures var r := RenderNode(d, JObj(fields)); r.Ok? ==> |r.value| > 0 && r.value[|r.value| - 1] == '\n'
  {
    RuleNode(d, fields, name, rule);
    var props := GetNodeProperties(fields, rule.propPrefix, rule.propKeys);
    UnlistedKeyAbsent(fields, rule.propPrefix, rule.propKeys, "stripBlank");
    var t := ComposeTag(d, rule.tag, GetNodeProperties(fields, rule.attrPrefix, rule.attrKeys), props, rule.closable, JObj(fields));
    if t.Ok? {
      FinishNewline(d, props, t.value);
    }
  }

  lemma HyperQuoteRule(name: string)
    requires name == "quote" || name == "blockquote"
    ensures var r := RuleFor(HyperJson, name);
      r.Some? && r.value.propKeys == ["text", "children"] && r.value.propPrefix == [] && r.value.closable
  {
  }

  /** In DocJSON a truthy `stripBlank` on a quote does reach `compose`, which then adds no "\n". */
  lemma DocQuoteKeepsStripBlank(fields: seq<Field>)
    requires DistinctKeys(fields) && Get(fields, "type") == Some(JStr("quote"))
    ensures Get(GetNodeProperties(fields, [], RuleFor(DocJson, "quote").value.propKeys), "stripBlank") == Get(fields, "stripBlank")
  {
    var rule := RuleFor(DocJson, "quote").value;
    assert rule.propKeys == ["stripBlank", "text", "children"];
    GetNodePropertiesSpec(fields, [], rule.propKeys, "stripBlank");
  }
}
