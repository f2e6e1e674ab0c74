/**
 * Properties of the renderer: list rendering is in-order concatenation,
 * unknown node types fall back to an escaped paragraph, the attribute and
 * property selection of `getNodeProperties`, the attribute encodings, and
 * the output shape of each kind of rule.
 */
module MarkupProperties {
  import opened JsValues
  import opened Escaping
  import opened JsonText
  import opened Markup

  // ---------------------------------------------------------------------
  // parseNodes

  /** Rendering `a + b` is rendering `a` followed by rendering `b`; the first error wins. */
  lemma {:induction false} RenderListConcat(d: Dialect, a: seq<Json>, b: seq<Json>, parent: Json)
    requires forall i :: 0 <= i < |a + b| ==> Size((a + b)[i]) <= Size(parent)
    ensures forall i :: 0 <= i < |a| ==> Size(a[i]) <= Size(parent)
    ensures forall i :: 0 <= i < |b| ==> Size(b[i]) <= Size(parent)
    ensures RenderList(d, a + b, parent) == Then(RenderList(d, a, parent), RenderList(d, b, parent))
    decreases |b|
  {
    ConcatBelow(a, b, parent);
    if b == [] {
      assert a + b == a;
      ThenEmpty(RenderList(d, a, parent));
    } else {
      var init, last := b[..|b| - 1], b[|b| - 1];
      assert a + b == (a + init) + [last];
      assert b == init + [last];
      RenderListConcat(d, a, init, parent);
      RenderListSnoc(d, a + init, last, parent);
      RenderListSnoc(d, init, last, parent);
      ThenAssoc(RenderList(d, a, parent), RenderList(d, init, parent), RenderNode(d, last));
    }
  }

  lemma ConcatBelow(a: seq<Json>, b: seq<Json>, parent: Json)
    requires forall i :: 0 <= i < |a + b| ==> Size((a + b)[i]) <= Size(parent)
    ensures forall i :: 0 <= i < |a| ==> Size(a[i]) <= Size(parent)
    ensures forall i :: 0 <= i < |b| ==> Size(b[i]) <= Size(parent)
  {
    assert forall i :: 0 <= i < |a| ==> a[i] == (a + b)[i];
    assert forall i :: 0 <= i < |b| ==> b[i] == (a + b)[|a| + i];
  }

  lemma RenderListSnoc(d: Dialect, items: seq<Json>, x: Json, parent: Json)
    requires forall i :: 0 <= i < |items| ==> Size(items[i]) <= Size(parent)
    requires Size(x) <= Size(parent)
    ensures forall i :: 0 <= i < |items + [x]| ==> Size((items + [x])[i]) <= Size(parent)
    ensures RenderList(d, items + [x], parent) == Then(RenderList(d, items, parent), RenderNode(d, x))
  {
    assert (items + [x])[..|items|] == items;
  }

  lemma ThenEmpty(a: Result<string>)
    ensures Then(a, Ok("")) == a
  {
    if a.Ok? { assert a.value + "" == a.value; }
  }

  lemma ThenAssoc(a: Result<string>, b: Result<string>, c: Result<string>)
    ensures Then(Then(a, b), c) == Then(a, Then(b, c))
  {
    if a.Ok? && b.Ok? && c.Ok? {
      assert a.value + b.value + c.value == a.value + (b.value + c.value);
    }
  }

  /** A one-node list renders as that node. */
  lemma RenderListSingle(d: Dialect, n: Json, parent: Json)
    requires Size(n) <= Size(parent)
    ensures RenderList(d, [n], parent) == RenderNode(d, n)
  {
    assert [n][..0] == [];
    var r := RenderNode(d, n);
    if r.Ok? { assert "" + r.value == r.value; }
  }

  // ---------------------------------------------------------------------
  // Unknown node types

  /** JSON text is never empty, so `Text.escape` of it is never undefined. */
  lemma FallbackText(d: Dialect, n: Json)
    ensures Fallback(d, n) == "<p>" + EscapeChars(Stringify(n)) + "</p>"
    ensures Safe(EscapeChars(Stringify(n)))
  {
    EscapeCharsSafe(Stringify(n));
  }

  /**
   * A node whose `type` names neither a rule nor an inherited member of the
   * rule table renders as a paragraph of its escaped JSON text, with no
   * trailing newline.
   */
  lemma UnknownTypeFallback(d: Dialect, n: Json, key: string)
    requires Prop(n, "type").Ok? && ToStr(Prop(n, "type").value) == Ok(key)
    requires key !in RuleNames && key !in ObjectPrototypeNames
    ensures RenderNode(d, n) == Ok("<p>" + EscapeChars(Stringify(n)) + "</p>")
    ensures Safe(EscapeChars(Stringify(n)))
  {
    FallbackText(d, n);
  }

  /** A number, string, boolean or array node, or an object without `type`, takes the fallback. */
  lemma UntypedNodeFallback(d: Dialect, n: Json)
    requires !n.JNull? && !(n.JObj? && HasKey(n.fields, "type"))
    ensures RenderNode(d, n) == Ok("<p>" + EscapeChars(Stringify(n)) + "</p>")
  {
    assert Prop(n, "type") == Ok(None);
    assert "undefined" !in ObjectPrototypeNames;
    UnknownTypeFallback(d, n, "undefined");
  }

  /** A null node throws: `n.type` is read from null. */
  lemma NullNodeThrows(d: Dialect)
    ensures RenderNode(d, JNull) == Err(TypeError)
  {
  }

  // ---------------------------------------------------------------------
  // getNodeProperties

  lemma {:induction false} PickGet(fields: seq<Field>, what: seq<string>, k: string)
    ensures Get(Pick(fields, what), k) == if k in what then Get(fields, k) else None
  {
    if fields != [] {
      PickGet(fields[1..], what, k);
      assert fields == [fields[0]] + fields[1..];
      GetCons(fields[0], fields[1..], k);
      if fields[0].key in what {
        GetCons(fields[0], Pick(fields[1..], what), k);
      } else {
        assert Pick(fields, what) == Pick(fields[1..], what);
      }
    }
  }

  lemma {:induction false} PickDistinct(fields: seq<Field>, what: seq<string>)
    requires DistinctKeys(fields)
    ensures DistinctKeys(Pick(fields, what))
  {
    if fields != [] {
      assert DistinctKeys(fields[1..]) by {
        forall i, j | 0 <= i < j < |fields[1..]| ensures fields[1..][i].key != fields[1..][j].key {
          assert fields[1..][i] == fields[i + 1] && fields[1..][j] == fields[j + 1];
        }
      }
      PickDistinct(fields[1..], what);
      var rest := Pick(fields[1..], what);
      if fields[0].key in what {
        forall i, j | 0 <= i < j < |[fields[0]] + rest| ensures ([fields[0]] + rest)[i].key != ([fields[0]] + rest)[j].key {
          if i == 0 {
            var f := rest[j - 1];
            assert f in fields[1..];
            var m :| 0 <= m < |fields[1..]| && fields[1..][m] == f;
            assert fields[m + 1] == f;
          } else {
            assert ([fields[0]] + rest)[i] == rest[i - 1];
          }
        }
      } else {
        assert Pick(fields, what) == rest;
      }
    }
  }

  /** With distinct keys, the last entry for a key is the only one, so it is the one `Get` finds. */
  lemma {:induction false} LastValueDistinct(fields: seq<Field>, k: string)
    requires DistinctKeys(fields)
    ensures LastValue(fields, k) == Get(fields, k)
  {
    if fields != [] {
      var init := fields[..|fields| - 1];
      var last := fields[|fields| - 1];
      assert DistinctKeys(init);
      LastValueDistinct(init, k);
      assert fields == init + [last];
      assert !HasKey(init, last.key) by {
        forall i | 0 <= i < |init| ensures init[i].key != last.key {
          assert init[i] == fields[i];
        }
      }
      GetAppend(init, last.key, last.value, k);
    }
  }

  lemma {:induction false} LastValueConcat(a: seq<Field>, b: seq<Field>, k: string)
    ensures LastValue(a + b, k) == if LastValue(b, k).Some? then LastValue(b, k) else LastValue(a, k)
    decreases |b|
  {
    if b == [] {
      assert a + b == a;
    } else {
      assert (a + b)[..|a + b| - 1] == a + b[..|b| - 1];
      assert (a + b)[|a + b| - 1] == b[|b| - 1];
      LastValueConcat(a, b[..|b| - 1], k);
    }
  }

  /**
   * `getNodeProperties(node, prefix, ...what)` keeps exactly the listed keys
   * of the node, and a prefix entry overrides the node's value for its key.
   */
  lemma GetNodePropertiesSpec(fields: seq<Field>, prefix: seq<Field>, what: seq<string>, k: string)
    requires DistinctKeys(fields)
    ensures Get(GetNodeProperties(fields, prefix, what), k) ==
      if HasKey(prefix, k) then LastValue(prefix, k)
      else if k in what then Get(fields, k)
      else None
  {
    GetFromEntries(Pick(fields, what) + prefix, k);
    LastValueConcat(Pick(fields, what), prefix, k);
    PickDistinct(fields, what);
    LastValueDistinct(Pick(fields, what), k);
    PickGet(fields, what, k);
  }

  /** A key that is neither listed nor in the prefix is absent, whether or not the node's keys are distinct. */
  lemma UnlistedKeyAbsent(fields: seq<Field>, prefix: seq<Field>, what: seq<string>, k: string)
    requires k !in what && !HasKey(prefix, k)
    ensures Get(GetNodeProperties(fields, prefix, what), k) == None
  {
    GetFromEntries(Pick(fields, what) + prefix, k);
    LastValueConcat(Pick(fields, what), prefix, k);
    var picked := Pick(fields, what);
    assert !HasKey(picked, k) by {
      forall i | 0 <= i < |picked| ensures picked[i].key != k {
        assert picked[i].key in what;
      }
    }
  }

  /** Picking with an empty list keeps nothing. */
  lemma {:induction false} PickNothing(fields: seq<Field>)
    ensures Pick(fields, []) == []
  {
    if fields != [] {
      PickNothing(fields[1..]);
    }
  }

  predicate NamedKeys(what: seq<string>) {
    forall i :: 0 <= i < |what| ==> |what[i]| > 0 && !('0' <= what[i][0] <= '9')
  }

  predicate NoIndexKeys(entries: seq<Field>) {
    forall i :: 0 <= i < |entries| ==> !IsArrayIndex(entries[i].key)
  }

  lemma NameNotIndex(k: string)
    requires |k| > 0 && !('0' <= k[0] <= '9')
    ensures !IsArrayIndex(k)
  {
  }

  /** Object.fromEntries over distinct keys none of which is an array index keeps the entries as they are. */
  lemma {:induction false} FromEntriesPlain(entries: seq<Field>)
    requires DistinctKeys(entries) && NoIndexKeys(entries)
    ensures FromEntries(entries) == entries
  {
    if entries != [] {
      var init := entries[..|entries| - 1];
      var last := entries[|entries| - 1];
      assert DistinctKeys(init) && NoIndexKeys(init);
      FromEntriesPlain(init);
      assert !HasKey(init, last.key) by {
        forall i | 0 <= i < |init| ensures init[i].key != last.key {
          assert init[i] == entries[i];
        }
      }
      assert entries == init + [last];
    }
  }

  /**
   * For named (non-index) keys and a node with distinct keys,
   * `getNodeProperties` is the listed entries in the node's order followed
   * by the prefix entries.
   */
  lemma NamedNodeProperties(fields: seq<Field>, prefix: seq<Field>, what: seq<string>)
    requires DistinctKeys(fields) && DistinctKeys(prefix)
    requires NamedKeys(what)
    requires forall i :: 0 <= i < |prefix| ==> |prefix[i].key| > 0 && !('0' <= prefix[i].key[0] <= '9') && prefix[i].key !in what
    ensures GetNodeProperties(fields, prefix, what) == Pick(fields, what) + prefix
  {
    NamedEntriesDistinct(fields, prefix, what);
    NamedEntriesNoIndex(fields, prefix, what);
    FromEntriesPlain(Pick(fields, what) + prefix);
  }

  lemma NamedEntriesDistinct(fields: seq<Field>, prefix: seq<Field>, what: seq<string>)
    requires DistinctKeys(fields) && DistinctKeys(prefix)
    requires forall i :: 0 <= i < |prefix| ==> prefix[i].key !in what
    ensures DistinctKeys(Pick(fields, what) + prefix)
  {
    var picked := Pick(fields, what);
    var entries := picked + prefix;
    PickDistinct(fields, what);
    forall i, j | 0 <= i < j < |entries| ensures entries[i].key != entries[j].key {
      if j < |picked| {
        assert entries[i] == picked[i] && entries[j] == picked[j];
      } else if i < |picked| {
        assert entries[j] == prefix[j - |picked|];
        assert entries[i].key in what;
      } else {
        assert entries[i] == prefix[i - |picked|] && entries[j] == prefix[j - |picked|];
      }
    }
  }

  lemma NamedEntriesNoIndex(fields: seq<Field>, prefix: seq<Field>, what: seq<string>)
    requires NamedKeys(what)
    requires forall i :: 0 <= i < |prefix| ==> |prefix[i].key| > 0 && !('0' <= prefix[i].key[0] <= '9')
    ensures NoIndexKeys(Pick(fields, what) + prefix)
  {
    var picked := Pick(fields, what);
    var entries := picked + prefix;
    forall i | 0 <= i < |entries| ensures !IsArrayIndex(entries[i].key) {
      if i < |picked| {
        var k := entries[i].key;
        assert k in what;
        var m :| 0 <= m < |what| && what[m] == k;
        NameNotIndex(k);
      } else {
        assert entries[i] == prefix[i - |picked|];
        NameNotIndex(entries[i].key);
      }
    }
  }

  /** Picking keys the node does not have keeps nothing. */
  lemma {:induction false} PickAbsent(fields: seq<Field>, what: seq<string>)
    requires forall i :: 0 <= i < |what| ==> !HasKey(fields, what[i])
    ensures Pick(fields, what) == []
  {
    if fields != [] {
      assert HasKey(fields, fields[0].key);
      forall i | 0 <= i < |what| ensures !HasKey(fields[1..], what[i]) {
        forall j | 0 <= j < |fields[1..]| ensures fields[1..][j].key != what[i] {
          assert fields[1..][j] == fields[j + 1];
        }
      }
      PickAbsent(fields[1..], what);
    }
  }

  // ---------------------------------------------------------------------
  // composeAttributes

  /** The keys the `switch` of `composeAttributes` has a case for. */
  const AttributeNames: set<string> :=
    {"id", "alt", "src", "cite", "href", "style", "language", "draggable", "openInNew", "highlight", "block"}

  /** An entry whose value is null, or whose key has no case (such as `classes`), adds nothing. */
  lemma SkippedAttribute(d: Dialect, attrs: seq<Field>, f: Field)
    requires f.value.JNull? || f.key !in AttributeNames
    ensures AttrParts(d, attrs + [f]) == AttrParts(d, attrs)
  {
    assert (attrs + [f])[..|attrs|] == attrs;
    var init := AttrParts(d, attrs);
    if init.Ok? {
      assert init.value + [] == init.value;
    }
  }

  /** `style` tokens become `prefix + token`, in token order. */
  lemma {:induction false} StyleTokensText(d: Dialect, ts: seq<Json>)
    requires forall i :: 0 <= i < |ts| ==> ts[i].JStr?
    ensures StyleTokens(d, ts).Ok?
    ensures forall i :: 0 <= i < |ts| ==> StyleTokens(d, ts).value[i] == StylePrefix(d) + ts[i].s
  {
    if ts != [] {
      var init, last := ts[..|ts| - 1], ts[|ts| - 1];
      assert forall i :: 0 <= i < |init| ==> init[i] == ts[i];
      StyleTokensText(d, init);
      assert JsonToString(last) == Ok(last.s);
    }
  }

  /** A `style` array of strings yields one `class` attribute listing the prefixed tokens separated by spaces. */
  lemma StyleAttribute(d: Dialect, ts: seq<Json>)
    requires forall i :: 0 <= i < |ts| ==> ts[i].JStr?
    ensures StyleTokens(d, ts).Ok?
    ensures var tokens := StyleTokens(d, ts).value;
      && |tokens| == |ts|
      && (forall i :: 0 <= i < |ts| ==> tokens[i] == StylePrefix(d) + ts[i].s)
      && AttrPieces(d, "style", JArr(ts)) == Ok(["class=\"" + Join(tokens, " ") + "\""])
  {
    StyleTokensText(d, ts);
  }

  /**
   * In DocJSON, `id`, `alt`, `src`, `cite`, `href` and `language` values go
   * through `Text.escape`: a non-empty string value is written escaped and
   * carries none of the four unsafe characters, so it cannot close the
   * quoted attribute.
   */
  lemma DocAttributeEscaped(k: string, s: string)
    requires k == "id" || k == "alt" || k == "src" || k == "cite" || k == "href" || k == "language"
    requires s != ""
    ensures k == "language" ==> AttrPieces(DocJson, k, JStr(s)) == Ok(["data-language=\"" + EscapeChars(s) + "\""])
    ensures k != "language" ==> AttrPieces(DocJson, k, JStr(s)) == Ok([k + "=\"" + EscapeChars(s) + "\""])
    ensures Safe(EscapeChars(s))
  {
    EscapeCharsSafe(s);
    var e := EscapeChars(s);
    assert AttrValue(DocJson, JStr(s)) == Ok(e);
  }

  /** HyperJSON sanitizes only strings: an array value is written through its `toString`, unescaped. */
  lemma HyperArrayAttributeRaw(s: string)
    ensures AttrPieces(HyperJson, "href", JArr([JStr(s)])) == Ok(["href=\"" + s + "\""])
  {
    var v := JArr([JStr(s)]);
    ItemsSmaller([JStr(s)]);
    assert JoinPart(JStr(s)) == Ok(s);
    assert JoinItems([JStr(s)], ",", v) == Ok(s);
    assert Sanitize(Some(v)) == v;
    assert AttrValue(HyperJson, v) == Ok(s);
    assert "href" + "=\"" == "href=\"";
  }

  /**
   * The `draggable` case has no `break`: after `draggable="..."` it also
   * pushes `target='_blank'`. `openInNew` pushes the target for any
   * non-null value, false included.
   */
  lemma DraggableFallsThrough(d: Dialect, attrs: seq<Field>, v: Json)
    requires !v.JNull? && AttrParts(d, attrs).Ok?
    ensures AttrParts(d, attrs + [Field("draggable", v)]) ==
      Ok(AttrParts(d, attrs).value + ["draggable=\"" + (if v == JBool(true) then "true" else "false") + "\"", "target='_blank'"])
    ensures AttrParts(d, attrs + [Field("openInNew", JBool(false))]) == Ok(AttrParts(d, attrs).value + ["target='_blank'"])
  {
    var flag := "draggable=\"" + (if v == JBool(true) then "true" else "false") + "\"";
    assert AttrPieces(d, "draggable", v) == Ok([flag, "target='_blank'"]);
    AttrPartsSnoc(d, attrs, Field("draggable", v));
    assert AttrPieces(d, "openInNew", JBool(false)) == Ok(["target='_blank'"]);
    AttrPartsSnoc(d, attrs, Field("openInNew", JBool(false)));
  }

  lemma AttrPartsSnoc(d: Dialect, attrs: seq<Field>, f: Field)
    requires AttrParts(d, attrs).Ok? && AttrPieces(d, f.key, f.value).Ok?
    ensures AttrParts(d, attrs + [f]) == Ok(AttrParts(d, attrs).value + AttrPieces(d, f.key, f.value).value)
  {
    assert (attrs + [f])[..|attrs|] == attrs;
  }

  // ---------------------------------------------------------------------
  // compose

  /** A node whose `type` names a rule is handed to `compose` with the rule's tag and selected entries. */
  lemma RuleNode(d: Dialect, fields: seq<Field>, name: string, rule: Rule)
    requires Get(fields, "type") == Some(JStr(name)) && RuleFor(d, name) == Some(rule)
    ensures var n := JObj(fields);
      && AllBelow(GetNodeProperties(fields, rule.propPrefix, rule.propKeys), Size(n))
      && RenderNode(d, n) ==
           Compose(d, rule.tag, GetNodeProperties(fields, rule.attrPrefix, rule.attrKeys),
                   GetNodeProperties(fields, rule.propPrefix, rule.propKeys), rule.closable, n)
  {
    NodePropertiesBelow(JObj(fields), rule.propPrefix, rule.propKeys);
  }

  /** Without content, a non-closable tag closes itself: `<tag attrs/>`. */
  lemma ComposeSelfClosing(d: Dialect, tag: string, attrs: seq<Field>, props: seq<Field>, n: Json)
    requires AllBelow(props, Size(n)) && !HasAnyContent(props)
    ensures var a := AttributesText(d, attrs);
      Compose(d, tag, attrs, props, false, n) ==
        if a.Err? then Err(a.error) else Ok(Finish(d, props, "<" + tag + " " + a.value + "/>"))
  {
  }

  /** A closable tag without overlay: the content as a template literal prints it, between the tags. */
  lemma ComposeClosable(d: Dialect, tag: string, attrs: seq<Field>, props: seq<Field>, n: Json)
    requires AllBelow(props, Size(n)) && !TruthyOpt(Get(props, "overlay"))
    ensures var a, c := AttributesText(d, attrs), ComposeContent(d, props, n);
      Compose(d, tag, attrs, props, true, n) ==
        if a.Err? then Err(a.error)
        else if c.Err? then Err(c.error)
        else Ok(Finish(d, props, "<" + tag + " " + a.value + ">" + OptText(c.value) + "</" + tag + ">"))
  {
    var a, c := AttributesText(d, attrs), ComposeContent(d, props, n);
    if a.Ok? && c.Ok? {
      var t := "<" + tag + " " + a.value + ">" + OptText(c.value) + "</" + tag + ">";
      assert "<" + tag + " " + a.value + ">" + OptText(c.value) + "" + "</" + tag + ">" == t;
    }
  }

  /** Truthy string text wins over `lines`, `children` and the table parts. */
  lemma TextContent(d: Dialect, props: seq<Field>, n: Json, s: string)
    requires AllBelow(props, Size(n)) && Get(props, "text") == Some(JStr(s)) && s != ""
    ensures ComposeContent(d, props, n) == Ok(Some(EscapeChars(s)))
  {
    assert ProcessText(d, Coalesce(Get(props, "text"), Get(props, "lines"))) == Ok(Some(EscapeChars(s)));
  }

  /** With no content entry at all, the content is undefined. */
  lemma NoContent(d: Dialect, props: seq<Field>, n: Json)
    requires AllBelow(props, Size(n)) && !HasAnyContent(props)
    ensures ComposeContent(d, props, n) == Ok(None)
  {
  }

  /**
   * `text: ""` is falsy but not nullish: with truthy `lines` beside it,
   * `processText(text ?? lines)` receives the empty string, so DocJSON's
   * content is undefined and HyperJSON's is empty; the lines are never used.
   */
  lemma EmptyTextShadowsLines(d: Dialect, props: seq<Field>, n: Json)
    requires AllBelow(props, Size(n)) && Get(props, "text") == Some(JStr("")) && TruthyOpt(Get(props, "lines"))
    ensures ComposeContent(d, props, n) == Ok(if d == DocJson then None else Some(""))
  {
    assert Coalesce(Get(props, "text"), Get(props, "lines")) == Some(JStr(""));
  }

  /** `compose`'s ending: with `verticalScroll` the scroll wrapper, then "\n" unless `stripBlank` is truthy. */
  lemma FinishShape(d: Dialect, props: seq<Field>, t: string)
    ensures var w := if TruthyOpt(Get(props, "verticalScroll")) then "<div class=\"" + ScrollClass(d) + "\">" + t + "</div>" else t;
      Finish(d, props, t) == w + (if TruthyOpt(Get(props, "stripBlank")) then "" else "\n")
  {
  }

  // ---------------------------------------------------------------------
  // The output shape of the rules

  /** A self-closing element, as `compose` writes it. */
  function SelfClosing(tag: string, attrs: string): (r: string)
    ensures |r| == |tag| + |attrs| + 4
    ensures r[|r| - 2..] == "/>"
  {
    "<" + tag + " " + attrs + "/>"
  }

  /** The image rule, unfolded: `draggable: false` follows `src` and `alt`, and the properties are empty. */
  lemma ImageRule(d: Dialect, fields: seq<Field>)
    requires DistinctKeys(fields) && Get(fields, "type") == Some(JStr("image"))
    ensures AllBelow([], Size(JObj(fields)))
    ensures RenderNode(d, JObj(fields)) ==
      Compose(d, "img", Pick(fields, ["src", "alt"]) + [Field("draggable", JBool(false))], [], false, JObj(fields))
  {
    var dr, what := Field("draggable", JBool(false)), ["src", "alt"];
    assert RuleFor(d, "image") == Some(Rule("img", what, [dr], [], [], false));
    RuleNode(d, fields, "image", Rule("img", what, [dr], [], [], false));
    ImageProperties(fields);
  }

  lemma ImageProperties(fields: seq<Field>)
    requires DistinctKeys(fields)
    ensures GetNodeProperties(fields, [], []) == []
    ensures GetNodeProperties(fields, [Field("draggable", JBool(false))], ["src", "alt"]) ==
      Pick(fields, ["src", "alt"]) + [Field("draggable", JBool(false))]
  {
    PickNothing(fields);
    ImageAttributes(fields);
  }

  lemma ImageAttributes(fields: seq<Field>)
    requires DistinctKeys(fields)
    ensures GetNodeProperties(fields, [Field("draggable", JBool(false))], ["src", "alt"]) ==
      Pick(fields, ["src", "alt"]) + [Field("draggable", JBool(false))]
  {
    var what := ["src", "alt"];
    assert NamedKeys(what) by { assert what[0] == "src" && what[1] == "alt"; }
    NamedNodeProperties(fields, [Field("draggable", JBool(false))], what);
  }

  /**
   * An image self-closes, and since `draggable: false` is always added
   * after `src` and `alt` and falls through to `openInNew`, its last two
   * attributes are `draggable="false"` and `target='_blank'`.
   */
  lemma ImageRendering(d: Dialect, fields: seq<Field>)
    requires DistinctKeys(fields) && Get(fields, "type") == Some(JStr("image"))
    ensures var parts := AttrParts(d, Pick(fields, ["src", "alt"]));
      RenderNode(d, JObj(fields)) ==
        if parts.Err? then Err(parts.error)
        else Ok(SelfClosing("img", Join(parts.value + ["draggable=\"false\"", "target='_blank'"], " ")) + "\n")
  {
    ImageRule(d, fields);
    ImageCompose(d, Pick(fields, ["src", "alt"]), JObj(fields));
  }

  /** `compose("img", attrs)` where `attrs` ends with `draggable: false`. */
  lemma ImageCompose(d: Dialect, picked: seq<Field>, n: Json)
    ensures var parts := AttrParts(d, picked);
      Compose(d, "img", picked + [Field("draggable", JBool(false))], [], false, n) ==
        if parts.Err? then Err(parts.error)
        else Ok(SelfClosing("img", Join(parts.value + ["draggable=\"false\"", "target='_blank'"], " ")) + "\n")
  {
    var attrs := picked + [Field("draggable", JBool(false))];
    ComposeSelfClosing(d, "img", attrs, [], n);
    var parts := AttrParts(d, picked);
    if parts.Ok? {
      DraggableFallsThrough(d, picked, JBool(false));
      assert "draggable=\"" + "false" + "\"" == "draggable=\"false\"";
    } else {
      assert attrs[..|picked|] == picked;
    }
  }

  /** Every image's markup ends in `draggable="false" target='_blank'/>` and a newline. */
  lemma ImageEndsWithTarget(d: Dialect, fields: seq<Field>)
    requires DistinctKeys(fields) && Get(fields, "type") == Some(JStr("image"))
    ensures var r, tail := RenderNode(d, JObj(fields)), "draggable=\"false\"" + " " + "target='_blank'" + "/>\n";
      r.Ok? ==> |r.value| >= |tail| && r.value[|r.value| - |tail|..] == tail
  {
    ImageRendering(d, fields);
    var parts := AttrParts(d, Pick(fields, ["src", "alt"]));
    if parts.Ok? {
      LastTwoAttributes("img", parts.value, "draggable=\"false\"", "target='_blank'");
    }
  }

  /** A self-closing tag whose attribute list ends with `x` and `y` ends with `x y/>` and the newline. */
  lemma LastTwoAttributes(tag: string, p: seq<string>, x: string, y: string)
    ensures var r, tail := SelfClosing(tag, Join(p + [x, y], " ")) + "\n", x + " " + y + "/>\n";
      |r| >= |tail| && r[|r| - |tail|..] == tail
  {
    var pre := if p == [] then "" else Join(p, " ") + " ";
    var j := Join(p + [x], " ");
    assert j == pre + x by {
      JoinSnoc(p, x, " ");
    }
    assert Join(p + [x, y], " ") == j + " " + y by {
      assert p + [x, y] == (p + [x]) + [y];
      JoinSnoc(p + [x], y, " ");
    }
    var tail := x + " " + y + "/>\n";
    var r := SelfClosing(tag, j + " " + y) + "\n";
    assert r == ("<" + tag + " " + pre) + tail;
  }

  /** What a paragraph's properties hold: the node's own `stripBlank`, `text`, `lines` and `children`, and nothing else. */
  lemma BlockProperties(fields: seq<Field>, k: string)
    requires DistinctKeys(fields)
    ensures Get(GetNodeProperties(fields, [], BlockProps), k) == if k in BlockProps then Get(fields, k) else None
  {
    GetNodePropertiesSpec(fields, [], BlockProps, k);
  }

  /** A paragraph's attributes are its `style` entry, if any. */
  lemma ParagraphAttributes(d: Dialect, fields: seq<Field>)
    requires DistinctKeys(fields)
    ensures GetNodeProperties(fields, [], ["style"]) == Pick(fields, ["style"])
  {
    assert NamedKeys(["style"]);
    NamedNodeProperties(fields, [], ["style"]);
    assert Pick(fields, ["style"]) + [] == Pick(fields, ["style"]);
  }

  /** An element with its open and close tags, as `compose` writes it. */
  function Element(tag: string, attrs: string, content: string): (r: string)
    ensures |r| == |tag| * 2 + |attrs| + |content| + 6
    ensures r[|r| - |tag| - 3..] == "</" + tag + ">"
  {
    "<" + tag + " " + attrs + ">" + content + "</" + tag + ">"
  }

  /**
   * A closable tag with non-empty string text and neither overlay nor
   * scroll wrapper: the open tag, the escaped text, the close tag, and a
   * newline unless `stripBlank` is truthy.
   */
  lemma ClosableText(d: Dialect, tag: string, attrs: seq<Field>, props: seq<Field>, n: Json, s: string)
    requires AllBelow(props, Size(n)) && Get(props, "text") == Some(JStr(s)) && s != ""
    requires Get(props, "overlay") == None && Get(props, "verticalScroll") == None
    ensures var a := AttributesText(d, attrs);
      Compose(d, tag, attrs, props, true, n) ==
        if a.Err? then Err(a.error)
        else Ok(Element(tag, a.value, EscapeChars(s)) + (if TruthyOpt(Get(props, "stripBlank")) then "" else "\n"))
  {
    ComposeClosable(d, tag, attrs, props, n);
    TextContent(d, props, n, s);
    var a := AttributesText(d, attrs);
    if a.Ok? {
      var t := Element(tag, a.value, EscapeChars(s));
      assert OptText(Some(EscapeChars(s))) == EscapeChars(s);
      assert Compose(d, tag, attrs, props, true, n) == Ok(Finish(d, props, t));
      FinishShape(d, props, t);
    }
  }

  /**
   * A paragraph with non-empty string text: `<p attrs>`, the escaped text,
   * `</p>`, and a newline unless `stripBlank` is truthy.
   */
  lemma ParagraphText(d: Dialect, fields: seq<Field>, s: string)
    requires DistinctKeys(fields) && Get(fields, "type") == Some(JStr("paragraph"))
    requires Get(fields, "text") == Some(JStr(s)) && s != ""
    ensures var a := AttributesText(d, Pick(fields, ["style"]));
      RenderNode(d, JObj(fields)) ==
        if a.Err? then Err(a.error)
        else Ok(Element("p", a.value, EscapeChars(s)) + (if TruthyOpt(Get(fields, "stripBlank")) then "" else "\n"))
  {
    var n := JObj(fields);
    ParagraphRule(d, fields);
    ParagraphAttributes(d, fields);
    var props := GetNodeProperties(fields, [], BlockProps);
    ParagraphProperties(fields);
    ClosableText(d, "p", Pick(fields, ["style"]), props, n, s);
  }

  /** The block properties a paragraph's text rendering looks at. */
  lemma ParagraphProperties(fields: seq<Field>)
    requires DistinctKeys(fields)
    ensures var props := GetNodeProperties(fields, [], BlockProps);
      && Get(props, "text") == Get(fields, "text") && Get(props, "stripBlank") == Get(fields, "stripBlank")
      && Get(props, "overlay") == None && Get(props, "verticalScroll") == None
  {
    BlockProperties(fields, "text");
    BlockProperties(fields, "stripBlank");
    BlockProperties(fields, "verticalScroll");
    BlockProperties(fields, "overlay");
  }

  /** The paragraph rule, unfolded. */
  lemma ParagraphRule(d: Dialect, fields: seq<Field>)
    requires Get(fields, "type") == Some(JStr("paragraph"))
    ensures AllBelow(GetNodeProperties(fields, [], BlockProps), Size(JObj(fields)))
    ensures RenderNode(d, JObj(fields)) ==
      Compose(d, "p", GetNodeProperties(fields, [], ["style"]), GetNodeProperties(fields, [], BlockProps), true, JObj(fields))
  {
    assert RuleFor(d, "paragraph") == Some(Rule("p", ["style"], [], BlockProps, [], true));
    RuleNode(d, fields, "paragraph", Rule("p", ["style"], [], BlockProps, [], true));
  }

  /**
   * A closable node with no content field interpolates `undefined` between
   * its tags: `{type: "paragraph"}` renders as `<p >undefined</p>`.
   */
  lemma ParagraphWithoutContent(d: Dialect, fields: seq<Field>)
    requires DistinctKeys(fields) && Get(fields, "type") == Some(JStr("paragraph"))
    requires Get(fields, "text") == None && Get(fields, "lines") == None && Get(fields, "children") == None
    requires Get(fields, "style") == None && Get(fields, "stripBlank") == None
    ensures RenderNode(d, JObj(fields)) == Ok(Element("p", "", "undefined") + "\n")
  {
    var n := JObj(fields);
    ParagraphRule(d, fields);
    assert GetNodeProperties(fields, [], ["style"]) == [] by {
      ParagraphAttributes(d, fields);
      PickAbsent(fields, ["style"]);
    }
    var props := GetNodeProperties(fields, [], BlockProps);
    EmptyParagraphProperties(fields);
    ClosableEmpty(d, "p", [], props, n);
  }

  /** A paragraph without content entries and without `stripBlank` has no block properties at all. */
  lemma EmptyParagraphProperties(fields: seq<Field>)
    requires DistinctKeys(fields)
    requires Get(fields, "text") == None && Get(fields, "lines") == None && Get(fields, "children") == None
    requires Get(fields, "stripBlank") == None
    ensures GetNodeProperties(fields, [], BlockProps) == []
  {
    BlockPropsNamed();
    NamedNodeProperties(fields, [], BlockProps);
    BlockPropsAbsent(fields);
    var none: seq<Field> := [];
    assert none + none == none;
  }

  lemma BlockPropsNamed()
    ensures NamedKeys(BlockProps)
  {
  }

  lemma BlockPropsAbsent(fields: seq<Field>)
    requires Get(fields, "text") == None && Get(fields, "lines") == None && Get(fields, "children") == None
    requires Get(fields, "stripBlank") == None
    ensures Pick(fields, BlockProps) == []
  {
    forall i | 0 <= i < |BlockProps| ensures !HasKey(fields, BlockProps[i]) {
      var k := BlockProps[i];
      assert Get(fields, k) == None by {
        if i == 0 { assert k == "stripBlank"; }
        else if i == 1 { assert k == "text"; }
        else if i == 2 { assert k == "lines"; }
        else { assert k == "children"; }
      }
    }
    PickAbsent(fields, BlockProps);
  }

  /** A closable tag without any content entry: `undefined` between the tags. */
  lemma ClosableEmpty(d: Dialect, tag: string, attrs: seq<Field>, props: seq<Field>, n: Json)
    requires AllBelow(props, Size(n)) && !HasAnyContent(props)
    requires Get(props, "overlay") == None && Get(props, "verticalScroll") == None && Get(props, "stripBlank") == None
    ensures var a := AttributesText(d, attrs);
      Compose(d, tag, attrs, props, true, n) ==
        if a.Err? then Err(a.error) else Ok(Element(tag, a.value, "undefined") + "\n")
  {
    ComposeClosable(d, tag, attrs, props, n);
    NoContent(d, props, n);
    var a := AttributesText(d, attrs);
    if a.Ok? {
      FinishShape(d, props, Element(tag, a.value, "undefined"));
    }
  }
}
