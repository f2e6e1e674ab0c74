/**
 * JSON.stringify over the value model, as the renderers use it to print a
 * node of unknown type. Object members appear in property order; strings
 * are quoted with the escapes of ECMAScript's QuoteJSONString.
 */
module JsonText {
  import opened JsValues

  function HexDigit(d: nat): char
    requires d < 16
  {
    if d < 10 then ('0' as int + d) as char else ('a' as int + d - 10) as char
  }

  /** How QuoteJSONString writes one character. */
  function QuoteChar(c: char): (r: string)
    ensures |r| >= 1
  {
    if c == '"' then "\\\""
    else if c == '\\' then "\\\\"
    else if c as int == 0x08 then "\\b"
    else if c as int == 0x0C then "\\f"
    else if c == '\n' then "\\n"
    else if c == '\r' then "\\r"
    else if c == '\t' then "\\t"
    else if (c as int) < 0x20 then "\\u00" + [HexDigit((c as int) / 16), HexDigit((c as int) % 16)]
    else [c]
  }

  function QuoteChars(s: string): string {
    if s == [] then [] else QuoteChar(s[0]) + QuoteChars(s[1..])
  }

  /** A JSON string literal for `s`. */
  function Quote(s: string): (r: string)
    ensures |r| >= 2 && r[0] == '"' && r[|r| - 1] == '"'
  {
    "\"" + QuoteChars(s) + "\""
  }

  /** JSON.stringify(v) with no replacer and no indentation. */
  function Stringify(v: Json): (r: string)
    decreases Size(v), 1
    ensures |r| >= 1
  {
    match v
    case JNull => "null"
    case JBool(b) => if b then "true" else "false"
    case JNum(n) => Decimal(n)
    case JStr(s) => Quote(s)
    case JArr(items) => ItemsSmaller(items); "[" + StringifyItems(items, v) + "]"
    case JObj(fields) => FieldsSmaller(fields); "{" + StringifyFields(fields, v) + "}"
  }

  function StringifyItems(items: seq<Json>, ghost parent: Json): string
    requires forall i :: 0 <= i < |items| ==> Size(items[i]) < Size(parent)
    decreases Size(parent), 0, |items|
  {
    if items == [] then ""
    else if |items| == 1 then Stringify(items[0])
    else Stringify(items[0]) + "," + StringifyItems(items[1..], parent)
  }

  function StringifyFields(fields: seq<Field>, ghost parent: Json): string
    requires forall i :: 0 <= i < |fields| ==> Size(fields[i].value) < Size(parent)
    decreases Size(parent), 0, |fields|
  {
    if fields == [] then ""
    else
      var member := Quote(fields[0].key) + ":" + Stringify(fields[0].value);
      if |fields| == 1 then member else member + "," + StringifyFields(fields[1..], parent)
  }
}
