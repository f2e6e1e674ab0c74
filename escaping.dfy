/**
 * The two HTML escapers of the site: `Text.escape`/`Text.escapeLines`
 * (js/utils/Text.mjs) and `TextUtils.sanitize`/`sanitizeLines` (js/utils.mjs).
 * Both walk a four-entry entity table and apply `replaceAll` for each entry
 * whose character occurs in the text. They are the renderer's only defence
 * against markup injection.
 */
module Escaping {
  import opened JsValues

  /** The entity table, in the order `Object.entries` visits it. */
  const Unsafe: seq<(char, string)> := [('<', "&lt;"), ('>', "&gt;"), ('"', "&quot;"), ('\'', "&#39;")]

  predicate IsUnsafe(c: char) {
    c == '<' || c == '>' || c == '"' || c == '\''
  }

  /** No character of `s` is one of the four the escapers replace. */
  predicate Safe(s: string) {
    forall i :: 0 <= i < |s| ==> !IsUnsafe(s[i])
  }

  /** What one character becomes. */
  function EntityFor(c: char): string {
    if c == '<' then "&lt;"
    else if c == '>' then "&gt;"
    else if c == '"' then "&quot;"
    else if c == '\'' then "&#39;"
    else [c]
  }

  /** Reference definition: every character replaced by its entity, all others kept. */
  function EscapeChars(s: string): string {
    if s == [] then [] else EntityFor(s[0]) + EscapeChars(s[1..])
  }

  /** String.prototype.replaceAll(c, r) for a one-character pattern. */
  function ReplaceAll(s: string, c: char, r: string): string {
    if s == [] then []
    else (if s[0] == c then r else [s[0]]) + ReplaceAll(s[1..], c, r)
  }

  /** What one character has become after the first `i` table entries were applied. */
  function Stage(c: char, i: nat): string {
    if i >= 1 && c == '<' then "&lt;"
    else if i >= 2 && c == '>' then "&gt;"
    else if i >= 3 && c == '"' then "&quot;"
    else if i >= 4 && c == '\'' then "&#39;"
    else [c]
  }

  function MapStage(s: string, i: nat): string {
    if s == [] then [] else Stage(s[0], i) + MapStage(s[1..], i)
  }

  /**
   * `Text.escape(text)`: undefined (None) for undefined, null, the empty
   * string and every non-string; otherwise the escaped string.
   */
  function EscapeText(text: Option<Json>): (r: Option<string>)
    ensures r.Some? <==> text.Some? && text.value.JStr? && text.value.s != ""
  {
    if text.Some? && text.value.JStr? && text.value.s != "" then Some(EscapeChars(text.value.s)) else None
  }

  /** `Text.escape` applied to a string. */
  function EscapeString(s: string): Option<string> {
    EscapeText(Some(JStr(s)))
  }

  /**
   * `TextUtils.sanitize(text)`: "" for undefined and null, any other
   * non-string unchanged, a string escaped ("" stays "").
   */
  function Sanitize(text: Option<Json>): (r: Json)
    ensures Nullish(text) ==> r == JStr("")
    ensures text.Some? && !text.value.JNull? && !text.value.JStr? ==> r == text.value
    ensures text.Some? && text.value.JStr? ==> r == JStr(EscapeChars(text.value.s))
  {
    if Nullish(text) then JStr("")
    else if text.value.JStr? then JStr(EscapeChars(text.value.s))
    else text.value
  }

  /** `Text.escapeLines(lines)`: throws unless `lines` is an array. */
  function EscapeLines(lines: Json): (r: Result<seq<Option<string>>>)
    ensures lines.JArr? <==> r.Ok?
    ensures r.Ok? ==> |r.value| == |lines.items| &&
                      forall i :: 0 <= i < |r.value| ==> r.value[i] == EscapeText(Some(lines.items[i]))
  {
    if lines.JArr? then Ok(seq(|lines.items|, i requires 0 <= i < |lines.items| => EscapeText(Some(lines.items[i]))))
    else Err(Error("lines must be string[]"))
  }

  /** `TextUtils.sanitizeLines(lines)`: throws unless `lines` is an array. */
  function SanitizeLines(lines: Json): (r: Result<seq<Json>>)
    ensures lines.JArr? <==> r.Ok?
    ensures r.Ok? ==> |r.value| == |lines.items| &&
                      forall i :: 0 <= i < |r.value| ==> r.value[i] == Sanitize(Some(lines.items[i]))
  {
    if lines.JArr? then Ok(seq(|lines.items|, i requires 0 <= i < |lines.items| => Sanitize(Some(lines.items[i]))))
    else Err(Error("lines must be string[]"))
  }

  // ---------------------------------------------------------------------
  // The escaping loop as the source writes it

  /**
   * The loop shared by `Text.escape` and `TextUtils.sanitize` once `text`
   * is known to be a string: for each table entry whose character occurs,
   * replace all occurrences.
   */
  method ReplaceUnsafe(text: string) returns (result: string)
    ensures result == EscapeChars(text)
  {
    result := text;
    MapStageZero(text);
    var i := 0;
    while i < |Unsafe|
      invariant 0 <= i <= |Unsafe|
      invariant result == MapStage(text, i)
    {
      var (k, v) := Unsafe[i];
      if k in result {
        result := ReplaceAll(result, k, v);
        StageStep(text, i);
      } else {
        AbsentStep(text, i);
      }
      i := i + 1;
    }
    MapStageFull(text);
  }

  /** `Text.escape(text)` */
  method Escape(text: Option<Json>) returns (r: Option<string>)
    ensures r == EscapeText(text)
  {
    if !TruthyOpt(text) || !text.value.JStr? {
      return None;
    }
    var s := ReplaceUnsafe(text.value.s);
    r := Some(s);
  }

  /** `TextUtils.sanitize(text)` */
  method SanitizeValue(text: Option<Json>) returns (r: Json)
    ensures r == Sanitize(text)
  {
    if Nullish(text) {
      return JStr("");
    }
    if !text.value.JStr? {
      return text.value;
    }
    var s := ReplaceUnsafe(text.value.s);
    r := JStr(s);
  }

  // ---------------------------------------------------------------------
  // Lemmas behind the loop

  lemma {:induction false} MapStageZero(s: string)
    ensures MapStage(s, 0) == s
  {
    if s != [] { MapStageZero(s[1..]); }
  }

  lemma {:induction false} MapStageFull(s: string)
    ensures MapStage(s, 4) == EscapeChars(s)
  {
    if s != [] { MapStageFull(s[1..]); }
  }

  lemma {:induction false} ReplaceAllConcat(a: string, b: string, c: char, r: string)
    ensures ReplaceAll(a + b, c, r) == ReplaceAll(a, c, r) + ReplaceAll(b, c, r)
  {
    if a == [] {
      assert a + b == b;
    } else {
      assert (a + b)[1..] == a[1..] + b;
      ReplaceAllConcat(a[1..], b, c, r);
    }
  }

  lemma {:induction false} ReplaceAllAbsent(s: string, c: char, r: string)
    requires c !in s
    ensures ReplaceAll(s, c, r) == s
  {
    if s != [] { ReplaceAllAbsent(s[1..], c, r); }
  }

  /** Replacing entry `i` turns stage `i` of one character into stage `i + 1`. */
  lemma StageCharStep(ch: char, i: nat)
    requires i < |Unsafe|
    ensures ReplaceAll(Stage(ch, i), Unsafe[i].0, Unsafe[i].1) == Stage(ch, i + 1)
  {
    var st := Stage(ch, i);
    if |st| == 1 {
      assert st == [ch];
      assert ReplaceAll(st, Unsafe[i].0, Unsafe[i].1) ==
        (if ch == Unsafe[i].0 then Unsafe[i].1 else [ch]) + ReplaceAll([], Unsafe[i].0, Unsafe[i].1);
    } else {
      assert Unsafe[i].0 !in st;
      ReplaceAllAbsent(st, Unsafe[i].0, Unsafe[i].1);
    }
  }

  lemma {:induction false} StageStep(s: string, i: nat)
    requires i < |Unsafe|
    ensures ReplaceAll(MapStage(s, i), Unsafe[i].0, Unsafe[i].1) == MapStage(s, i + 1)
  {
    if s != [] {
      ReplaceAllConcat(Stage(s[0], i), MapStage(s[1..], i), Unsafe[i].0, Unsafe[i].1);
      StageCharStep(s[0], i);
      StageStep(s[1..], i);
    }
  }

  /** When entry `i`'s character does not occur, stage `i + 1` equals stage `i`. */
  lemma {:induction false} AbsentStep(s: string, i: nat)
    requires i < |Unsafe|
    requires Unsafe[i].0 !in MapStage(s, i)
    ensures MapStage(s, i) == MapStage(s, i + 1)
  {
    ReplaceAllAbsent(MapStage(s, i), Unsafe[i].0, Unsafe[i].1);
    StageStep(s, i);
  }

  // ---------------------------------------------------------------------
  // Properties of the escapers

  lemma SafeConcat(a: string, b: string)
    requires Safe(a) && Safe(b)
    ensures Safe(a + b)
  {
    forall i | 0 <= i < |a + b| ensures !IsUnsafe((a + b)[i]) {
      if i >= |a| { assert (a + b)[i] == b[i - |a|]; }
    }
  }

  /** The escaped text contains none of `<`, `>`, `"`, `'`. */
  lemma {:induction false} EscapeCharsSafe(s: string)
    ensures Safe(EscapeChars(s))
  {
    if s != [] {
      EscapeCharsSafe(s[1..]);
      SafeConcat(EntityFor(s[0]), EscapeChars(s[1..]));
    }
  }

  /** Text without the four characters is left as it is. */
  lemma {:induction false} EscapeCharsSafeIdentity(s: string)
    requires Safe(s)
    ensures EscapeChars(s) == s
  {
    if s != [] {
      assert !IsUnsafe(s[0]);
      assert Safe(s[1..]) by {
        forall i | 0 <= i < |s[1..]| ensures !IsUnsafe(s[1..][i]) { assert s[1..][i] == s[i + 1]; }
      }
      EscapeCharsSafeIdentity(s[1..]);
    }
  }

  /** Escaping twice is escaping once: the entities hold no character that is escaped and `&` is kept. */
  lemma EscapeCharsIdempotent(s: string)
    ensures EscapeChars(EscapeChars(s)) == EscapeChars(s)
  {
    EscapeCharsSafe(s);
    EscapeCharsSafeIdentity(EscapeChars(s));
  }

  /** For a non-empty string, Text.escape is idempotent. */
  lemma EscapeTextIdempotent(s: string)
    requires s != ""
    ensures EscapeText(Some(JStr(s))).Some?
    ensures EscapeText(Some(JStr(EscapeText(Some(JStr(s))).value))) == EscapeText(Some(JStr(s)))
  {
    EscapeCharsIdempotent(s);
    EscapeCharsLength(s);
  }

  /** TextUtils.sanitize is idempotent on every value. */
  lemma SanitizeIdempotent(v: Option<Json>)
    ensures Sanitize(Some(Sanitize(v))) == Sanitize(v)
  {
    if v.Some? && v.value.JStr? {
      EscapeCharsIdempotent(v.value.s);
    }
  }

  function Count(s: string, c: char): nat {
    if s == [] then 0 else (if s[0] == c then 1 else 0) + Count(s[1..], c)
  }

  /** Each `<` or `>` adds 3 characters, each `"` adds 5, each `'` adds 4. */
  lemma {:induction false} EscapeCharsLength(s: string)
    ensures |EscapeChars(s)| ==
      |s| + 3 * Count(s, '<') + 3 * Count(s, '>') + 5 * Count(s, '"') + 4 * Count(s, '\'')
  {
    if s != [] { EscapeCharsLength(s[1..]); }
  }

  /** Escaping distributes over concatenation (it works character by character). */
  lemma {:induction false} EscapeCharsConcat(a: string, b: string)
    ensures EscapeChars(a + b) == EscapeChars(a) + EscapeChars(b)
  {
    if a == [] {
      assert a + b == b;
    } else {
      assert (a + b)[1..] == a[1..] + b;
      EscapeCharsConcat(a[1..], b);
    }
  }

  /** Text.escape leaves the text alone exactly when it has none of the four characters. */
  lemma {:induction false} EscapeCharsUnchangedIff(s: string)
    ensures EscapeChars(s) == s <==> Safe(s)
  {
    if Safe(s) {
      EscapeCharsSafeIdentity(s);
    } else {
      UnsafeCounted(s);
      EscapeCharsLength(s);
      assert |EscapeChars(s)| > |s|;
    }
  }

  lemma {:induction false} UnsafeCounted(s: string)
    requires !Safe(s)
    ensures Count(s, '<') + Count(s, '>') + Count(s, '"') + Count(s, '\'') > 0
  {
    if !IsUnsafe(s[0]) {
      assert !Safe(s[1..]) by {
        var i :| 0 <= i < |s| && IsUnsafe(s[i]);
        assert s[1..][i - 1] == s[i];
      }
      UnsafeCounted(s[1..]);
    }
  }
}
