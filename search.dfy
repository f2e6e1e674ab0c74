/**
 * The query-string parser `Search` (js/utils/Search.mjs, and the earlier
 * copy at the top of js/utils.mjs). It drops the leading `?` of
 * `location.search`, splits the rest at `&`, matches each piece against
 * `(?<k>\w+)(?:=(?<v>.*))?` and assigns `pairs[k] = v ?? true` on a plain
 * object. Nothing is percent-decoded. The location string is a parameter.
 */
module QueryString {
  import opened JsValues

  /** `\w`: ASCII letters, digits and the underscore. */
  predicate IsWordChar(c: char) {
    ('a' <= c <= 'z') || ('A' <= c <= 'Z') || ('0' <= c <= '9') || c == '_'
  }

  /** The characters `.` does not match without the `s` flag. */
  predicate IsLineTerminator(c: char) {
    c == '\n' || c == '\r' || c as int == 0x2028 || c as int == 0x2029
  }

  // ---------------------------------------------------------------------
  // String.prototype.split("&")

  /** `s.split("&")`: the pieces between separators, at least one. */
  function Split(s: string): (r: seq<string>)
    ensures |r| >= 1
    ensures forall i :: 0 <= i < |r| ==> '&' !in r[i]
  {
    if s == [] then [""]
    else if s[0] == '&' then [""] + Split(s[1..])
    else
      var rest := Split(s[1..]);
      [[s[0]] + rest[0]] + rest[1..]
  }

  lemma {:induction false} JoinCons(a: string, parts: seq<string>, sep: string)
    requires parts != []
    ensures Join([a] + parts, sep) == a + sep + Join(parts, sep)
    decreases |parts|
  {
    if |parts| == 1 {
      assert [a] + parts == [a, parts[0]];
    } else {
      var init := parts[..|parts| - 1];
      assert ([a] + parts)[..|parts|] == [a] + init;
      JoinCons(a, init, sep);
    }
  }

  /** Splitting at `&` and joining with `&` gives the text back. */
  lemma {:induction false} SplitJoin(s: string)
    ensures Join(Split(s), "&") == s
  {
    if s != [] {
      var rest := Split(s[1..]);
      SplitJoin(s[1..]);
      if s[0] == '&' {
        JoinCons("", rest, "&");
      } else if |rest| == 1 {
        assert Split(s) == [[s[0]] + rest[0]];
      } else {
        assert rest == [rest[0]] + rest[1..];
        JoinCons(rest[0], rest[1..], "&");
        JoinCons([s[0]] + rest[0], rest[1..], "&");
      }
    }
  }

  // ---------------------------------------------------------------------
  // The regular expression

  /** What `.groups` holds after a successful match: `k`, and `v` when `=` followed. */
  datatype Groups = Groups(k: string, v: Option<string>)

  /** End of the run of word characters starting at `i`. */
  function WordEnd(p: string, i: nat): (e: nat)
    requires i <= |p|
    ensures i <= e <= |p|
    ensures i < |p| && IsWordChar(p[i]) ==> e > i
    decreases |p| - i
  {
    if i < |p| && IsWordChar(p[i]) then WordEnd(p, i + 1) else i
  }

  /** `\w+` is greedy: the run holds only word characters and stops before a non-word one. */
  lemma {:induction false} WordEndSpec(p: string, i: nat)
    requires i <= |p|
    ensures forall j :: i <= j < WordEnd(p, i) ==> IsWordChar(p[j])
    ensures WordEnd(p, i) < |p| ==> !IsWordChar(p[WordEnd(p, i)])
    decreases |p| - i
  {
    if i < |p| && IsWordChar(p[i]) {
      WordEndSpec(p, i + 1);
    }
  }

  /** What `.*` takes: everything up to the first line terminator. */
  function LineText(s: string): (r: string)
    ensures |r| <= |s|
  {
    if s == [] || IsLineTerminator(s[0]) then [] else [s[0]] + LineText(s[1..])
  }

  /** `.*` takes a prefix free of line terminators, stopping only at one or at the end. */
  lemma {:induction false} LineTextSpec(s: string)
    ensures LineText(s) == s[..|LineText(s)|]
    ensures forall j :: 0 <= j < |LineText(s)| ==> !IsLineTerminator(s[j])
    ensures |LineText(s)| < |s| ==> IsLineTerminator(s[|LineText(s)|])
  {
    if s != [] && !IsLineTerminator(s[0]) {
      LineTextSpec(s[1..]);
    }
  }

  /** Where the unanchored search first finds a word character, at `i` or later. */
  function FirstWord(p: string, i: nat): (r: Option<nat>)
    requires i <= |p|
    ensures r.Some? ==> i <= r.value < |p| && IsWordChar(p[r.value])
    decreases |p| - i
  {
    if i == |p| then None
    else if IsWordChar(p[i]) then Some(i)
    else FirstWord(p, i + 1)
  }

  /** The search finds `m` when `m` is the first word character from `i` on. */
  lemma {:induction false} FirstWordAt(p: string, i: nat, m: nat)
    requires i <= m < |p| && IsWordChar(p[m])
    requires forall j :: i <= j < m ==> !IsWordChar(p[j])
    ensures FirstWord(p, i) == Some(m)
    decreases m - i
  {
    if i < m {
      FirstWordAt(p, i + 1, m);
    }
  }

  /** The search finds nothing exactly when no character from `i` on is a word character. */
  lemma {:induction false} FirstWordNone(p: string, i: nat)
    requires i <= |p|
    ensures FirstWord(p, i).None? <==> forall j :: i <= j < |p| ==> !IsWordChar(p[j])
    decreases |p| - i
  {
    if i < |p| && !IsWordChar(p[i]) {
      FirstWordNone(p, i + 1);
    }
  }

  /** The groups of a match that starts at `i`: the word run there, then `=` and the rest of the line if present. */
  function MatchAt(p: string, i: nat): (g: Groups)
    requires i < |p| && IsWordChar(p[i])
    ensures |g.k| > 0
  {
    var e := WordEnd(p, i);
    if e < |p| && p[e] == '=' then Groups(p[i..e], Some(LineText(p[e + 1..])))
    else Groups(p[i..e], None)
  }

  /** `p.match(/(?<k>\w+)(?:=(?<v>.*))?/)`: null, or the groups of the first match. */
  function MatchPiece(p: string): Option<Groups> {
    var start := FirstWord(p, 0);
    if start.None? then None else Some(MatchAt(p, start.value))
  }

  /** The match is null exactly when the piece has no word character. */
  lemma MatchPieceNull(p: string)
    ensures MatchPiece(p).None? <==> forall j :: 0 <= j < |p| ==> !IsWordChar(p[j])
  {
    FirstWordNone(p, 0);
  }

  /** The unanchored search settles on the first word character of the piece. */
  lemma MatchPieceSpec(p: string, i: nat)
    requires i < |p| && IsWordChar(p[i])
    requires forall j :: 0 <= j < i ==> !IsWordChar(p[j])
    ensures MatchPiece(p) == Some(MatchAt(p, i))
  {
    FirstWordAt(p, 0, i);
  }

  /** Text without a line terminator is taken whole by `.*`. */
  lemma {:induction false} LineTextWhole(s: string)
    requires forall j :: 0 <= j < |s| ==> !IsLineTerminator(s[j])
    ensures LineText(s) == s
  {
    if s != [] {
      LineTextWhole(s[1..]);
    }
  }

  /** Text without `&` splits into itself alone. */
  lemma {:induction false} SplitWhole(s: string)
    requires '&' !in s
    ensures Split(s) == [s]
  {
    if s != [] {
      SplitWhole(s[1..]);
      assert [s[0]] + s[1..] == s;
    }
  }

  // ---------------------------------------------------------------------
  // The loop and its specification

  /** `pairs[k] = value` on a plain object: `__proto__` runs the inherited setter, which ignores a primitive. */
  function Assign(pairs: seq<Field>, k: string, value: Json): seq<Field> {
    if k == "__proto__" then pairs else Define(pairs, k, value)
  }

  /** `v ?? true` */
  function PieceValue(g: Groups): (r: Json)
    ensures g.v.Some? ==> r == JStr(g.v.value)
    ensures g.v.None? ==> r == JBool(true)
  {
    if g.v.Some? then JStr(g.v.value) else JBool(true)
  }

  /** The object after the loop has visited `pieces`; a piece that does not match throws. */
  function SearchPairs(pieces: seq<string>): (r: Result<seq<Field>>)
  {
    if pieces == [] then Ok([])
    else
      var prior := SearchPairs(pieces[..|pieces| - 1]);
      var m := MatchPiece(pieces[|pieces| - 1]);
      if prior.Err? then prior
      else if m.None? then Err(TypeError)
      else Ok(Assign(prior.value, m.value.k, PieceValue(m.value)))
  }

  /** `location.search.substring(1)` */
  function QueryText(location: string): string {
    if location == [] then [] else location[1..]
  }

  /** The `Search` object for a given `location.search`. */
  function Search(location: string): Result<seq<Field>> {
    var data := QueryText(location);
    if data == [] then Ok([]) else SearchPairs(Split(data))
  }

  /** The parsing loop, proved against `Search`. */
  method ParseSearch(location: string) returns (r: Result<seq<Field>>)
    ensures r == Search(location)
  {
    var data := if |location| == 0 then "" else location[1..];
    if |data| == 0 {
      return Ok([]);
    }
    var pieces := Split(data);
    var pairs: seq<Field> := [];
    var i := 0;
    while i < |pieces|
      invariant 0 <= i <= |pieces|
      invariant SearchPairs(pieces[..i]) == Ok(pairs)
    {
      var m := MatchPiece(pieces[i]);
      SearchStep(pieces, i);
      if m.None? {
        ErrorPersists(pieces, i + 1);
        return Err(TypeError);
      }
      var value := if m.value.v.Some? then JStr(m.value.v.value) else JBool(true);
      pairs := if m.value.k == "__proto__" then pairs else Define(pairs, m.value.k, value);
      i := i + 1;
    }
    assert pieces[..i] == pieces;
    return Ok(pairs);
  }

  /** One more piece: it throws when it does not match, and is assigned otherwise. */
  lemma SearchStep(pieces: seq<string>, i: nat)
    requires i < |pieces|
    ensures var prior, m := SearchPairs(pieces[..i]), MatchPiece(pieces[i]);
      SearchPairs(pieces[..i + 1]) ==
        if prior.Err? then prior
        else if m.None? then Err(TypeError)
        else Ok(Assign(prior.value, m.value.k, PieceValue(m.value)))
  {
    assert pieces[..i + 1][..i] == pieces[..i];
  }

  /** Once a piece has thrown, the whole parse throws. */
  lemma {:induction false} ErrorPersists(pieces: seq<string>, i: nat)
    requires i <= |pieces| && SearchPairs(pieces[..i]).Err?
    ensures SearchPairs(pieces) == SearchPairs(pieces[..i])
    decreases |pieces| - i
  {
    if i < |pieces| {
      assert pieces[..i + 1][..i] == pieces[..i];
      ErrorPersists(pieces, i + 1);
    } else {
      assert pieces[..i] == pieces;
    }
  }

  // ---------------------------------------------------------------------
  // Properties

  /** Every piece has a match. */
  predicate AllMatch(pieces: seq<string>) {
    forall i :: 0 <= i < |pieces| ==> MatchPiece(pieces[i]).Some?
  }

  /** The parse succeeds exactly when every piece matches; otherwise it throws a TypeError. */
  lemma {:induction false} SearchPairsThrows(pieces: seq<string>)
    ensures SearchPairs(pieces).Ok? <==> AllMatch(pieces)
    ensures SearchPairs(pieces).Err? ==> SearchPairs(pieces) == Err(TypeError)
  {
    if pieces != [] {
      var init := pieces[..|pieces| - 1];
      SearchPairsThrows(init);
      AllMatchSnoc(pieces);
    }
  }

  lemma AllMatchSnoc(pieces: seq<string>)
    requires pieces != []
    ensures AllMatch(pieces) <==> AllMatch(pieces[..|pieces| - 1]) && MatchPiece(pieces[|pieces| - 1]).Some?
  {
    var init := pieces[..|pieces| - 1];
    assert forall i :: 0 <= i < |init| ==> init[i] == pieces[i];
  }

  /** The value the last piece whose key is `k` assigned, if any. */
  function LastAssigned(pieces: seq<string>, k: string): Option<Json> {
    if pieces == [] then None
    else
      var m := MatchPiece(pieces[|pieces| - 1]);
      if m.Some? && m.value.k == k then Some(PieceValue(m.value))
      else LastAssigned(pieces[..|pieces| - 1], k)
  }

  /** Every key reads the value of the last piece naming it: later duplicates win. */
  lemma {:induction false} SearchPairsGet(pieces: seq<string>, k: string)
    requires SearchPairs(pieces).Ok? && k != "__proto__"
    ensures Get(SearchPairs(pieces).value, k) == LastAssigned(pieces, k)
  {
    if pieces != [] {
      var init := pieces[..|pieces| - 1];
      SearchPairsGet(init, k);
      var m := MatchPiece(pieces[|pieces| - 1]);
      if m.value.k != "__proto__" {
        GetDefine(SearchPairs(init).value, m.value.k, PieceValue(m.value), k);
      }
    }
  }

  /** A `__proto__` piece never becomes an own key. */
  lemma {:induction false} SearchPairsNoProto(pieces: seq<string>)
    requires SearchPairs(pieces).Ok?
    ensures !HasKey(SearchPairs(pieces).value, "__proto__")
  {
    if pieces != [] {
      var init := pieces[..|pieces| - 1];
      SearchPairsNoProto(init);
      var m := MatchPiece(pieces[|pieces| - 1]);
      if m.value.k != "__proto__" {
        GetDefine(SearchPairs(init).value, m.value.k, PieceValue(m.value), "__proto__");
      }
    }
  }

  /** With no query, or only the `?`, the result is the empty object. */
  lemma EmptyQuery(location: string)
    requires |location| <= 1
    ensures Search(location) == Ok([])
  {
  }

  /** A query of one piece `k=v`: the value is everything after the first `=`, further `=` included. */
  lemma OnePair(k: string, v: string)
    requires |k| > 0 && k != "__proto__" && forall j :: 0 <= j < |k| ==> IsWordChar(k[j])
    requires '&' !in v && forall j :: 0 <= j < |v| ==> !IsLineTerminator(v[j])
    ensures Search("?" + k + "=" + v) == Ok([Field(k, JStr(v))])
  {
    var p := k + "=" + v;
    OnePiece(k, v);
    PairMatch(k, v);
    SinglePiece(p, Groups(k, Some(v)));
    assert Define([], k, JStr(v)) == [Field(k, JStr(v))];
  }

  /** A query `?k=v` with no `&` in it is a single piece. */
  lemma OnePiece(k: string, v: string)
    requires '&' !in k && '&' !in v
    ensures Search("?" + k + "=" + v) == SearchPairs([k + "=" + v])
  {
    var p := k + "=" + v;
    assert QueryText("?" + k + "=" + v) == p;
    assert '&' !in p by {
      assert forall j :: 0 <= j < |k| ==> p[j] == k[j];
      assert forall j :: |k| < j < |p| ==> p[j] == v[j - |k| - 1];
    }
    SplitWhole(p);
  }

  /** `k=v` matches with key `k` and value `v` when `k` is all word characters and `v` one line. */
  lemma PairMatch(k: string, v: string)
    requires |k| > 0 && forall j :: 0 <= j < |k| ==> IsWordChar(k[j])
    requires forall j :: 0 <= j < |v| ==> !IsLineTerminator(v[j])
    ensures MatchPiece(k + "=" + v) == Some(Groups(k, Some(v)))
  {
    var p := k + "=" + v;
    assert p[|k|] == '=';
    assert forall j :: 0 <= j < |k| ==> p[j] == k[j];
    WordRun(p, 0, |k|);
    assert p[0..|k|] == k;
    assert p[|k| + 1..] == v;
    LineTextWhole(v);
    MatchPieceSpec(p, 0);
  }

  /** A single matching piece assigns its one key. */
  lemma SinglePiece(p: string, g: Groups)
    requires MatchPiece(p) == Some(g)
    ensures SearchPairs([p]) == Ok(Assign([], g.k, PieceValue(g)))
  {
    assert [p][..0] == [];
  }

  /** WordEnd stops at the first non-word character after a run of word characters. */
  lemma {:induction false} WordRun(p: string, i: nat, e: nat)
    requires i <= e <= |p| && forall j :: i <= j < e ==> IsWordChar(p[j])
    ensures WordEnd(p, i) == WordEnd(p, e)
    decreases e - i
  {
    if i < e {
      WordRun(p, i + 1, e);
    }
  }

  /** `?a=b=c` gives `a` the value `b=c`. */
  lemma ValueKeepsEquals()
    ensures Search("?a=b=c") == Ok([Field("a", JStr("b=c"))])
  {
    OnePair("a", "b=c");
    assert "?" + "a" + "=" + "b=c" == "?a=b=c";
  }

  /** `?-x=1`: the key regex is not anchored, so the leading `-` is skipped. */
  lemma UnanchoredKey()
    ensures Search("?-x=1") == Ok([Field("x", JStr("1"))])
  {
    var p: string := "-x=1";
    assert QueryText("?-x=1") == p;
    SplitWhole(p);
    assert MatchAt(p, 1) == Groups("x", Some("1")) by {
      assert WordEnd(p, 1) == 2;
      assert p[1..2] == "x";
      assert p[3..] == "1";
      LineTextWhole("1");
    }
    MatchPieceSpec(p, 1);
    assert SearchPairs([p]) == Ok(Assign([], "x", JStr("1"))) by {
      assert [p][..0] == [];
    }
    assert Define([], "x", JStr("1")) == [Field("x", JStr("1"))];
  }

  /** `?a-b=1`: the key stops at `-`, and no `=` follows it, so `a` is `true`. */
  lemma KeyStopsAtNonWord()
    ensures Search("?a-b=1") == Ok([Field("a", JBool(true))])
  {
    var p: string := "a-b=1";
    assert QueryText("?a-b=1") == p;
    SplitWhole(p);
    assert MatchAt(p, 0) == Groups("a", None) by {
      assert WordEnd(p, 0) == 1;
      assert p[0..1] == "a";
    }
    MatchPieceSpec(p, 0);
    assert SearchPairs([p]) == Ok(Assign([], "a", JBool(true))) by {
      assert [p][..0] == [];
    }
    assert Define([], "a", JBool(true)) == [Field("a", JBool(true))];
  }

  /** `?a&&b`: the empty middle piece does not match, and reading `.groups` of null throws. */
  lemma EmptyPieceThrows()
    ensures Search("?a&&b") == Err(TypeError)
  {
    var data: string := "a&&b";
    assert QueryText("?a&&b") == data;
    assert Split(data) == ["a", "", "b"] by {
      var s1, s2, s3 := data[1..], data[2..], data[3..];
      assert s3 == "b" && s2 == ['&'] + s3 && s1 == ['&'] + s2;
      SplitWhole(s3);
      assert Split(s2) == ["", "b"];
      assert Split(s1) == ["", "", "b"];
      assert Split(data) == [['a'] + ""] + ["", "b"];
      assert ['a'] + "" == "a";
    }
    assert MatchPiece("").None?;
    SearchPairsThrows(["a", "", "b"]);
    assert !AllMatch(["a", "", "b"]) by {
      assert ["a", "", "b"][1] == "";
    }
  }
}
