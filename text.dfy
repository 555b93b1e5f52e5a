/** Text primitives: ASCII case folding with substring search (the `icontains` lookup and
    `str.lower`), and the JavaScript `String.prototype.trim` used by the client's search boxes. */
module Text {
  import opened Results

  /** A parameter that Python treats as true: present and not empty. */
  predicate Given(s: Option<string>) {
    s.Some? && s.value != ""
  }

  /** ASCII lower-casing of one character; every other character is left as it is. */
  function LowerChar(c: char): (r: char)
    ensures 'A' <= c <= 'Z' ==> 'a' <= r <= 'z' && r as int == c as int + 32
    ensures !('A' <= c <= 'Z') ==> r == c
  {
    if 'A' <= c <= 'Z' then (c as int + 32) as char else c
  }

  function Lower(s: string): (r: string)
    ensures |r| == |s|
    ensures forall i :: 0 <= i < |s| ==> r[i] == LowerChar(s[i])
    ensures forall i :: 0 <= i < |r| ==> !('A' <= r[i] <= 'Z')
  {
    seq(|s|, i requires 0 <= i < |s| => LowerChar(s[i]))
  }

  /** Lower-casing twice changes nothing more. */
  lemma LowerIdempotent(s: string)
    ensures Lower(Lower(s)) == Lower(s)
  {
  }

  /** `t` occurs in `s` starting at position `i`. */
  ghost predicate OccursAt(s: string, t: string, i: int) {
    0 <= i && i + |t| <= |s| && s[i..i + |t|] == t
  }

  predicate IsPrefix(t: string, s: string) {
    |t| <= |s| && s[..|t|] == t
  }

  /** `t` is a substring of `s` (Python's `t in s`, SQL's `LIKE '%t%'`). */
  predicate Contains(s: string, t: string)
    decreases |s|
  {
    IsPrefix(t, s) || (s != [] && Contains(s[1..], t))
  }

  /** `Contains` finds exactly the positions where `t` occurs. */
  lemma {:induction false} ContainsIffOccurs(s: string, t: string)
    ensures Contains(s, t) <==> exists i :: OccursAt(s, t, i)
    decreases |s|
  {
    if IsPrefix(t, s) {
      assert OccursAt(s, t, 0);
    } else if s == [] {
      assert forall i :: OccursAt(s, t, i) ==> i == 0 && t == [];
    } else {
      ContainsIffOccurs(s[1..], t);
      if exists i :: OccursAt(s, t, i) {
        var i :| OccursAt(s, t, i);
        assert i != 0;
        assert s[1..][i - 1..i - 1 + |t|] == s[i..i + |t|];
        assert OccursAt(s[1..], t, i - 1);
      }
      if exists i :: OccursAt(s[1..], t, i) {
        var i :| OccursAt(s[1..], t, i);
        assert s[1..][i..i + |t|] == s[i + 1..i + 1 + |t|];
        assert OccursAt(s, t, i + 1);
      }
    }
  }

  /** Case-insensitive containment: Django's `icontains` lookup, with ASCII case folding. */
  predicate IContains(s: string, t: string) {
    Contains(Lower(s), Lower(t))
  }

  /** `icontains` ignores the case of both sides. */
  lemma IContainsIgnoresCase(s: string, t: string)
    ensures IContains(Lower(s), t) == IContains(s, t)
    ensures IContains(s, Lower(t)) == IContains(s, t)
  {
    LowerIdempotent(s);
    LowerIdempotent(t);
  }

  /** The characters JavaScript's `trim` removes: WhiteSpace and LineTerminator of ECMA-262
      (tab, line feed, vertical tab, form feed, carriage return, space, the Zs category, line
      and paragraph separators, and the byte order mark). */
  predicate IsJsWhitespace(c: char) {
    ('\U{9}' <= c <= '\U{D}') || c == ' ' || c == '\U{A0}' || c == '\U{1680}'
    || ('\U{2000}' <= c <= '\U{200A}') || c == '\U{2028}' || c == '\U{2029}' || c == '\U{202F}'
    || c == '\U{205F}' || c == '\U{3000}' || c == '\U{FEFF}'
  }

  /** The characters Python's `str.strip()` removes, those for which `str.isspace()` holds:
      tab to carriage return, the four information separators, space, next line, and the
      Zs, line and paragraph separators. Unlike JavaScript, no byte order mark. */
  predicate IsPyWhitespace(c: char) {
    ('\U{9}' <= c <= '\U{D}') || ('\U{1C}' <= c <= ' ') || c == '\U{85}' || c == '\U{A0}'
    || c == '\U{1680}' || ('\U{2000}' <= c <= '\U{200A}') || c == '\U{2028}' || c == '\U{2029}'
    || c == '\U{202F}' || c == '\U{205F}' || c == '\U{3000}'
  }

  const JsWhitespace: set<char> := set c: char | IsJsWhitespace(c)

  const PyWhitespace: set<char> := set c: char | IsPyWhitespace(c)

  predicate AllWhitespace(s: string, ws: set<char>) {
    forall i :: 0 <= i < |s| ==> s[i] in ws
  }

  /** Drops leading whitespace: the result is a suffix of `s` preceded only by whitespace,
      and does not itself start with whitespace. */
  function TrimStart(s: string, ws: set<char>): (r: string)
    ensures |r| <= |s| && r == s[|s| - |r|..]
    ensures AllWhitespace(s[..|s| - |r|], ws)
    ensures r == [] || r[0] !in ws
  {
    if s != [] && s[0] in ws then TrimStart(s[1..], ws) else s
  }

  /** Drops trailing whitespace: the result is a prefix of `s` followed only by whitespace,
      and does not itself end with whitespace. */
  function TrimEnd(s: string, ws: set<char>): (r: string)
    ensures |r| <= |s| && r == s[..|r|]
    ensures AllWhitespace(s[|r|..], ws)
    ensures r == [] || r[|r| - 1] !in ws
  {
    if s != [] && s[|s| - 1] in ws then TrimEnd(s[..|s| - 1], ws) else s
  }

  /** Trimming both ends. */
  function TrimBoth(s: string, ws: set<char>): string {
    TrimEnd(TrimStart(s, ws), ws)
  }

  /** JavaScript's `s.trim()`. */
  function Trim(s: string): string {
    TrimBoth(s, JsWhitespace)
  }

  /** Python's `s.strip()`, which Django REST framework applies to every `CharField` input. */
  function Strip(s: string): string {
    TrimBoth(s, PyWhitespace)
  }

  /** `!query.trim()`: the query is empty once trimmed. */
  predicate IsBlank(s: string) {
    Trim(s) == []
  }

  /** Trimming leaves nothing exactly when every character is whitespace: `""` and `"   "`
      are blank, and any text with a visible character is not. */
  lemma BlankIffAllWhitespace(s: string, ws: set<char>)
    ensures TrimBoth(s, ws) == [] <==> AllWhitespace(s, ws)
  {
    if TrimBoth(s, ws) == [] {
      BlankIsWhitespace(s, ws);
    }
  }

  /** Nothing left after trimming: the start was not trimmed to a visible character, so it
      was trimmed to nothing, and everything it dropped is whitespace. */
  lemma BlankIsWhitespace(s: string, ws: set<char>)
    requires TrimBoth(s, ws) == []
    ensures AllWhitespace(s, ws)
  {
    var a := TrimStart(s, ws);
    assert AllWhitespace(a[0..], ws) && a[0..] == a;
    assert a == [];
    assert s[..|s|] == s;
  }

  /** Trimming twice trims no more. */
  lemma TrimBothIdempotent(s: string, ws: set<char>)
    ensures TrimBoth(TrimBoth(s, ws), ws) == TrimBoth(s, ws)
  {
    var a := TrimStart(s, ws);
    var r := TrimEnd(a, ws);
    assert r == [] || r[0] == a[0];
    assert TrimStart(r, ws) == r;
  }
}
