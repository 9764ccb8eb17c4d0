/** The few pieces of Go's `strings` package that the token store relies on:
    `TrimSpace`, `Contains` (through `Index`), `HasPrefix`, `HasSuffix` and
    `Replace(s, old, new, 1)`. Strings are sequences of Unicode scalar values. */
module Text {
  import opened Results

  /** Go's `unicode.IsSpace`: the Latin-1 spaces plus the Unicode White_Space
      property. */
  predicate IsSpace(c: char) {
    || c == '\t' || c == '\n' || c == '\U{000B}' || c == '\U{000C}' || c == '\r' || c == ' '
    || c == '\U{0085}' || c == '\U{00A0}' || c == '\U{1680}'
    || ('\U{2000}' <= c <= '\U{200A}')
    || c == '\U{2028}' || c == '\U{2029}' || c == '\U{202F}' || c == '\U{205F}' || c == '\U{3000}'
  }

  ghost predicate AllSpace(s: string) {
    forall i | 0 <= i < |s| :: IsSpace(s[i])
  }

  /** `s` with its leading white space removed. */
  function TrimLeft(s: string): string {
    if s != [] && IsSpace(s[0]) then TrimLeft(s[1..]) else s
  }

  /** `TrimLeft` removes a run of white space from the front and stops at
      the first character that is not white space. */
  lemma {:induction false} TrimLeftSpec(s: string)
    ensures var r := TrimLeft(s);
            && |r| <= |s| && r == s[|s| - |r|..]
            && AllSpace(s[..|s| - |r|])
            && (r != [] ==> !IsSpace(r[0]))
  {
    if s != [] && IsSpace(s[0]) {
      TrimLeftSpec(s[1..]);
      var r := TrimLeft(s);
      assert s[1..][|s| - 1 - |r|..] == s[|s| - |r|..];
      assert forall i | 1 <= i < |s| - |r| :: s[1..][..|s| - 1 - |r|][i - 1] == s[i];
    }
  }

  /** `s` with its trailing white space removed. */
  function TrimRight(s: string): string {
    if s != [] && IsSpace(s[|s| - 1]) then TrimRight(s[..|s| - 1]) else s
  }

  /** `TrimRight` removes a run of white space from the back and stops at
      the last character that is not white space. */
  lemma {:induction false} TrimRightSpec(s: string)
    ensures var r := TrimRight(s);
            && |r| <= |s| && r == s[..|r|]
            && AllSpace(s[|r|..])
            && (r != [] ==> !IsSpace(r[|r| - 1]))
  {
    if s != [] && IsSpace(s[|s| - 1]) {
      var p := s[..|s| - 1];
      TrimRightSpec(p);
      var r := TrimRight(s);
      assert p[..|r|] == s[..|r|];
      assert forall i | |r| <= i < |s| - 1 :: p[|r|..][i - |r|] == s[i];
    }
  }

  /** `r` is what is left of `s` once some white space is cut from each end. */
  ghost predicate StripsTo(s: string, r: string) {
    exists lead: nat | lead + |r| <= |s| ::
      && s[lead..lead + |r|] == r
      && AllSpace(s[..lead])
      && AllSpace(s[lead + |r|..])
  }

  /** Go's `strings.TrimSpace`. */
  function TrimSpace(s: string): (r: string)
    ensures r != [] ==> !IsSpace(r[0]) && !IsSpace(r[|r| - 1])
  {
    TrimLeftSpec(s);
    TrimRightSpec(TrimLeft(s));
    TrimRight(TrimLeft(s))
  }

  /** Trimming only cuts white space from the two ends. */
  lemma TrimSpaceStrips(s: string)
    ensures StripsTo(s, TrimSpace(s))
  {
    TrimLeftSpec(s);
    TrimRightSpec(TrimLeft(s));
    StripsBothEnds(s, TrimLeft(s), TrimSpace(s));
  }

  lemma StripsBothEnds(s: string, left: string, r: string)
    requires |left| <= |s| && left == s[|s| - |left|..] && AllSpace(s[..|s| - |left|])
    requires |r| <= |left| && r == left[..|r|] && AllSpace(left[|r|..])
    ensures StripsTo(s, r)
  {
  }

  /** A string is its own trim exactly when it neither starts nor ends with
      white space. */
  lemma TrimSpaceFixedPoint(s: string)
    ensures TrimSpace(s) == s <==> (s == [] || (!IsSpace(s[0]) && !IsSpace(s[|s| - 1])))
  {
  }

  /** Trimming twice is trimming once. */
  lemma TrimSpaceIdempotent(s: string)
    ensures TrimSpace(TrimSpace(s)) == TrimSpace(s)
  {
  }

  /** Trimming leaves nothing exactly when the string is all white space. */
  lemma TrimSpaceBlank(s: string)
    ensures TrimSpace(s) == [] <==> AllSpace(s)
  {
    assert s[..|s|] == s;
    var left := TrimLeft(s);
    TrimLeftSpec(s);
    TrimRightSpec(left);
    if left != [] {
      assert left[0..][0] == left[0];
    }
  }

  /** `sub` occurs in `s` starting at position `i`. */
  predicate OccursAt(s: string, sub: string, i: nat) {
    i + |sub| <= |s| && s[i..i + |sub|] == sub
  }

  function IndexFrom(s: string, sub: string, from: nat): (r: Option<nat>)
    requires from <= |s|
    ensures r.Some? ==> from <= r.value && OccursAt(s, sub, r.value)
    ensures r.Some? ==> forall j: nat | from <= j < r.value :: !OccursAt(s, sub, j)
    ensures r.None? ==> forall j: nat | from <= j :: !OccursAt(s, sub, j)
    decreases |s| - from
  {
    if OccursAt(s, sub, from) then Some(from)
    else if from == |s| then None
    else IndexFrom(s, sub, from + 1)
  }

  /** Go's `strings.Index`: the first position at which `sub` occurs, if any. */
  function Index(s: string, sub: string): (r: Option<nat>)
    ensures r.Some? ==> OccursAt(s, sub, r.value)
    ensures r.Some? ==> forall j: nat | j < r.value :: !OccursAt(s, sub, j)
    ensures r.None? <==> forall j: nat :: !OccursAt(s, sub, j)
  {
    IndexFrom(s, sub, 0)
  }

  /** Go's `strings.Contains`. */
  predicate Contains(s: string, sub: string) {
    Index(s, sub).Some?
  }

  /** A string none of whose characters starts `sub` cannot contain it. */
  lemma NotContainsWithoutFirstChar(s: string, sub: string)
    requires sub != []
    requires forall i | 0 <= i < |s| :: s[i] != sub[0]
    ensures !Contains(s, sub)
  {
    forall j: nat ensures !OccursAt(s, sub, j) {
      if j + |sub| <= |s| {
        assert s[j..j + |sub|][0] == s[j] != sub[0];
      }
    }
  }

  /** Go's `strings.HasPrefix`. */
  predicate HasPrefix(s: string, prefix: string) {
    |prefix| <= |s| && s[..|prefix|] == prefix
  }

  /** Go's `strings.HasSuffix`. */
  predicate HasSuffix(s: string, suffix: string) {
    |suffix| <= |s| && s[|s| - |suffix|..] == suffix
  }

  /** Go's `strings.Replace(s, pattern, replacement, 1)`: the first occurrence of `pattern`,
      wherever it is, becomes `replacement`; without an occurrence `s` is returned. */
  function ReplaceFirst(s: string, pattern: string, replacement: string): (r: string)
    ensures Index(s, pattern).None? ==> r == s
    ensures Index(s, pattern).Some? ==> |r| == |s| - |pattern| + |replacement|
  {
    match Index(s, pattern)
    case None => s
    case Some(i) => s[..i] + replacement + s[i + |pattern|..]
  }

  /** Putting `pattern` back where the first occurrence was replaced restores the
      original string, and the text before it is untouched. */
  lemma ReplaceFirstRoundTrip(s: string, pattern: string, replacement: string)
    requires Index(s, pattern).Some?
    ensures var i := Index(s, pattern).value;
            var r := ReplaceFirst(s, pattern, replacement);
            && r[..i] == s[..i]
            && r[i..i + |replacement|] == replacement
            && s == r[..i] + pattern + r[i + |replacement|..]
  {
    var i := Index(s, pattern).value;
    var r := ReplaceFirst(s, pattern, replacement);
    assert r == s[..i] + replacement + s[i + |pattern|..];
    assert r[..i] == s[..i];
    assert r[i..i + |replacement|] == replacement;
    assert r[i + |replacement|..] == s[i + |pattern|..];
    assert s[i..i + |pattern|] == pattern;
    assert s == s[..i] + s[i..i + |pattern|] + s[i + |pattern|..];
  }
}
