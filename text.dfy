/** The string operations of Go's `strings` package that the agent relies on.
    A Go string is modelled as the sequence of its runes (Unicode code points). */
module Text {

  /** unicode.ToLower as far as it can matter to a search for ASCII text:
      A-Z become a-z, and the only two non-ASCII runes whose lower case is
      ASCII map to it. Every other rune is kept; its real lower case is
      non-ASCII exactly when the rune is, so no ASCII match is won or lost. */
  function LowerRune(c: char): char
  {
    if 'A' <= c <= 'Z' then (c as int + 32) as char
    else if c == '\U{0130}' then 'i'   // LATIN CAPITAL LETTER I WITH DOT ABOVE
    else if c == '\U{212A}' then 'k'   // KELVIN SIGN
    else c
  }

  /** strings.ToLower, rune by rune. */
  function ToLower(s: string): string
  {
    seq(|s|, i requires 0 <= i < |s| => LowerRune(s[i]))
  }

  lemma ToLowerAppend(a: string, b: string)
    ensures ToLower(a + b) == ToLower(a) + ToLower(b)
  {
    assert forall i :: 0 <= i < |a + b| ==> ToLower(a + b)[i] == (ToLower(a) + ToLower(b))[i];
  }

  predicate HasPrefix(s: string, p: string)
  {
    |p| <= |s| && s[..|p|] == p
  }

  predicate HasSuffix(s: string, x: string)
  {
    |x| <= |s| && s[|s| - |x|..] == x
  }

  /** strings.Contains: `sub` occurs somewhere in `s`. */
  predicate Contains(s: string, sub: string)
    decreases |s|
  {
    HasPrefix(s, sub) || (s != [] && Contains(s[1..], sub))
  }

  /** strings.TrimRight(s, string(c)): drop every trailing `c`. */
  function TrimRight(s: string, c: char): (r: string)
    ensures r <= s
    ensures r == [] || r[|r| - 1] != c
    ensures forall i :: |r| <= i < |s| ==> s[i] == c
  {
    if s != [] && s[|s| - 1] == c then TrimRight(s[..|s| - 1], c) else s
  }

  /** unicode.IsSpace: the Latin-1 spaces and the other White_Space runes. */
  predicate IsSpace(c: char)
  {
    c == ' ' || '\t' <= c <= '\r' || c == '\U{0085}' || c == '\U{00A0}' || c == '\U{1680}'
    || '\U{2000}' <= c <= '\U{200A}' || c == '\U{2028}' || c == '\U{2029}' || c == '\U{202F}'
    || c == '\U{205F}' || c == '\U{3000}'
  }

  function TrimLeftSpace(s: string): (r: string)
    ensures |r| <= |s| && r == s[|s| - |r|..]
    ensures r == [] || !IsSpace(r[0])
    ensures forall i :: 0 <= i < |s| - |r| ==> IsSpace(s[i])
  {
    if s != [] && IsSpace(s[0]) then TrimLeftSpace(s[1..]) else s
  }

  function TrimRightSpace(s: string): (r: string)
    ensures r <= s
    ensures r == [] || !IsSpace(r[|r| - 1])
    ensures forall i :: |r| <= i < |s| ==> IsSpace(s[i])
  {
    if s != [] && IsSpace(s[|s| - 1]) then TrimRightSpace(s[..|s| - 1]) else s
  }

  /** strings.TrimSpace. */
  function TrimSpace(s: string): string
  {
    TrimRightSpace(TrimLeftSpace(s))
  }

  /** Index of the first `c` in `s`. */
  function IndexOf(s: string, c: char): (i: nat)
    requires c in s
    ensures i < |s| && s[i] == c && c !in s[..i]
  {
    if s[0] == c then 0 else 1 + IndexOf(s[1..], c)
  }

  /** strings.Join(ls, "\n"). */
  function JoinLines(ls: seq<string>): string
  {
    if ls == [] then ""
    else if |ls| == 1 then ls[0]
    else ls[0] + "\n" + JoinLines(ls[1..])
  }

  /** strings.Split(s, "\n"): the newline-free pieces that, joined by
      newlines, give back s. */
  function Lines(s: string): (ls: seq<string>)
    ensures |ls| >= 1
    ensures forall i :: 0 <= i < |ls| ==> '\n' !in ls[i]
    ensures JoinLines(ls) == s
    decreases |s|
  {
    if '\n' in s then
      var i := IndexOf(s, '\n');
      var rest := Lines(s[i + 1..]);
      assert s == s[..i] + "\n" + s[i + 1..];
      assert ([s[..i]] + rest)[1..] == rest;
      [s[..i]] + rest
    else [s]
  }

  /** s without its leading white space. */
  function DropSpaces(s: string): (r: string)
    ensures |r| <= |s| && r == s[|s| - |r|..]
    ensures forall i :: 0 <= i < |s| - |r| ==> IsSpace(s[i])
    ensures r == [] || !IsSpace(r[0])
  {
    if s != [] && IsSpace(s[0]) then DropSpaces(s[1..]) else s
  }

  /** The longest prefix of s without white space. */
  function TakeWord(s: string): (r: string)
    ensures r <= s
    ensures forall i :: 0 <= i < |r| ==> !IsSpace(r[i])
    ensures |r| == |s| || IsSpace(s[|r|])
  {
    if s != [] && !IsSpace(s[0]) then [s[0]] + TakeWord(s[1..]) else []
  }

  /** strings.Fields(s)[0] when s has a field, and "" otherwise: it is
      empty exactly when s is all white space, and FirstFieldIsFirstRun
      says which run of s it is. */
  function FirstField(s: string): (w: string)
    ensures forall i :: 0 <= i < |w| ==> !IsSpace(w[i])
    ensures w == [] <==> forall i :: 0 <= i < |s| ==> IsSpace(s[i])
  {
    TakeWord(DropSpaces(s))
  }

  lemma {:induction false} DropLeadingSpaces(sp: string, t: string)
    requires forall i :: 0 <= i < |sp| ==> IsSpace(sp[i])
    requires t == [] || !IsSpace(t[0])
    ensures DropSpaces(sp + t) == t
    decreases |sp|
  {
    if sp != [] {
      assert (sp + t)[1..] == sp[1..] + t;
      DropLeadingSpaces(sp[1..], t);
    }
  }

  lemma {:induction false} TakeWholeWord(x: string, rest: string)
    requires forall i :: 0 <= i < |x| ==> !IsSpace(x[i])
    requires rest == [] || IsSpace(rest[0])
    ensures TakeWord(x + rest) == x
    decreases |x|
  {
    if x != [] {
      assert (x + rest)[1..] == x[1..] + rest;
      TakeWholeWord(x[1..], rest);
    } else {
      assert x + rest == rest;
    }
  }

  /** The first field of a line made of white space, then a run of non-space
      runes, then nothing or white space first, is that run. */
  lemma FirstFieldIsFirstRun(sp: string, x: string, rest: string)
    requires forall i :: 0 <= i < |sp| ==> IsSpace(sp[i])
    requires x != [] && forall i :: 0 <= i < |x| ==> !IsSpace(x[i])
    requires rest == [] || IsSpace(rest[0])
    ensures FirstField(sp + x + rest) == x
  {
    assert sp + x + rest == sp + (x + rest);
    DropLeadingSpaces(sp, x + rest);
    TakeWholeWord(x, rest);
  }

  /** Go's `<` on strings: lexicographic by rune, which for valid UTF-8 is
      the same order as byte-wise comparison. */
  predicate Below(a: string, b: string)
    decreases |a|
  {
    if a == [] then b != []
    else b != [] && (a[0] < b[0] || (a[0] == b[0] && Below(a[1..], b[1..])))
  }

  lemma BelowIrreflexive(a: string)
    ensures !Below(a, a)
  {
  }

  lemma BelowTransitive(a: string, b: string, c: string)
    requires Below(a, b) && Below(b, c)
    ensures Below(a, c)
  {
  }

  lemma BelowTotal(a: string, b: string)
    requires a != b
    ensures Below(a, b) || Below(b, a)
  {
    if a != [] && b != [] && a[0] == b[0] {
      BelowTotal(a[1..], b[1..]);
    }
  }

  lemma BelowAsymmetric(a: string, b: string)
    requires Below(a, b)
    ensures !Below(b, a)
  {
  }

  /** The number a string of decimal digits denotes, most significant first. */
  function DigitsValue(s: string): int
  {
    if s == [] then 0
    else DigitsValue(s[..|s| - 1]) * 10 + (s[|s| - 1] as int - '0' as int)
  }

  /** fmt.Sprint of a non-negative integer: its decimal digits, denoting n,
      with no leading zero. */
  function Decimal(n: nat): (r: string)
    ensures |r| >= 1
    ensures forall i :: 0 <= i < |r| ==> '0' <= r[i] <= '9'
    ensures DigitsValue(r) == n
    ensures r[0] == '0' ==> n == 0
  {
    if n < 10 then
      var r := [('0' as int + n) as char];
      assert r[..0] == [];
      r
    else
      var p := Decimal(n / 10);
      var r := p + [('0' as int + n % 10) as char];
      assert r[..|r| - 1] == p;
      r
  }
}
