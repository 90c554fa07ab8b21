/** The ffmpeg concat list that runConcatPlayback writes to `.concat.txt`:
    one line `file '<path>'` per video file, with every single quote of the
    path written twice. Alongside it, a reader that follows the same
    convention, taking two quotes inside quotes for one, as the comment at
    the builder assumes; it recovers the paths exactly. ffmpeg's own concat
    demuxer is not part of this model. */
module Playlist {
  import opened Wrappers

  const Quote: char := '\''

  /** strings.ReplaceAll(p, "'", "''"). */
  function Escape(p: string): (e: string)
    ensures |e| >= |p|
  {
    if p == [] then []
    else (if p[0] == Quote then [Quote, Quote] else [p[0]]) + Escape(p[1..])
  }

  /** The line written for one path. */
  function ConcatLine(p: string): string
  {
    "file '" + Escape(p) + "'\n"
  }

  /** The whole list, in the order of `paths`. */
  function ConcatText(paths: seq<string>): string
  {
    if paths == [] then "" else ConcatLine(paths[0]) + ConcatText(paths[1..])
  }

  lemma {:induction false} ConcatTextSnoc(paths: seq<string>, p: string)
    ensures ConcatText(paths + [p]) == ConcatText(paths) + ConcatLine(p)
  {
    if paths == [] {
      assert paths + [p] == [p];
    } else {
      assert (paths + [p])[1..] == paths[1..] + [p];
      ConcatTextSnoc(paths[1..], p);
    }
  }

  /** The strings.Builder loop of runConcatPlayback. */
  method BuildConcatList(paths: seq<string>) returns (text: string)
    ensures text == ConcatText(paths)
  {
    text := "";
    for i := 0 to |paths|
      invariant text == ConcatText(paths[..i])
    {
      var escaped := Escape(paths[i]);
      ConcatTextSnoc(paths[..i], paths[i]);
      assert paths[..i + 1] == paths[..i] + [paths[i]];
      text := text + "file '";
      text := text + escaped;
      text := text + "'\n";
    }
    assert paths[..|paths|] == paths;
  }

  /** Reads a quoted body whose opening quote is already consumed: a doubled
      quote stands for one quote, a single quote closes it. Gives the text and
      what follows the closing quote. */
  function ParseQuoted(s: string): (r: Option<(string, string)>)
    ensures r.Some? ==> |r.value.1| < |s|
  {
    if s == [] then None
    else if s[0] == Quote then
      if |s| >= 2 && s[1] == Quote then
        match ParseQuoted(s[2..])
        case None => None
        case Some(res) => Some(([Quote] + res.0, res.1))
      else Some(("", s[1..]))
    else
      match ParseQuoted(s[1..])
      case None => None
      case Some(res) => Some(([s[0]] + res.0, res.1))
  }

  /** Reads a whole concat list back into its paths; None when the text is
      not a sequence of `file '...'` lines. */
  function ParseConcat(text: string): Option<seq<string>>
    decreases |text|
  {
    if text == [] then Some([])
    else if |text| < 6 || text[..6] != "file '" then None
    else match ParseQuoted(text[6..])
      case None => None
      case Some(res) =>
        if res.1 == [] || res.1[0] != '\n' then None
        else match ParseConcat(res.1[1..])
          case None => None
          case Some(rest) => Some([res.0] + rest)
  }

  /** Undoing the doubling recovers the path, and the reading stops right
      after the closing quote. */
  lemma {:induction false} ParseEscaped(p: string, rest: string)
    requires rest == [] || rest[0] != Quote
    ensures ParseQuoted(Escape(p) + [Quote] + rest) == Some((p, rest))
  {
    var s := Escape(p) + [Quote] + rest;
    if p == [] {
      assert s == [Quote] + rest;
      assert s[1..] == rest;
    } else if p[0] == Quote {
      assert s == [Quote, Quote] + (Escape(p[1..]) + [Quote] + rest);
      assert s[2..] == Escape(p[1..]) + [Quote] + rest;
      ParseEscaped(p[1..], rest);
      assert [Quote] + p[1..] == p;
    } else {
      assert s == [p[0]] + (Escape(p[1..]) + [Quote] + rest);
      assert s[1..] == Escape(p[1..]) + [Quote] + rest;
      ParseEscaped(p[1..], rest);
      assert [p[0]] + p[1..] == p;
    }
  }

  /** Under the doubling convention the concat list round-trips: reading it
      back yields the very paths, in order, whatever quotes they contain. */
  lemma {:induction false} ConcatRoundTrip(paths: seq<string>)
    ensures ParseConcat(ConcatText(paths)) == Some(paths)
  {
    if paths != [] {
      var p := paths[0];
      var tail := ConcatText(paths[1..]);
      var text := ConcatText(paths);
      assert text == "file '" + (Escape(p) + [Quote] + ("\n" + tail));
      assert text[..6] == "file '";
      assert text[6..] == Escape(p) + [Quote] + ("\n" + tail);
      ParseEscaped(p, "\n" + tail);
      assert ("\n" + tail)[1..] == tail;
      ConcatRoundTrip(paths[1..]);
      assert [p] + paths[1..] == paths;
    }
  }

  /** Distinct lists give distinct files. */
  lemma ConcatInjective(a: seq<string>, b: seq<string>)
    requires ConcatText(a) == ConcatText(b)
    ensures a == b
  {
    ConcatRoundTrip(a);
    ConcatRoundTrip(b);
  }

  /** One line per path: the list holds exactly |paths| newlines. */
  function CountNewlines(s: string): nat
  {
    if s == [] then 0 else (if s[0] == '\n' then 1 else 0) + CountNewlines(s[1..])
  }

  lemma {:induction false} CountNewlinesAppend(a: string, b: string)
    ensures CountNewlines(a + b) == CountNewlines(a) + CountNewlines(b)
  {
    if a != [] {
      assert (a + b)[1..] == a[1..] + b;
      CountNewlinesAppend(a[1..], b);
    } else {
      assert a + b == b;
    }
  }

  lemma {:induction false} EscapeHasNoNewlines(p: string)
    requires '\n' !in p
    ensures CountNewlines(Escape(p)) == 0
  {
    if p != [] {
      EscapeHasNoNewlines(p[1..]);
      var head := if p[0] == Quote then [Quote, Quote] else [p[0]];
      CountNewlinesAppend(head, Escape(p[1..]));
    }
  }

  /** A list of paths without newlines is exactly |paths| lines long. */
  lemma {:induction false} ConcatLineCount(paths: seq<string>)
    requires forall i :: 0 <= i < |paths| ==> '\n' !in paths[i]
    ensures CountNewlines(ConcatText(paths)) == |paths|
  {
    if paths != [] {
      var p := paths[0];
      EscapeHasNoNewlines(p);
      ConcatLineCount(paths[1..]);
      CountNewlinesAppend(ConcatLine(p), ConcatText(paths[1..]));
      CountNewlinesAppend("file '" + Escape(p), "'\n");
      CountNewlinesAppend("file '", Escape(p));
      assert CountNewlines("file '") == 0;
      assert CountNewlines("'\n") == 1;
    }
  }
}
