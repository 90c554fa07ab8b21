/** How the agent names media files: the sanitised stem `fileID`, the
    extension chosen from a URL (`extFromURL`), `filepath.Ext` and the stem
    that `cleanupByIDs` compares, and the suffix test of `listVideoFiles`. */
module Naming {
  import opened Text

  /** The runes fileID keeps: [A-Za-z0-9-_]. */
  predicate IsSafeRune(c: char)
  {
    'a' <= c <= 'z' || 'A' <= c <= 'Z' || '0' <= c <= '9' || c == '-' || c == '_'
  }

  function SafeRune(c: char): char
  {
    if IsSafeRune(c) then c else '_'
  }

  /** The stem fileID(id) returns. */
  function FileIdOf(id: string): (r: string)
    ensures |r| > 0
    ensures forall i :: 0 <= i < |r| ==> IsSafeRune(r[i])
    ensures id != [] ==> |r| == |id|
  {
    if id == [] then "media" else seq(|id|, i requires 0 <= i < |id| => SafeRune(id[i]))
  }

  /** fileID: a builder loop writing one rune per input rune, then the
      "media" fallback for an empty result. */
  method FileID(id: string) returns (s: string)
    ensures s == FileIdOf(id)
  {
    var b := "";
    for i := 0 to |id|
      invariant |b| == i
      invariant forall k :: 0 <= k < i ==> b[k] == SafeRune(id[k])
    {
      if IsSafeRune(id[i]) {
        b := b + [id[i]];
      } else {
        b := b + ['_'];
      }
    }
    if b == "" {
      s := "media";
    } else {
      s := b;
    }
  }

  /** A rune of the id survives exactly when it is safe; every other rune
      becomes '_'. */
  lemma FileIdRune(id: string, i: int)
    requires 0 <= i < |id|
    ensures IsSafeRune(id[i]) ==> FileIdOf(id)[i] == id[i]
    ensures !IsSafeRune(id[i]) ==> FileIdOf(id)[i] == '_'
  {
  }

  /** A name that is already a safe non-empty stem is its own fileID. */
  lemma {:induction false} FileIdKeepsSafeNames(s: string)
    requires s != [] && forall i :: 0 <= i < |s| ==> IsSafeRune(s[i])
    ensures FileIdOf(s) == s
  {
    assert forall i :: 0 <= i < |s| ==> FileIdOf(s)[i] == s[i];
  }

  /** fileID is idempotent. */
  lemma {:induction false} FileIdIdempotent(id: string)
    ensures FileIdOf(FileIdOf(id)) == FileIdOf(id)
  {
    FileIdKeepsSafeNames(FileIdOf(id));
  }

  /** The extensions extFromURL tries, in priority order. */
  const VideoExts: seq<string> := [".mkv", ".mp4", ".avi", ".webm"]

  /** The first of `cands` that occurs in `u`, or `default`. */
  function FirstOccurring(u: string, cands: seq<string>, default: string): (r: string)
    ensures r in cands || r == default
  {
    if cands == [] then default
    else if Contains(u, cands[0]) then cands[0]
    else FirstOccurring(u, cands[1..], default)
  }

  /** extFromURL. */
  function ExtFromURL(url: string): (e: string)
    ensures e in VideoExts
  {
    FirstOccurring(ToLower(url), VideoExts, ".mp4")
  }

  /** extFromURL picks VideoExts[k] exactly when VideoExts[k] is the first of
      the list to occur in the lower-cased URL, or when none occurs and k
      names ".mp4". */
  lemma ExtFromURLFirstMatch(url: string, k: int)
    requires 0 <= k < |VideoExts|
    ensures var u := ToLower(url);
      ExtFromURL(url) == VideoExts[k] <==>
        (Contains(u, VideoExts[k]) && forall j :: 0 <= j < k ==> !Contains(u, VideoExts[j]))
        || (k == 1 && forall j :: 0 <= j < |VideoExts| ==> !Contains(u, VideoExts[j]))
  {
    var u := ToLower(url);
    var l1 := VideoExts[1..];
    var l2 := l1[1..];
    var l3 := l2[1..];
    assert l1[0] == ".mp4" && l2[0] == ".avi" && l3 == [".webm"] && l3[1..] == [];
    assert FirstOccurring(u, l3, ".mp4") == if Contains(u, ".webm") then ".webm" else ".mp4";
    assert FirstOccurring(u, l2, ".mp4") ==
      if Contains(u, ".avi") then ".avi" else if Contains(u, ".webm") then ".webm" else ".mp4";
    assert FirstOccurring(u, l1, ".mp4") ==
      if Contains(u, ".mp4") then ".mp4"
      else if Contains(u, ".avi") then ".avi" else if Contains(u, ".webm") then ".webm" else ".mp4";
    assert ExtFromURL(url) ==
      if Contains(u, ".mkv") then ".mkv"
      else if Contains(u, ".mp4") then ".mp4"
      else if Contains(u, ".avi") then ".avi"
      else if Contains(u, ".webm") then ".webm"
      else ".mp4";
  }

  /** filepath.Join(dir, name) for the cleaned absolute media directory and
      a plain file name (no separator, not "." or ".."). */
  function JoinPath(dir: string, name: string): string
  {
    if dir == "/" then dir + name else dir + "/" + name
  }

  /** filepath.Ext: the suffix from the last '.' of the last path element,
      or "" when that element has no '.'. */
  function Ext(path: string): (e: string)
    ensures |e| <= |path| && e == path[|path| - |e|..]
    ensures e == [] || (e[0] == '.' && forall i :: 1 <= i < |e| ==> e[i] != '.' && e[i] != '/')
  {
    if path == [] then []
    else
      var c := path[|path| - 1];
      if c == '/' then []
      else if c == '.' then "."
      else
        var e := Ext(path[..|path| - 1]);
        if e == [] then [] else e + [c]
  }

  /** strings.TrimSuffix(name, filepath.Ext(name)): the id cleanupByIDs
      compares against the kept ids. */
  function Stem(name: string): (s: string)
    ensures s <= name
  {
    name[..|name| - |Ext(name)|]
  }

  /** The stem followed by the extension is the name again. */
  lemma StemThenExt(name: string)
    ensures Stem(name) + Ext(name) == name
  {
  }

  /** A well-formed extension after any prefix is what Ext returns. */
  lemma {:induction false} ExtOfSuffix(a: string, b: string)
    requires |b| > 0 && b[0] == '.'
    requires forall i :: 1 <= i < |b| ==> b[i] != '.' && b[i] != '/'
    ensures Ext(a + b) == b
  {
    var p := a + b;
    var c := b[|b| - 1];
    assert p[|p| - 1] == c;
    if |b| > 1 {
      var b' := b[..|b| - 1];
      assert c != '.' && c != '/';
      assert p[..|p| - 1] == a + b';
      ExtOfSuffix(a, b');
      assert Ext(p) == Ext(a + b') + [c];
      assert b == b' + [c];
    }
  }

  /** The file downloadMedia writes for an item: fileID(id)+extFromURL(url). */
  function TargetName(id: string, url: string): string
  {
    FileIdOf(id) + ExtFromURL(url)
  }

  /** The stem of a downloaded file is the fileID of its manifest id, so
      cleanupByIDs keeps it while that id stays in the manifest. */
  lemma StemOfTargetName(id: string, url: string)
    ensures Ext(TargetName(id, url)) == ExtFromURL(url)
    ensures Stem(TargetName(id, url)) == FileIdOf(id)
  {
    var e := ExtFromURL(url);
    assert e == ".mkv" || e == ".mp4" || e == ".avi" || e == ".webm";
    ExtOfSuffix(FileIdOf(id), e);
    assert TargetName(id, url)[..|FileIdOf(id)|] == FileIdOf(id);
  }

  /** listVideoFiles' test on an entry name. */
  predicate IsVideoName(name: string)
  {
    var l := ToLower(name);
    HasSuffix(l, ".mkv") || HasSuffix(l, ".mp4") || HasSuffix(l, ".avi") || HasSuffix(l, ".webm")
  }

  /** Every file downloadMedia names is one listVideoFiles will play. */
  lemma TargetNameIsVideo(id: string, url: string)
    ensures IsVideoName(TargetName(id, url))
  {
    var e := ExtFromURL(url);
    assert e == ".mkv" || e == ".mp4" || e == ".avi" || e == ".webm";
    ToLowerAppend(FileIdOf(id), e);
    assert ToLower(e) == e;
  }
}
