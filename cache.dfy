/** The media cache: the media directory as os.ReadDir lists it, and the
    three routines that read or change it during a sync — `cleanupByIDs`,
    `downloadMedia` and `listVideoFiles`. The directory is passed in and the
    new directory handed back; a download's network outcome is an input. */
module Cache {
  import opened Text
  import opened Wrappers
  import opened Naming
  import opened ControlPlane

  /** One directory entry: its name and whether it is a directory. */
  datatype Entry = Entry(name: string, isDir: bool)

  /** The media directory in os.ReadDir order, which is sorted by name. */
  type Listing = seq<Entry>

  ghost predicate Ordered(files: Listing)
  {
    forall i, j :: 0 <= i < j < |files| ==> Below(files[i].name, files[j].name)
  }

  function Names(files: Listing): set<string>
  {
    set e | e in files :: e.name
  }

  predicate HasDir(files: Listing, name: string)
  {
    Entry(name, true) in files
  }

  /** No two entries share a name. */
  ghost predicate DistinctNames(files: Listing)
  {
    forall i, j :: 0 <= i < |files| && 0 <= j < |files| && i != j ==> files[i].name != files[j].name
  }

  lemma OrderedNamesDistinct(files: Listing)
    requires Ordered(files)
    ensures DistinctNames(files)
  {
    forall i, j | 0 <= i < |files| && 0 <= j < |files| && i != j
      ensures files[i].name != files[j].name
    {
      if i < j { BelowIrreflexive(files[i].name); } else { BelowIrreflexive(files[j].name); }
    }
  }

  // ---------------------------------------------------------------------
  // Creating a file

  /** A new entry placed where os.ReadDir will list it. */
  function Insert(files: Listing, e: Entry): (r: Listing)
    ensures |r| == |files| + 1
    ensures forall x :: x in r <==> x in files || x == e
  {
    if files == [] then [e]
    else if Below(e.name, files[0].name) then [e] + files
    else [files[0]] + Insert(files[1..], e)
  }

  lemma {:induction false} InsertOrdered(files: Listing, e: Entry)
    requires Ordered(files) && e.name !in Names(files)
    ensures Ordered(Insert(files, e))
  {
    if files != [] {
      if Below(e.name, files[0].name) {
        forall j | 0 <= j < |files| ensures Below(e.name, files[j].name) {
          if j > 0 { BelowTransitive(e.name, files[0].name, files[j].name); }
        }
      } else {
        assert files[0] in files;
        BelowTotal(e.name, files[0].name);
        assert Ordered(files[1..]);
        assert e.name !in Names(files[1..]) by {
          forall x | x in files[1..] ensures x.name != e.name { assert x in files; }
        }
        InsertOrdered(files[1..], e);
        var r := Insert(files[1..], e);
        forall j | 0 <= j < |r| ensures Below(files[0].name, r[j].name) {
          if r[j] != e {
            assert r[j] in files[1..];
            var k :| 1 <= k < |files| && files[k] == r[j];
          }
        }
      }
    }
  }

  /** os.Create(path) on a name that is not a directory: the file exists
      afterwards (an existing file is truncated, which the listing does not see). */
  function Store(files: Listing, name: string): Listing
  {
    if name in Names(files) then files else Insert(files, Entry(name, false))
  }

  lemma StoreMembers(files: Listing, name: string)
    ensures forall x :: x in Store(files, name) <==>
      x in files || (x == Entry(name, false) && name !in Names(files))
    ensures forall m :: HasDir(Store(files, name), m) == HasDir(files, m)
    ensures name in Names(Store(files, name))
  {
    if name !in Names(files) {
      assert Entry(name, false) in Insert(files, Entry(name, false));
    }
  }

  lemma StoreFacts(files: Listing, name: string)
    requires Ordered(files)
    ensures Ordered(Store(files, name))
    ensures forall x :: x in Store(files, name) <==>
      x in files || (x == Entry(name, false) && name !in Names(files))
    ensures forall m :: HasDir(Store(files, name), m) == HasDir(files, m)
    ensures name in Names(Store(files, name))
  {
    StoreMembers(files, name);
    if name !in Names(files) {
      InsertOrdered(files, Entry(name, false));
    }
  }

  // ---------------------------------------------------------------------
  // cleanupByIDs

  /** os.Remove of the entry called `name`. */
  function RemoveName(files: Listing, name: string): Listing
  {
    if files == [] then []
    else (if files[0].name == name then [] else [files[0]]) + RemoveName(files[1..], name)
  }

  lemma {:induction false} RemoveAbsent(files: Listing, name: string)
    requires name !in Names(files)
    ensures RemoveName(files, name) == files
  {
    if files != [] {
      assert files[0] in files;
      assert name !in Names(files[1..]) by {
        forall x | x in files[1..] ensures x.name != name { assert x in files; }
      }
      RemoveAbsent(files[1..], name);
    }
  }

  lemma {:induction false} RemoveAppend(a: Listing, b: Listing, name: string)
    ensures RemoveName(a + b, name) == RemoveName(a, name) + RemoveName(b, name)
  {
    if a != [] {
      assert (a + b)[1..] == a[1..] + b;
      RemoveAppend(a[1..], b, name);
    } else {
      assert a + b == b;
    }
  }

  /** The entries cleanupByIDs deletes: files whose stem is non-empty and
      not among the kept ids. */
  predicate Doomed(e: Entry, keep: set<string>)
  {
    !e.isDir && Stem(e.name) != "" && Stem(e.name) !in keep
  }

  /** The directory left once every doomed entry is gone. */
  function Survivors(files: Listing, keep: set<string>): Listing
  {
    if files == [] then []
    else (if Doomed(files[0], keep) then [] else [files[0]]) + Survivors(files[1..], keep)
  }

  lemma {:induction false} SurvivorsSnoc(files: Listing, e: Entry, keep: set<string>)
    ensures Survivors(files + [e], keep) ==
      Survivors(files, keep) + (if Doomed(e, keep) then [] else [e])
  {
    if files == [] {
      assert files + [e] == [e];
    } else {
      var f := files + [e];
      var tail := files[1..];
      var h := if Doomed(files[0], keep) then [] else [files[0]];
      var t := if Doomed(e, keep) then [] else [e];
      assert f[0] == files[0] && f[1..] == tail + [e];
      SurvivorsSnoc(tail, e, keep);
      var st := Survivors(tail, keep);
      assert Survivors(f, keep) == h + (st + t);
      assert Survivors(files, keep) == h + st;
      ListingAssoc(h, st, t);
    }
  }

  lemma ListingAssoc(a: Listing, b: Listing, c: Listing)
    ensures a + (b + c) == (a + b) + c
  {
  }

  /** cleanupByIDs removes exactly the doomed entries: directories, names
      with an empty stem (".mp4") and files whose stem is kept, whatever
      their extension, all stay. */
  lemma {:induction false} SurvivorsExact(files: Listing, keep: set<string>, e: Entry)
    ensures e in Survivors(files, keep) <==> e in files && !Doomed(e, keep)
  {
    if files != [] {
      SurvivorsExact(files[1..], keep, e);
      assert files == [files[0]] + files[1..];
    }
  }

  lemma {:induction false} SurvivorsOrdered(files: Listing, keep: set<string>)
    requires Ordered(files)
    ensures Ordered(Survivors(files, keep))
  {
    if files != [] {
      assert Ordered(files[1..]);
      SurvivorsOrdered(files[1..], keep);
      var rest := Survivors(files[1..], keep);
      forall j | 0 <= j < |rest| ensures Below(files[0].name, rest[j].name) {
        SurvivorsExact(files[1..], keep, rest[j]);
        var k :| 0 <= k < |files[1..]| && files[1..][k] == rest[j];
        assert files[k + 1] == rest[j];
      }
      if Doomed(files[0], keep) {
        assert Survivors(files, keep) == [] + rest;
        assert [] + rest == rest;
      } else {
        assert Survivors(files, keep) == [files[0]] + rest;
        OrderedCons(files[0], rest);
      }
    }
  }

  lemma OrderedCons(e: Entry, rest: Listing)
    requires Ordered(rest)
    requires forall j :: 0 <= j < |rest| ==> Below(e.name, rest[j].name)
    ensures Ordered([e] + rest)
  {
    var l := [e] + rest;
    forall i, j | 0 <= i < j < |l| ensures Below(l[i].name, l[j].name) {
      assert l[j] == rest[j - 1];
      if i > 0 {
        assert l[i] == rest[i - 1];
      }
    }
  }

  /** In an ordered listing, the name of entry i occurs neither among the
      survivors of the entries before it nor among the entries after it. */
  lemma NameUnique(files: Listing, keep: set<string>, i: int)
    requires DistinctNames(files) && 0 <= i < |files|
    ensures files[i].name !in Names(Survivors(files[..i], keep))
    ensures files[i].name !in Names(files[i + 1..])
  {
    var done := Survivors(files[..i], keep);
    forall x | x in done ensures x.name != files[i].name {
      SurvivorsExact(files[..i], keep, x);
      var k :| 0 <= k < i && files[..i][k] == x;
    }
    forall x | x in files[i + 1..] ensures x.name != files[i].name {
      var k :| i < k < |files| && files[k] == x;
    }
  }

  /** The directory once cleanupByIDs has visited the first i entries. */
  function CleanedUpTo(files: Listing, keep: set<string>, i: int): Listing
    requires 0 <= i <= |files|
  {
    Survivors(files[..i], keep) + files[i..]
  }

  /** One step of cleanupByIDs: removing a doomed entry by name removes
      just that entry, because the names of a listing are distinct. */
  lemma CleanupStep(files: Listing, keep: set<string>, i: int)
    requires DistinctNames(files) && 0 <= i < |files|
    ensures CleanedUpTo(files, keep, i + 1) ==
      if Doomed(files[i], keep) then RemoveName(CleanedUpTo(files, keep, i), files[i].name)
      else CleanedUpTo(files, keep, i)
  {
    var e := files[i];
    var rest := files[i + 1..];
    assert files[..i + 1] == files[..i] + [e];
    assert files[i..] == [e] + rest;
    if Doomed(e, keep) {
      NameUnique(files, keep, i);
    }
    StepOnPieces(files[..i], e, rest, keep);
  }

  /** CleanupStep on the entries before, at and after the visited one. */
  lemma StepOnPieces(before: Listing, e: Entry, rest: Listing, keep: set<string>)
    requires Doomed(e, keep) ==> e.name !in Names(Survivors(before, keep)) && e.name !in Names(rest)
    ensures Survivors(before + [e], keep) + rest ==
      if Doomed(e, keep) then RemoveName(Survivors(before, keep) + ([e] + rest), e.name)
      else Survivors(before, keep) + ([e] + rest)
  {
    var done := Survivors(before, keep);
    SurvivorsSnoc(before, e, keep);
    if Doomed(e, keep) {
      assert done + [] + rest == done + rest;
      RemoveMiddle(done, e, rest);
    } else {
      assert done + [e] + rest == done + ([e] + rest);
    }
  }

  /** Removing a name that only the middle entry carries. */
  lemma RemoveMiddle(done: Listing, e: Entry, rest: Listing)
    requires e.name !in Names(done) && e.name !in Names(rest)
    ensures RemoveName(done + ([e] + rest), e.name) == done + rest
  {
    var tail := [e] + rest;
    assert tail[0] == e && tail[1..] == rest;
    assert RemoveName(tail, e.name) == RemoveName(rest, e.name);
    RemoveAbsent(rest, e.name);
    RemoveAppend(done, tail, e.name);
    RemoveAbsent(done, e.name);
  }

  /** cleanupByIDs: walk the snapshot ReadDir returned and remove every doomed
      entry by name. */
  method CleanupByIDs(files: Listing, keep: set<string>) returns (after: Listing)
    requires DistinctNames(files)
    ensures after == Survivors(files, keep)
  {
    after := files;
    var i := 0;
    assert CleanedUpTo(files, keep, 0) == files;
    while i < |files|
      invariant 0 <= i <= |files|
      invariant after == CleanedUpTo(files, keep, i)
    {
      var e := files[i];
      CleanupStep(files, keep, i);
      if !e.isDir {
        var id := Stem(e.name);
        if id != "" && id !in keep {
          after := RemoveName(after, e.name);
        }
      }
      i := i + 1;
    }
    assert files[..i] == files;
    assert CleanedUpTo(files, keep, i) == Survivors(files, keep);
  }

  // ---------------------------------------------------------------------
  // downloadMedia

  /** What downloadFile's network part did for one item:
      Refused — no file was touched (bad request, transport error, non-200);
      Interrupted — the file was created but copying the body failed, so a
      partial file stays; Complete — the file was written. */
  datatype Fetch = Refused | Interrupted | Complete

  /** The outcome for item i; an item without a given outcome is Refused. */
  function FetchAt(fetches: seq<Fetch>, i: nat): Fetch
  {
    if i < |fetches| then fetches[i] else Refused
  }

  function ItemName(it: MediaItem): string
  {
    TargetName(it.id, it.url)
  }

  /** downloadFile reaches os.Create, and it succeeds: the item has a URL, the
      server answered 200, and no directory holds the name. */
  predicate Lands(files: Listing, it: MediaItem, f: Fetch)
  {
    it.url != "" && f != Refused && !HasDir(files, ItemName(it))
  }

  /** downloadFile returned nil. */
  predicate Succeeds(files: Listing, it: MediaItem, f: Fetch)
  {
    Lands(files, it, f) && f == Complete
  }

  /** The paths downloadMedia returns, in manifest order. */
  function DownloadedPaths(dir: string, files: Listing, items: seq<MediaItem>, fetches: seq<Fetch>): seq<string>
  {
    if items == [] then []
    else
      var n := |items| - 1;
      DownloadedPaths(dir, files, items[..n], fetches)
      + (if Succeeds(files, items[n], FetchAt(fetches, n)) then [JoinPath(dir, ItemName(items[n]))] else [])
  }

  /** The directory once downloadMedia has run. */
  function AfterDownloads(files: Listing, items: seq<MediaItem>, fetches: seq<Fetch>): Listing
  {
    if items == [] then files
    else
      var n := |items| - 1;
      var prev := AfterDownloads(files, items[..n], fetches);
      if Lands(files, items[n], FetchAt(fetches, n)) then Store(prev, ItemName(items[n])) else prev
  }

  lemma {:induction false} AfterDownloadsFacts(files: Listing, items: seq<MediaItem>, fetches: seq<Fetch>)
    requires Ordered(files)
    ensures Ordered(AfterDownloads(files, items, fetches))
    ensures forall m :: HasDir(AfterDownloads(files, items, fetches), m) == HasDir(files, m)
  {
    if items != [] {
      var n := |items| - 1;
      AfterDownloadsFacts(files, items[..n], fetches);
      StoreFacts(AfterDownloads(files, items[..n], fetches), ItemName(items[n]));
    }
  }

  /** downloadMedia: skip items without a URL, download each other item into
      dir/fileID(id)+extFromURL(url), and collect the paths that succeeded;
      a failure is only logged. The error it returns is always nil. */
  method DownloadMedia(dir: string, files: Listing, items: seq<MediaItem>, fetches: seq<Fetch>)
    returns (downloaded: seq<string>, after: Listing, err: Option<Failure>)
    requires Ordered(files)
    ensures downloaded == DownloadedPaths(dir, files, items, fetches)
    ensures after == AfterDownloads(files, items, fetches)
    ensures Ordered(after)
    ensures err == None
  {
    downloaded, after := [], files;
    for i := 0 to |items|
      invariant downloaded == DownloadedPaths(dir, files, items[..i], fetches)
      invariant after == AfterDownloads(files, items[..i], fetches)
      invariant Ordered(after)
      invariant forall m :: HasDir(after, m) == HasDir(files, m)
    {
      var it := items[i];
      assert items[..i + 1][..i] == items[..i];
      if it.url != "" {
        var id := FileID(it.id);
        var name := id + ExtFromURL(it.url);
        var path := JoinPath(dir, name);
        var f := FetchAt(fetches, i);
        if f != Refused && !HasDir(after, name) {
          StoreFacts(after, name);
          after := Store(after, name);
          if f == Complete {
            downloaded := downloaded + [path];
          }
        }
      }
    }
    assert items[..|items|] == items;
    err := None;
  }

  /** Item i was downloaded successfully into path p. */
  predicate Delivers(dir: string, files: Listing, items: seq<MediaItem>, fetches: seq<Fetch>, i: int, p: string)
  {
    0 <= i < |items| && Succeeds(files, items[i], FetchAt(fetches, i)) && p == JoinPath(dir, ItemName(items[i]))
  }

  lemma DeliversPrefix(dir: string, files: Listing, items: seq<MediaItem>, fetches: seq<Fetch>,
                       n: int, i: int, p: string)
    requires 0 <= n <= |items|
    ensures Delivers(dir, files, items[..n], fetches, i, p) <==> i < n && Delivers(dir, files, items, fetches, i, p)
  {
    if 0 <= i < n { assert items[..n][i] == items[i]; }
  }

  /** Every returned path is dir/fileID(id)+extFromURL(url) of an item whose
      download succeeded, and every such item contributes its path. */
  lemma {:induction false} DownloadedPathsMembers(dir: string, files: Listing, items: seq<MediaItem>,
                                                  fetches: seq<Fetch>, p: string)
    ensures p in DownloadedPaths(dir, files, items, fetches) <==>
      exists i :: Delivers(dir, files, items, fetches, i, p)
  {
    if items != [] {
      var n := |items| - 1;
      var pre := DownloadedPaths(dir, files, items[..n], fetches);
      var last := if Succeeds(files, items[n], FetchAt(fetches, n)) then [JoinPath(dir, ItemName(items[n]))] else [];
      assert DownloadedPaths(dir, files, items, fetches) == pre + last;
      DownloadedPathsMembers(dir, files, items[..n], fetches, p);
      if p in pre {
        var i :| Delivers(dir, files, items[..n], fetches, i, p);
        DeliversPrefix(dir, files, items, fetches, n, i, p);
      } else if p in last {
        assert Delivers(dir, files, items, fetches, n, p);
      }
      if exists i :: Delivers(dir, files, items, fetches, i, p) {
        var i :| Delivers(dir, files, items, fetches, i, p);
        DeliversPrefix(dir, files, items, fetches, n, i, p);
        if i == n { assert p in last; }
      }
    }
  }

  /** DownloadedPaths looks at the outcomes of its own items only. */
  lemma {:induction false} DownloadedPathsOutcomes(dir: string, files: Listing, items: seq<MediaItem>,
                                                   f1: seq<Fetch>, f2: seq<Fetch>)
    requires forall i :: 0 <= i < |items| ==> FetchAt(f1, i) == FetchAt(f2, i)
    ensures DownloadedPaths(dir, files, items, f1) == DownloadedPaths(dir, files, items, f2)
  {
    if items != [] {
      DownloadedPathsOutcomes(dir, files, items[..|items| - 1], f1, f2);
    }
  }

  /** `s` without its element k (unchanged when there is none). */
  function DropAt<T>(s: seq<T>, k: nat): seq<T>
  {
    if k < |s| then s[..k] + s[k + 1..] else s
  }

  lemma FetchAtDrop(fetches: seq<Fetch>, k: nat, i: nat)
    ensures FetchAt(DropAt(fetches, k), i) == FetchAt(fetches, if i < k then i else i + 1)
  {
  }

  /** Per-item isolation: a failed item is simply missing from the result;
      the items after it are treated as if it had never been listed. */
  lemma {:induction false} FailedItemOmitted(dir: string, files: Listing, items: seq<MediaItem>,
                                             fetches: seq<Fetch>, k: nat)
    requires k < |items| && !Succeeds(files, items[k], FetchAt(fetches, k))
    ensures DownloadedPaths(dir, files, items, fetches) ==
            DownloadedPaths(dir, files, DropAt(items, k), DropAt(fetches, k))
  {
    var n := |items| - 1;
    var items' := DropAt(items, k);
    var fetches' := DropAt(fetches, k);
    if k == n {
      assert items' == items[..n];
      forall i | 0 <= i < n ensures FetchAt(fetches, i) == FetchAt(fetches', i) {
        FetchAtDrop(fetches, k, i);
      }
      DownloadedPathsOutcomes(dir, files, items[..n], fetches, fetches');
    } else {
      FailedItemOmitted(dir, files, items[..n], fetches, k);
      assert items'[..n - 1] == DropAt(items[..n], k);
      assert items'[n - 1] == items[n];
      FetchAtDrop(fetches, k, n - 1);
      assert DownloadedPaths(dir, files, items', fetches') ==
        DownloadedPaths(dir, files, items'[..n - 1], fetches')
        + (if Succeeds(files, items[n], FetchAt(fetches, n)) then [JoinPath(dir, ItemName(items[n]))] else []);
    }
  }

  // ---------------------------------------------------------------------
  // Reconciliation: cleanupByIDs followed by downloadMedia

  /** keepIDs: the fileID of every manifest id. */
  function KeepSet(items: seq<MediaItem>): set<string>
  {
    set it | it in items :: FileIdOf(it.id)
  }

  function Reconcile(files: Listing, items: seq<MediaItem>, fetches: seq<Fetch>): Listing
  {
    AfterDownloads(Survivors(files, KeepSet(items)), items, fetches)
  }

  /** Item i landed and its file is called `name`. */
  predicate Creates(files: Listing, items: seq<MediaItem>, fetches: seq<Fetch>, i: int, name: string)
  {
    0 <= i < |items| && Lands(files, items[i], FetchAt(fetches, i)) && name == ItemName(items[i])
  }

  lemma CreatesPrefix(files: Listing, items: seq<MediaItem>, fetches: seq<Fetch>, n: int, i: int, name: string)
    requires 0 <= n <= |items|
    ensures Creates(files, items[..n], fetches, i, name) <==> i < n && Creates(files, items, fetches, i, name)
  {
    if 0 <= i < n { assert items[..n][i] == items[i]; }
  }

  /** HasDir is unchanged by downloads (no precondition needed). */
  lemma {:induction false} AfterDownloadsDirs(files: Listing, items: seq<MediaItem>, fetches: seq<Fetch>, m: string)
    ensures HasDir(AfterDownloads(files, items, fetches), m) == HasDir(files, m)
  {
    if items != [] {
      var n := |items| - 1;
      AfterDownloadsDirs(files, items[..n], fetches, m);
      StoreMembers(AfterDownloads(files, items[..n], fetches), ItemName(items[n]));
    }
  }

  /** Downloads never remove an entry. */
  lemma {:induction false} AfterDownloadsGrows(files: Listing, items: seq<MediaItem>, fetches: seq<Fetch>, e: Entry)
    requires e in files
    ensures e in AfterDownloads(files, items, fetches)
  {
    if items != [] {
      var n := |items| - 1;
      AfterDownloadsGrows(files, items[..n], fetches, e);
      StoreMembers(AfterDownloads(files, items[..n], fetches), ItemName(items[n]));
    }
  }

  /** An entry that downloads add is a file, named after a landed item, whose
      name was free before. */
  lemma {:induction false} AfterDownloadsNew(files: Listing, items: seq<MediaItem>, fetches: seq<Fetch>, e: Entry)
    requires e in AfterDownloads(files, items, fetches) && e !in files
    ensures !e.isDir && e.name !in Names(files)
    ensures exists i :: Creates(files, items, fetches, i, e.name)
  {
    var n := |items| - 1;
    var prev := AfterDownloads(files, items[..n], fetches);
    StoreMembers(prev, ItemName(items[n]));
    if e in prev {
      AfterDownloadsNew(files, items[..n], fetches, e);
      var i :| Creates(files, items[..n], fetches, i, e.name);
      CreatesPrefix(files, items, fetches, n, i, e.name);
    } else {
      assert e == Entry(ItemName(items[n]), false) && e.name !in Names(prev);
      if e.name in Names(files) {
        var y :| y in files && y.name == e.name;
        AfterDownloadsGrows(files, items[..n], fetches, y);
      }
      assert Creates(files, items, fetches, n, e.name);
    }
  }

  /** Storing a name no directory holds leaves a file of that name. */
  lemma StoredFile(files: Listing, name: string)
    requires !HasDir(files, name)
    ensures Entry(name, false) in Store(files, name)
  {
    StoreMembers(files, name);
    if name in Names(files) {
      var y :| y in files && y.name == name;
      assert y == Entry(name, false);
    }
  }

  /** One more item never removes an entry. */
  lemma AfterDownloadsKeeps(files: Listing, items: seq<MediaItem>, fetches: seq<Fetch>, e: Entry)
    requires items != [] && e in AfterDownloads(files, items[..|items| - 1], fetches)
    ensures e in AfterDownloads(files, items, fetches)
  {
    var n := |items| - 1;
    StoreMembers(AfterDownloads(files, items[..n], fetches), ItemName(items[n]));
  }

  /** The last item, when it lands, leaves its file in the directory. */
  lemma LandedLast(files: Listing, items: seq<MediaItem>, fetches: seq<Fetch>, i: int)
    requires i == |items| - 1 && 0 <= i && Lands(files, items[i], FetchAt(fetches, i))
    ensures Entry(ItemName(items[i]), false) in AfterDownloads(files, items, fetches)
  {
    var name := ItemName(items[i]);
    AfterDownloadsDirs(files, items[..i], fetches, name);
    StoredFile(AfterDownloads(files, items[..i], fetches), name);
  }

  /** A landed item's file is in the directory afterwards, as a file. */
  lemma {:induction false} LandedIsPresent(files: Listing, items: seq<MediaItem>, fetches: seq<Fetch>, i: int)
    requires 0 <= i < |items| && Lands(files, items[i], FetchAt(fetches, i))
    ensures Entry(ItemName(items[i]), false) in AfterDownloads(files, items, fetches)
    decreases |items|
  {
    if i < |items| - 1 {
      var before := items[..|items| - 1];
      assert before[i] == items[i];
      LandedIsPresent(files, before, fetches, i);
      AfterDownloadsKeeps(files, items, fetches, Entry(ItemName(items[i]), false));
    } else {
      LandedLast(files, items, fetches, i);
    }
  }

  /** The entries after downloads: the old ones, plus one new file for each
      landed item whose name was not there yet. */
  lemma AfterDownloadsMembers(files: Listing, items: seq<MediaItem>, fetches: seq<Fetch>, e: Entry)
    ensures e in AfterDownloads(files, items, fetches) <==>
      e in files ||
      (!e.isDir && e.name !in Names(files) && exists i :: Creates(files, items, fetches, i, e.name))
  {
    if e in files {
      AfterDownloadsGrows(files, items, fetches, e);
    } else if e in AfterDownloads(files, items, fetches) {
      AfterDownloadsNew(files, items, fetches, e);
    } else if !e.isDir && exists i :: Creates(files, items, fetches, i, e.name) {
      var i :| Creates(files, items, fetches, i, e.name);
      LandedIsPresent(files, items, fetches, i);
    }
  }

  /** After cleanup and downloads, every file with a non-empty stem has the
      stem of some manifest id: no unknown ids remain. */
  lemma NoUnknownStems(files: Listing, items: seq<MediaItem>, fetches: seq<Fetch>, e: Entry)
    requires e in Reconcile(files, items, fetches) && !e.isDir && Stem(e.name) != ""
    ensures Stem(e.name) in KeepSet(items)
  {
    var keep := KeepSet(items);
    var s := Survivors(files, keep);
    AfterDownloadsMembers(s, items, fetches, e);
    if e in s {
      SurvivorsExact(files, keep, e);
    } else {
      var i :| Creates(s, items, fetches, i, e.name);
      StemOfTargetName(items[i].id, items[i].url);
      assert items[i] in items;
    }
  }

  /** Reconciliation never creates, removes or renames a directory. */
  lemma ReconcileKeepsDirs(files: Listing, items: seq<MediaItem>, fetches: seq<Fetch>, name: string)
    ensures HasDir(Reconcile(files, items, fetches), name) == HasDir(files, name)
  {
    var keep := KeepSet(items);
    AfterDownloadsDirs(Survivors(files, keep), items, fetches, name);
    SurvivorsExact(files, keep, Entry(name, true));
  }

  lemma {:induction false} SurvivorsUnchanged(files: Listing, keep: set<string>)
    requires forall e :: e in files ==> !Doomed(e, keep)
    ensures Survivors(files, keep) == files
  {
    if files != [] {
      assert files[0] in files;
      SurvivorsUnchanged(files[1..], keep);
    }
  }

  /** Downloads whose names are all present already leave the directory as it is. */
  lemma {:induction false} AfterDownloadsStable(files: Listing, items: seq<MediaItem>, fetches: seq<Fetch>)
    requires forall i :: 0 <= i < |items| && Lands(files, items[i], FetchAt(fetches, i)) ==>
      ItemName(items[i]) in Names(files)
    ensures AfterDownloads(files, items, fetches) == files
  {
    if items != [] {
      var n := |items| - 1;
      AfterDownloadsStable(files, items[..n], fetches);
    }
  }

  /** Running the reconciler a second time with the same manifest and the
      same download outcomes leaves the directory as the first run left it. */
  lemma ReconcileIdempotent(files: Listing, items: seq<MediaItem>, fetches: seq<Fetch>)
    ensures Reconcile(Reconcile(files, items, fetches), items, fetches) == Reconcile(files, items, fetches)
  {
    var keep := KeepSet(items);
    var s := Survivors(files, keep);
    var r := Reconcile(files, items, fetches);
    forall e | e in r ensures !Doomed(e, keep) {
      if !e.isDir && Stem(e.name) != "" { NoUnknownStems(files, items, fetches, e); }
    }
    SurvivorsUnchanged(r, keep);
    forall i | 0 <= i < |items| && Lands(r, items[i], FetchAt(fetches, i))
      ensures ItemName(items[i]) in Names(r)
    {
      AfterDownloadsDirs(s, items, fetches, ItemName(items[i]));
      LandedIsPresent(s, items, fetches, i);
    }
    AfterDownloadsStable(r, items, fetches);
  }

  // ---------------------------------------------------------------------
  // listVideoFiles

  /** The paths listVideoFiles returns: every non-directory entry whose
      lower-cased name ends in a video extension, in listing order. */
  function VideoPaths(dir: string, files: Listing): seq<string>
  {
    if files == [] then []
    else
      var n := |files| - 1;
      VideoPaths(dir, files[..n])
      + (if !files[n].isDir && IsVideoName(files[n].name) then [JoinPath(dir, files[n].name)] else [])
  }

  method ListVideoFiles(dir: string, files: Listing) returns (paths: seq<string>)
    ensures paths == VideoPaths(dir, files)
  {
    paths := [];
    for i := 0 to |files|
      invariant paths == VideoPaths(dir, files[..i])
    {
      var e := files[i];
      assert files[..i + 1][..i] == files[..i];
      if !e.isDir {
        var name := ToLower(e.name);
        if HasSuffix(name, ".mkv") || HasSuffix(name, ".mp4") || HasSuffix(name, ".avi")
           || HasSuffix(name, ".webm") {
          paths := paths + [JoinPath(dir, e.name)];
        }
      }
    }
    assert files[..|files|] == files;
  }

  lemma {:induction false} VideoPathsMembers(dir: string, files: Listing, p: string)
    ensures p in VideoPaths(dir, files) <==>
      exists e :: e in files && !e.isDir && IsVideoName(e.name) && p == JoinPath(dir, e.name)
  {
    if files != [] {
      var n := |files| - 1;
      VideoPathsMembers(dir, files[..n], p);
      assert files == files[..n] + [files[n]];
    }
  }

  /** Every path downloadMedia reports is one listVideoFiles then plays. */
  lemma DownloadedAreListed(dir: string, files: Listing, items: seq<MediaItem>, fetches: seq<Fetch>, p: string)
    requires p in DownloadedPaths(dir, Survivors(files, KeepSet(items)), items, fetches)
    ensures p in VideoPaths(dir, Reconcile(files, items, fetches))
  {
    var s := Survivors(files, KeepSet(items));
    DownloadedPathsMembers(dir, s, items, fetches, p);
    var i :| Delivers(dir, s, items, fetches, i, p);
    LandedIsPresent(s, items, fetches, i);
    TargetNameIsVideo(items[i].id, items[i].url);
    VideoPathsMembers(dir, Reconcile(files, items, fetches), p);
  }
}
