/** The agent's main loop state and the operations that change it: the
    sync-and-play cycle (syncAndPlay), stopping playback (stopPlayback),
    starting the ffmpeg → player pipeline (runConcatPlayback), the waiter
    that reacts to the player's exit, and the scheduling loop.

    The media directory is a Listing, the contents of `.concat.txt` a string,
    the process handles optional Procs, and everything the agent does to the
    outside (blanking the screen, running xrandr, starting and killing
    processes) is appended to an event log. Network replies, download
    outcomes, write and start failures are inputs. */
module Agent {
  import opened Text
  import opened Wrappers
  import opened Naming
  import opened ControlPlane
  import opened Cache
  import opened Playlist
  import opened Environment
  import opened Display
  import opened Playback
  import opened Scheduler

  /** A started process and the command it runs. */
  datatype Proc = Proc(pid: nat, cmd: Command)

  datatype Event =
    | Blank                 // clearDisplayBlack
    | Ran(cmd: Command)     // a command run to completion (xrandr)
    | Started(proc: Proc)
    | Killed(pid: nat)

  /** What stays fixed for the agent's life: the absolute media directory,
      the player the startup checks found, the process environment and the
      paths that exist. */
  datatype Config = Config(mediaDir: string, kind: PlayerKind, host: Host)

  /** What one syncAndPlay reads from outside: the token file, the manifest
      reply, one outcome per manifest item, the `xrandr -q` output and the
      modes xrandr accepts, how the write of the concat list ends, and
      whether ffmpeg and the player start. */
  datatype SyncInputs = SyncInputs(
    jwtFile: Option<string>,
    manifest: Response<seq<MediaItem>>,
    fetches: seq<Fetch>,
    xrandrQuery: Option<string>,
    modes: set<string>,
    concatWrite: WriteOutcome,
    muxerStarts: bool,
    playerStarts: bool)

  /** The agent's state as a value. `concatList` is the text last written to
      `.concat.txt` (whether the file is still there is up to `files`);
      `cancelHeld` stands for playCancel being non-nil. */
  datatype World = World(
    files: Listing,
    concatList: string,
    ffmpeg: Option<Proc>,
    player: Option<Proc>,
    cancelHeld: bool,
    nextPid: nat,
    events: seq<Event>)

  function PidOf(e: Event): int
  {
    match e
    case Started(p) => p.pid
    case Killed(pid) => pid
    case _ => -1
  }

  /** p was started and has not been killed. */
  predicate Running(events: seq<Event>, p: Proc)
  {
    Started(p) in events && Killed(p.pid) !in events
  }

  /** The invariant of the agent's state: the directory is a sorted listing;
      the two handles are set together, name running processes, and ffmpeg
      is the older of the two; no event mentions a pid not yet handed out. */
  ghost predicate WorldValid(w: World)
  {
    Ordered(w.files)
    && (w.ffmpeg.Some? <==> w.player.Some?)
    && (w.player.Some? ==>
          w.ffmpeg.value.pid < w.player.value.pid < w.nextPid
          && Running(w.events, w.ffmpeg.value) && Running(w.events, w.player.value))
    && (forall i :: 0 <= i < |w.events| ==> PidOf(w.events[i]) < w.nextPid)
  }

  /** stopPlayback: drop the cancel function, kill the player and then
      ffmpeg when they are set, clear both handles, blank the screen. */
  function StopSpec(w: World): World
  {
    var k1 := if w.player.Some? then [Killed(w.player.value.pid)] else [];
    var k2 := if w.ffmpeg.Some? then [Killed(w.ffmpeg.value.pid)] else [];
    w.(cancelHeld := false, player := None, ffmpeg := None, events := w.events + k1 + k2 + [Blank])
  }

  function RanAll(cmds: seq<Command>): (es: seq<Event>)
    ensures |es| == |cmds|
    ensures forall i :: 0 <= i < |es| ==> es[i] == Ran(cmds[i])
  {
    if cmds == [] then [] else [Ran(cmds[0])] + RanAll(cmds[1..])
  }

  /** What syncAndPlay does between the downloads and the playback worker:
      set the resolution, blank the screen, keep a cancel function. */
  function PrepareSpec(cfg: Config, w: World, inp: SyncInputs): World
  {
    var xrandr := ResolutionCommands(cfg.host, inp.xrandrQuery, inp.modes);
    w.(events := w.events + RanAll(xrandr) + [Blank], cancelHeld := true)
  }

  /** runConcatPlayback together with the worker's assignment of its two
      results to the handles. Nothing starts without video files or when
      the list cannot be opened. Otherwise the open creates `.concat.txt`
      and the write leaves in it what WriteFile says; only a complete write
      goes on to start the processes as StartSpec says. */
  function LaunchSpec(cfg: Config, w: World, inp: SyncInputs): World
  {
    var videos := VideoPaths(cfg.mediaDir, w.files);
    if videos == [] || inp.concatWrite.OpenFailed? || HasDir(w.files, ConcatName) then
      w.(ffmpeg := None, player := None)
    else
      var listed := Listed(w, ConcatText(videos), inp.concatWrite);
      if inp.concatWrite.WriteFailed? then listed.(ffmpeg := None, player := None)
      else StartSpec(cfg, listed, inp)
  }

  /** The world once os.WriteFile of the list got past its open. */
  function Listed(w: World, text: string, o: WriteOutcome): World
  {
    w.(files := Store(w.files, ConcatName), concatList := WriteFile(Some(w.concatList), text, o).value)
  }

  /** What runConcatPlayback leaves: the directory, with `.concat.txt` only
      when the open succeeded, and a pipeline exactly when there are videos,
      the list was written whole and both processes started. */
  lemma LaunchOutcome(cfg: Config, w: World, inp: SyncInputs)
    ensures var r := LaunchSpec(cfg, w, inp);
      var runs := VideoPaths(cfg.mediaDir, w.files) != [] && inp.concatWrite.Written?
        && !HasDir(w.files, ConcatName) && inp.muxerStarts && inp.playerStarts;
      (r.files == w.files || r.files == Store(w.files, ConcatName))
      && (r.player.Some? <==> runs) && (r.ffmpeg.Some? <==> runs)
  {
  }

  /** A list write that fails after the truncating open leaves `.concat.txt`
      in the directory holding a prefix of the list, possibly empty, and
      starts nothing. */
  lemma PartialListStartsNothing(cfg: Config, w: World, inp: SyncInputs)
    requires VideoPaths(cfg.mediaDir, w.files) != [] && !HasDir(w.files, ConcatName)
    requires inp.concatWrite.WriteFailed?
    ensures var r := LaunchSpec(cfg, w, inp);
      r.files == Store(w.files, ConcatName) && r.concatList <= ConcatText(VideoPaths(cfg.mediaDir, w.files))
      && r.ffmpeg == None && r.player == None && r.events == w.events && r.nextPid == w.nextPid
  {
  }

  /** The process part of runConcatPlayback: ffmpeg first; when it starts
      and the player does not, ffmpeg is killed; when both start, both
      handles are set. */
  function StartSpec(cfg: Config, w: World, inp: SyncInputs): World
  {
    if !inp.muxerStarts then w.(ffmpeg := None, player := None)
    else
      var ff := Proc(w.nextPid, FfmpegCommand(ConcatPath(cfg.mediaDir)));
      if !inp.playerStarts then
        w.(ffmpeg := None, player := None, nextPid := w.nextPid + 1,
           events := w.events + [Started(ff), Killed(ff.pid)])
      else
        var pl := Proc(w.nextPid + 1, PlayerCommand(cfg.host, cfg.kind));
        w.(ffmpeg := Some(ff), player := Some(pl), nextPid := w.nextPid + 2,
           events := w.events + [Started(ff), Started(pl)])
  }

  /** syncAndPlay after stopPlayback: fetch the manifest; stop on an error or
      an empty list; clean up, download; stop when nothing was downloaded;
      otherwise prepare and launch. */
  function FetchStage(cfg: Config, w: World, inp: SyncInputs): World
  {
    match FetchMedia(inp.manifest)
    case Err(_) => w
    case Ok(items) =>
      if items == [] then w
      else
        var kept := Survivors(w.files, KeepSet(items));
        var downloaded := DownloadedPaths(cfg.mediaDir, kept, items, inp.fetches);
        var w1 := w.(files := AfterDownloads(kept, items, inp.fetches));
        if downloaded == [] then w1 else LaunchSpec(cfg, PrepareSpec(cfg, w1, inp), inp)
  }

  /** syncAndPlay: nothing without a token; otherwise playback stops first,
      whatever the fetch brings. */
  function SyncSpec(cfg: Config, w: World, inp: SyncInputs): World
  {
    if LoadJWT(inp.jwtFile) == "" then w else FetchStage(cfg, StopSpec(w), inp)
  }

  /** The playback worker after the player's Wait returns: kill ffmpeg when
      set and clear both handles. */
  function PlayerExitedSpec(w: World): World
  {
    var k := if w.ffmpeg.Some? then [Killed(w.ffmpeg.value.pid)] else [];
    w.(ffmpeg := None, player := None, events := w.events + k)
  }

  /** The fresh agent: the media directory as it is, nothing running. */
  function BootWorld(files: Listing): World
  {
    World(files, "", None, None, false, 0, [])
  }

  // ---------------------------------------------------------------------
  // Properties of the cycle

  /** stopPlayback kills whatever was running, leaves no handle and no cancel
      function, and leaves the directory alone. */
  lemma StopKillsAll(w: World)
    ensures var r := StopSpec(w);
      r.ffmpeg == None && r.player == None && !r.cancelHeld
      && r.files == w.files && r.events[..|w.events|] == w.events
      && (w.player.Some? ==> Killed(w.player.value.pid) in r.events)
      && (w.ffmpeg.Some? ==> Killed(w.ffmpeg.value.pid) in r.events)
      && r.events[|r.events| - 1] == Blank
  {
    var r := StopSpec(w);
    if w.player.Some? {
      assert r.events[|w.events|] == Killed(w.player.value.pid);
    }
    if w.ffmpeg.Some? {
      assert r.events[|r.events| - 2] == Killed(w.ffmpeg.value.pid);
    }
  }

  /** Without a token syncAndPlay does nothing at all. */
  lemma NoTokenNoSync(cfg: Config, w: World, inp: SyncInputs)
    requires LoadJWT(inp.jwtFile) == ""
    ensures SyncSpec(cfg, w, inp) == w
  {
  }

  /** A failed manifest fetch still tears playback down: the agent ends
      stopped, with the directory as it was. */
  lemma FetchFailureStopsPlayback(cfg: Config, w: World, inp: SyncInputs)
    requires LoadJWT(inp.jwtFile) != "" && FetchMedia(inp.manifest).Err?
    ensures SyncSpec(cfg, w, inp) == StopSpec(w)
    ensures SyncSpec(cfg, w, inp).player == None && SyncSpec(cfg, w, inp).files == w.files
  {
  }

  /** An empty manifest returns before cleanup: no file is deleted, and
      playback stays stopped. */
  lemma EmptyManifestKeepsFiles(cfg: Config, w: World, inp: SyncInputs)
    requires LoadJWT(inp.jwtFile) != "" && FetchMedia(inp.manifest) == Ok([])
    ensures SyncSpec(cfg, w, inp) == StopSpec(w)
    ensures SyncSpec(cfg, w, inp).files == w.files
  {
  }

  /** After a sync with a non-empty manifest the directory is the cleaned-up
      and downloaded one, plus the concat list when it was written. */
  lemma SyncDirectory(cfg: Config, w: World, inp: SyncInputs)
    requires LoadJWT(inp.jwtFile) != "" && FetchMedia(inp.manifest).Ok?
    requires FetchMedia(inp.manifest).value != []
    ensures var after := Reconcile(w.files, FetchMedia(inp.manifest).value, inp.fetches);
      SyncSpec(cfg, w, inp).files == after || SyncSpec(cfg, w, inp).files == Store(after, ConcatName)
  {
    var items := FetchMedia(inp.manifest).value;
    if DownloadedPaths(cfg.mediaDir, Survivors(w.files, KeepSet(items)), items, inp.fetches) != [] {
      ReachesLaunch(cfg, w, inp, items);
      LaunchOutcome(cfg, Staged(cfg, w, inp, items), inp);
    }
  }

  /** The concat list is never one of the kept ids: every cleanup removes
      the previous `.concat.txt` (a fileID has no '.'). */
  lemma ConcatListIsDoomed(items: seq<MediaItem>)
    ensures Doomed(Entry(ConcatName, false), KeepSet(items))
  {
    assert ConcatName == ".concat" + ".txt";
    ExtOfSuffix(".concat", ".txt");
    assert Stem(ConcatName) == ".concat";
    forall it | it in items ensures FileIdOf(it.id) != ".concat" {
      assert IsSafeRune(FileIdOf(it.id)[0]);
    }
  }

  /** After a sync every plain file whose stem is not empty and that is not
      the concat list belongs to an id of the current manifest. */
  lemma SyncKeepsOnlyManifestFiles(cfg: Config, w: World, inp: SyncInputs, e: Entry)
    requires LoadJWT(inp.jwtFile) != "" && FetchMedia(inp.manifest).Ok?
    requires FetchMedia(inp.manifest).value != []
    requires e in SyncSpec(cfg, w, inp).files && !e.isDir && Stem(e.name) != "" && e.name != ConcatName
    ensures Stem(e.name) in KeepSet(FetchMedia(inp.manifest).value)
  {
    var items := FetchMedia(inp.manifest).value;
    var after := Reconcile(w.files, items, inp.fetches);
    SyncDirectory(cfg, w, inp);
    if e !in after {
      StoreMembers(after, ConcatName);
    }
    NoUnknownStems(w.files, items, inp.fetches, e);
  }

  /** Every step on the way to a running pipeline succeeds. The list of
      video files is not among the conditions: a successful download is
      always listed. */
  predicate AllSucceed(cfg: Config, w: World, inp: SyncInputs)
  {
    LoadJWT(inp.jwtFile) != "" && FetchMedia(inp.manifest).Ok?
    && var items := FetchMedia(inp.manifest).value;
    items != []
    && DownloadedPaths(cfg.mediaDir, Survivors(w.files, KeepSet(items)), items, inp.fetches) != []
    && inp.concatWrite.Written? && !HasDir(w.files, ConcatName) && inp.muxerStarts && inp.playerStarts
  }

  lemma DownloadedMeansVideos(cfg: Config, w: World, inp: SyncInputs, items: seq<MediaItem>)
    requires DownloadedPaths(cfg.mediaDir, Survivors(w.files, KeepSet(items)), items, inp.fetches) != []
    ensures VideoPaths(cfg.mediaDir, Reconcile(w.files, items, inp.fetches)) != []
  {
    var dl := DownloadedPaths(cfg.mediaDir, Survivors(w.files, KeepSet(items)), items, inp.fetches);
    DownloadedAreListed(cfg.mediaDir, w.files, items, inp.fetches, dl[0]);
  }

  /** The state runConcatPlayback starts from when the sync gets that far. */
  function Staged(cfg: Config, w: World, inp: SyncInputs, items: seq<MediaItem>): World
  {
    PrepareSpec(cfg, StopSpec(w).(files := Reconcile(w.files, items, inp.fetches)), inp)
  }

  /** A sync that downloads something reaches runConcatPlayback with the
      reconciled directory, which has video files and the same directories
      as before. */
  lemma ReachesLaunch(cfg: Config, w: World, inp: SyncInputs, items: seq<MediaItem>)
    requires LoadJWT(inp.jwtFile) != "" && FetchMedia(inp.manifest) == Ok(items) && items != []
    requires DownloadedPaths(cfg.mediaDir, Survivors(w.files, KeepSet(items)), items, inp.fetches) != []
    ensures SyncSpec(cfg, w, inp) == LaunchSpec(cfg, Staged(cfg, w, inp, items), inp)
    ensures Staged(cfg, w, inp, items).files == Reconcile(w.files, items, inp.fetches)
    ensures Staged(cfg, w, inp, items).nextPid == w.nextPid
    ensures VideoPaths(cfg.mediaDir, Staged(cfg, w, inp, items).files) != []
    ensures HasDir(Staged(cfg, w, inp, items).files, ConcatName) == HasDir(w.files, ConcatName)
  {
    DownloadedMeansVideos(cfg, w, inp, items);
    ReconcileKeepsDirs(w.files, items, inp.fetches, ConcatName);
  }

  /** After a sync a pipeline is running exactly when every step of the
      sync succeeded, or when there was no token and the old one still
      runs. */
  lemma PipelineIffAllSucceed(cfg: Config, w: World, inp: SyncInputs)
    ensures SyncSpec(cfg, w, inp).player.Some? <==>
      AllSucceed(cfg, w, inp) || (LoadJWT(inp.jwtFile) == "" && w.player.Some?)
    ensures SyncSpec(cfg, w, inp).ffmpeg.Some? <==>
      AllSucceed(cfg, w, inp) || (LoadJWT(inp.jwtFile) == "" && w.ffmpeg.Some?)
  {
    if LoadJWT(inp.jwtFile) != "" && FetchMedia(inp.manifest).Ok? && FetchMedia(inp.manifest).value != [] {
      var items := FetchMedia(inp.manifest).value;
      if DownloadedPaths(cfg.mediaDir, Survivors(w.files, KeepSet(items)), items, inp.fetches) != [] {
        ReachesLaunch(cfg, w, inp, items);
        LaunchOutcome(cfg, Staged(cfg, w, inp, items), inp);
      }
    }
  }

  /** When ffmpeg starts and the player does not, the ffmpeg just started is
      killed at once and no handle is left. */
  lemma PlayerFailureKillsMuxer(cfg: Config, w: World, inp: SyncInputs)
    requires AllSucceed(cfg, w, inp.(playerStarts := true)) && !inp.playerStarts
    ensures var r := SyncSpec(cfg, w, inp);
      r.ffmpeg == None && r.player == None
      && r.nextPid == w.nextPid + 1 && |r.events| >= 2
      && r.events[|r.events| - 2] == Started(Proc(w.nextPid, FfmpegCommand(ConcatPath(cfg.mediaDir))))
      && r.events[|r.events| - 1] == Killed(w.nextPid)
  {
    ReachesLaunch(cfg, w, inp, FetchMedia(inp.manifest).value);
  }

  /** The list written for a running pipeline names the directory's video
      files: read under the doubling convention it was written with, it is
      exactly those paths, and every file downloaded in this sync is on it. */
  lemma PipelinePlaysDownloads(cfg: Config, w: World, inp: SyncInputs, p: string)
    requires AllSucceed(cfg, w, inp)
    ensures var items := FetchMedia(inp.manifest).value;
      var videos := VideoPaths(cfg.mediaDir, Reconcile(w.files, items, inp.fetches));
      ParseConcat(SyncSpec(cfg, w, inp).concatList) == Some(videos)
      && ((p in DownloadedPaths(cfg.mediaDir, Survivors(w.files, KeepSet(items)), items, inp.fetches))
            ==> p in videos)
  {
    var items := FetchMedia(inp.manifest).value;
    var videos := VideoPaths(cfg.mediaDir, Reconcile(w.files, items, inp.fetches));
    ReachesLaunch(cfg, w, inp, items);
    assert SyncSpec(cfg, w, inp).concatList == ConcatText(videos);
    ConcatRoundTrip(videos);
    if p in DownloadedPaths(cfg.mediaDir, Survivors(w.files, KeepSet(items)), items, inp.fetches) {
      DownloadedAreListed(cfg.mediaDir, w.files, items, inp.fetches, p);
    }
  }

  // ---------------------------------------------------------------------
  // The invariant

  lemma StopValid(w: World)
    requires WorldValid(w)
    ensures WorldValid(StopSpec(w))
  {
    var r := StopSpec(w);
    forall i | 0 <= i < |r.events| ensures PidOf(r.events[i]) < r.nextPid {
      if i >= |w.events| && w.player.Some? {
        assert PidOf(r.events[i]) <= w.player.value.pid || r.events[i] == Blank;
      }
    }
  }

  lemma PrepareValid(cfg: Config, w: World, inp: SyncInputs)
    requires WorldValid(w) && w.player == None && w.ffmpeg == None
    ensures WorldValid(PrepareSpec(cfg, w, inp))
    ensures PrepareSpec(cfg, w, inp).player == None && PrepareSpec(cfg, w, inp).files == w.files
  {
  }

  lemma LaunchValid(cfg: Config, w: World, inp: SyncInputs)
    requires WorldValid(w)
    ensures WorldValid(LaunchSpec(cfg, w, inp))
  {
    var videos := VideoPaths(cfg.mediaDir, w.files);
    if !(videos == [] || inp.concatWrite.OpenFailed? || HasDir(w.files, ConcatName)) {
      StoreFacts(w.files, ConcatName);
      StartValid(cfg, Listed(w, ConcatText(videos), inp.concatWrite), inp);
    }
  }

  lemma StartValid(cfg: Config, w: World, inp: SyncInputs)
    requires WorldValid(w)
    ensures WorldValid(StartSpec(cfg, w, inp))
  {
    var r := StartSpec(cfg, w, inp);
    if inp.muxerStarts {
      assert forall i :: 0 <= i < |w.events| ==>
        w.events[i] != Killed(w.nextPid) && w.events[i] != Killed(w.nextPid + 1);
      forall i | 0 <= i < |r.events| ensures PidOf(r.events[i]) < r.nextPid {
        if i < |w.events| {
          assert r.events[i] == w.events[i];
        }
      }
    }
  }

  lemma FetchStageValid(cfg: Config, w: World, inp: SyncInputs)
    requires WorldValid(w) && w.player == None && w.ffmpeg == None
    ensures WorldValid(FetchStage(cfg, w, inp))
  {
    if FetchMedia(inp.manifest).Ok? && FetchMedia(inp.manifest).value != [] {
      var items := FetchMedia(inp.manifest).value;
      var kept := Survivors(w.files, KeepSet(items));
      SurvivorsOrdered(w.files, KeepSet(items));
      AfterDownloadsFacts(kept, items, inp.fetches);
      var w1 := w.(files := AfterDownloads(kept, items, inp.fetches));
      assert WorldValid(w1);
      PrepareValid(cfg, w1, inp);
      LaunchValid(cfg, PrepareSpec(cfg, w1, inp), inp);
    }
  }

  /** syncAndPlay keeps the invariant: in particular its handles are both
      set or both unset, and name running processes. */
  lemma SyncValid(cfg: Config, w: World, inp: SyncInputs)
    requires WorldValid(w)
    ensures WorldValid(SyncSpec(cfg, w, inp))
  {
    if LoadJWT(inp.jwtFile) != "" {
      StopValid(w);
      FetchStageValid(cfg, StopSpec(w), inp);
    }
  }

  /** The waiter keeps the invariant and, when a pipeline was running, ends
      it by killing ffmpeg. */
  lemma PlayerExitedValid(w: World)
    requires WorldValid(w)
    ensures WorldValid(PlayerExitedSpec(w))
    ensures w.ffmpeg.Some? ==> PlayerExitedSpec(w).events == w.events + [Killed(w.ffmpeg.value.pid)]
    ensures PlayerExitedSpec(w).player == None && PlayerExitedSpec(w).ffmpeg == None
  {
    var r := PlayerExitedSpec(w);
    forall i | 0 <= i < |r.events| ensures PidOf(r.events[i]) < r.nextPid {
      if i < |w.events| {
        assert r.events[i] == w.events[i];
      }
    }
  }

  /** trace[k + 1] is trace[k] after pass k of a run: unchanged when the
      pass was idle, syncAndPlay with that pass's inputs otherwise. */
  ghost predicate Follows(cfg: Config, trace: seq<World>, fired: seq<Trigger>, inps: seq<SyncInputs>)
    decreases |fired|
  {
    |trace| == |fired| + 1 && |fired| <= |inps|
    && (fired != [] ==>
          var n := |fired| - 1;
          Follows(cfg, trace[..n + 1], fired[..n], inps)
          && trace[n + 1] == (if fired[n] == Idle then trace[n] else SyncSpec(cfg, trace[n], inps[n])))
  }

  lemma FollowsSnoc(cfg: Config, trace: seq<World>, fired: seq<Trigger>, inps: seq<SyncInputs>, t: Trigger, w: World)
    requires Follows(cfg, trace, fired, inps) && |fired| < |inps|
    requires w == if t == Idle then trace[|fired|] else SyncSpec(cfg, trace[|fired|], inps[|fired|])
    ensures Follows(cfg, trace + [w], fired + [t], inps)
  {
    var trace', fired' := trace + [w], fired + [t];
    assert trace'[..|fired|+1] == trace && fired'[..|fired|] == fired;
    assert trace'[|fired| + 1] == w && trace'[|fired|] == trace[|fired|] && fired'[|fired|] == t;
  }

  lemma QuietStep(done: seq<Trigger>, t: Trigger, quiet: bool)
    requires quiet <==> forall k :: 0 <= k < |done| ==> done[k] == Idle
    ensures (quiet && t == Idle) <==> forall k :: 0 <= k < |done + [t]| ==> (done + [t])[k] == Idle
  {
    var all := done + [t];
    assert all[|done|] == t;
    assert forall k :: 0 <= k < |done| ==> all[k] == done[k];
  }

  lemma BootValid(files: Listing)
    requires Ordered(files)
    ensures WorldValid(BootWorld(files))
  {
  }

  // ---------------------------------------------------------------------
  // The agent

  /** The loop's variables and the media directory, updated in place. */
  class MediaAgent {
    const cfg: Config
    var files: Listing
    var concatList: string
    var ffmpegCmd: Option<Proc>
    var playerCmd: Option<Proc>
    var playCancel: bool
    var nextPid: nat
    var events: seq<Event>

    function State(): World
      reads this
    {
      World(files, concatList, ffmpegCmd, playerCmd, playCancel, nextPid, events)
    }

    ghost predicate Valid()
      reads this
    {
      WorldValid(State())
    }

    constructor (cfg: Config, files: Listing)
      requires Ordered(files)
      ensures State() == BootWorld(files) && this.cfg == cfg
      ensures Valid()
    {
      this.cfg := cfg;
      this.files := files;
      concatList := "";
      ffmpegCmd := None;
      playerCmd := None;
      playCancel := false;
      nextPid := 0;
      events := [];
    }

    method StopPlayback()
      modifies this
      ensures State() == StopSpec(old(State()))
    {
      playCancel := false;
      if playerCmd.Some? {
        events := events + [Killed(playerCmd.value.pid)];
        playerCmd := None;
      }
      if ffmpegCmd.Some? {
        events := events + [Killed(ffmpegCmd.value.pid)];
        ffmpegCmd := None;
      }
      events := events + [Blank];
    }

    /** runConcatPlayback: returns the two handles (both None on any
        failure); the caller stores them. */
    method RunConcatPlayback(inp: SyncInputs) returns (ff: Option<Proc>, pl: Option<Proc>)
      modifies this
      ensures State().(ffmpeg := ff, player := pl) == LaunchSpec(cfg, old(State()), inp)
      ensures ffmpegCmd == old(ffmpegCmd) && playerCmd == old(playerCmd)
    {
      ff, pl := None, None;
      var videos := ListVideoFiles(cfg.mediaDir, files);
      if |videos| == 0 {
        return;
      }
      var text := BuildConcatList(videos);
      if inp.concatWrite.OpenFailed? || HasDir(files, ConcatName) {
        return;
      }
      files := Store(files, ConcatName);
      concatList := WriteFile(Some(concatList), text, inp.concatWrite).value;
      if inp.concatWrite.WriteFailed? {
        return;
      }
      ff, pl := StartPipeline(inp);
    }

    /** Starts ffmpeg, then the player on its output; kills ffmpeg when the
        player does not start. */
    method StartPipeline(inp: SyncInputs) returns (ff: Option<Proc>, pl: Option<Proc>)
      modifies this
      ensures State().(ffmpeg := ff, player := pl) == StartSpec(cfg, old(State()), inp)
      ensures ffmpegCmd == old(ffmpegCmd) && playerCmd == old(playerCmd)
    {
      ff, pl := None, None;
      if !inp.muxerStarts {
        return;
      }
      var pid := nextPid;
      var muxer := Proc(pid, FfmpegCommand(ConcatPath(cfg.mediaDir)));
      if !inp.playerStarts {
        events := events + [Started(muxer), Killed(pid)];
        nextPid := pid + 1;
        return;
      }
      var player := Proc(pid + 1, PlayerCommand(cfg.host, cfg.kind));
      events := events + [Started(muxer), Started(player)];
      nextPid := pid + 2;
      ff, pl := Some(muxer), Some(player);
    }

    /** The loop that fills keepIDs. */
    static method KeepIDs(items: seq<MediaItem>) returns (keep: set<string>)
      ensures keep == KeepSet(items)
    {
      keep := {};
      for i := 0 to |items|
        invariant keep == KeepSet(items[..i])
      {
        var id := FileID(items[i].id);
        assert items[..i + 1] == items[..i] + [items[i]];
        keep := keep + {id};
      }
      assert items[..|items|] == items;
    }

    method SyncAndPlay(inp: SyncInputs)
      requires Valid()
      modifies this
      ensures State() == SyncSpec(cfg, old(State()), inp)
      ensures Valid()
    {
      SyncValid(cfg, State(), inp);
      var jwt := LoadJWT(inp.jwtFile);
      if jwt == "" {
        return;
      }
      StopPlayback();
      FetchAndPlay(inp);
    }

    /** syncAndPlay from the fetch on. */
    method FetchAndPlay(inp: SyncInputs)
      requires Ordered(files)
      modifies this
      ensures State() == FetchStage(cfg, old(State()), inp)
    {
      var fetched := FetchMedia(inp.manifest);
      if fetched.Err? {
        return;
      }
      var items := fetched.value;
      if |items| == 0 {
        return;
      }
      var keep := KeepIDs(items);
      OrderedNamesDistinct(files);
      var kept := CleanupByIDs(files, keep);
      SurvivorsOrdered(files, keep);
      var downloaded, after, err := DownloadMedia(cfg.mediaDir, kept, items, inp.fetches);
      files := after;
      if |downloaded| == 0 {
        return;
      }
      var xrandr := SetDisplayResolution(cfg.host, inp.xrandrQuery, inp.modes);
      events := events + RanAll(xrandr) + [Blank];
      playCancel := true;
      var ff, pl := RunConcatPlayback(inp);
      ffmpegCmd, playerCmd := ff, pl;
    }

    /** The worker's code after the player's Wait returns. */
    method PlayerExited()
      requires Valid()
      modifies this
      ensures State() == PlayerExitedSpec(old(State()))
      ensures Valid()
    {
      PlayerExitedValid(State());
      if ffmpegCmd.Some? {
        events := events + [Killed(ffmpegCmd.value.pid)];
      }
      ffmpegCmd, playerCmd := None, None;
    }

    /** The main loop over a run of passes; `first` holds for the pass at
        index 0 only. Its own variables `initialSyncDone` and `lastRunDate` are held as a
        Sched, starting at Scheduler.Boot. Each pass decides as
        Scheduler.Decide does and, when it triggers, runs syncAndPlay with
        that pass's inputs. */
    method Run(obs: seq<Observation>, inps: seq<SyncInputs>) returns (fired: seq<Trigger>, ghost trace: seq<World>)
      requires Valid() && |inps| == |obs|
      modifies this
      ensures fired == Triggers(Boot, true, obs)
      ensures Follows(cfg, trace, fired, inps) && trace[0] == old(State()) && trace[|obs|] == State()
      ensures (forall k :: 0 <= k < |fired| ==> fired[k] == Idle) ==> State() == old(State())
      ensures Valid()
    {
      fired, trace := [], [State()];
      var sched := Boot;
      ghost var quiet := true;
      for i := 0 to |obs|
        invariant Valid()
        invariant fired + Triggers(sched, i == 0, obs[i..]) == Triggers(Boot, true, obs)
        invariant |fired| == i && (quiet <==> forall k :: 0 <= k < i ==> fired[k] == Idle)
        invariant quiet ==> State() == old(State())
        invariant Follows(cfg, trace, fired, inps) && trace[0] == old(State()) && trace[i] == State()
      {
        TriggersStep(Boot, obs, fired, sched, i);
        var d := Decide(sched, i == 0, obs[i]);
        QuietStep(fired, d.1, quiet);
        if d.1 != Idle {
          SyncAndPlay(inps[i]);
          quiet := false;
        }
        FollowsSnoc(cfg, trace, fired, inps, d.1, State());
        sched, fired, trace := d.0, fired + [d.1], trace + [State()];
      }
    }
  }
}
