/** The two commands of the playback pipeline runConcatPlayback starts:
    ffmpeg reads the concat list in an endless loop and writes one Matroska
    stream to its stdout; the player (mplayer or mpv, whichever the startup
    checks found) reads that stream from its stdin. */
module Playback {
  import opened Text
  import opened Wrappers
  import opened Naming
  import opened Environment

  datatype PlayerKind = MPlayer | Mpv

  /** The name of the concat list inside the media directory. */
  const ConcatName: string := ".concat.txt"

  function ConcatPath(dir: string): string
  {
    JoinPath(dir, ConcatName)
  }

  /** ffmpeg: loop the list forever, regenerate timestamps, copy the streams
      into Matroska on stdout; it runs with the agent's environment. */
  function FfmpegCommand(concatPath: string): (c: Command)
    ensures c.program == "ffmpeg" && c.env == None
    ensures |c.args| == 15 && c.args[14] == "-" && c.args[6] == "-i" && c.args[7] == concatPath
  {
    Command("ffmpeg",
      ["-stream_loop", "-1", "-f", "concat", "-safe", "0", "-i", concatPath,
       "-fflags", "+genpts", "-c", "copy", "-f", "matroska", "-"],
      None)
  }

  /** mpv's video output: fbdev2 is not an mpv output, so it becomes drm. */
  function MpvOutput(vo: string): string
  {
    if vo == "fbdev2" then "drm" else vo
  }

  /** The player's arguments for output `vo` and ALSA device `audio`. */
  function PlayerArgs(kind: PlayerKind, vo: string, audio: string): seq<string>
  {
    match kind
    case Mpv =>
      ["-", "--vo=" + MpvOutput(vo), "--ao=alsa", "--vf=scale=1280:720",
       "--cache=yes", "--demuxer-max-bytes=150M"]
      + (if vo == "x11" then ["--fs"] else [])
    case MPlayer =>
      ["-ao", "alsa:device=" + audio, "-vo", vo, "-vf", "scale=1280:720",
       "-lavdopts", "lowres=0:fast", "-cache", "32768"]
      + (if vo == "x11" then ["-fs"] else []) + ["-"]
  }

  function ProgramName(kind: PlayerKind): string
  {
    match kind
    case Mpv => "mpv"
    case MPlayer => "mplayer"
  }

  /** The player command: output from mplayerVideoOutput, audio device from
      MPLAYER_AUDIO_DEVICE (default plughw:1,0), environment from PlayerEnv. */
  function PlayerCommand(host: Host, kind: PlayerKind): Command
  {
    var vo := VideoOutput(host);
    var audio := GetEnv(host.env, "MPLAYER_AUDIO_DEVICE", "plughw:1,0");
    Command(ProgramName(kind), PlayerArgs(kind, vo, audio), PlayerEnv(host, vo))
  }

  /** Both players read the stream from stdin ("-"), and ffmpeg writes it to
      stdout, so the pipe joins the two. */
  lemma PipelineJoins(host: Host, kind: PlayerKind, concatPath: string)
    ensures "-" in PlayerCommand(host, kind).args
    ensures FfmpegCommand(concatPath).args[14] == "-"
  {
    var args := PlayerCommand(host, kind).args;
    if kind == Mpv {
      assert args[0] == "-";
    } else {
      assert args[|args| - 1] == "-";
    }
  }

  /** Full screen is asked for exactly under X11: the flag is one extra
      argument, at its fixed place. */
  lemma FullscreenOnlyUnderX11(kind: PlayerKind, vo: string, audio: string)
    ensures kind == Mpv ==> |PlayerArgs(kind, vo, audio)| == (if vo == "x11" then 7 else 6)
    ensures kind == Mpv && vo == "x11" ==> PlayerArgs(kind, vo, audio)[6] == "--fs"
    ensures kind == MPlayer ==> |PlayerArgs(kind, vo, audio)| == (if vo == "x11" then 12 else 11)
    ensures kind == MPlayer && vo == "x11" ==> PlayerArgs(kind, vo, audio)[10] == "-fs"
  {
    if kind == MPlayer && vo == "x11" {
      var base := ["-ao", "alsa:device=" + audio, "-vo", vo, "-vf", "scale=1280:720",
                   "-lavdopts", "lowres=0:fast", "-cache", "32768"];
      assert PlayerArgs(kind, vo, audio) == base + ["-fs"] + ["-"];
      assert |base| == 10;
    }
  }

  /** mpv is given the chosen output, with fbdev2 replaced by drm; mplayer
      gets it unchanged together with the ALSA device. */
  lemma OutputsPassed(vo: string, audio: string)
    ensures PlayerArgs(Mpv, vo, audio)[1] == "--vo=" + (if vo == "fbdev2" then "drm" else vo)
    ensures PlayerArgs(MPlayer, vo, audio)[3] == vo
    ensures PlayerArgs(MPlayer, vo, audio)[1] == "alsa:device=" + audio
  {
  }

  /** mpv ignores MPLAYER_AUDIO_DEVICE: its arguments do not depend on the
      device. */
  lemma MpvIgnoresAudioDevice(vo: string, a1: string, a2: string)
    ensures PlayerArgs(Mpv, vo, a1) == PlayerArgs(Mpv, vo, a2)
    ensures a1 != a2 ==> PlayerArgs(MPlayer, vo, a1) != PlayerArgs(MPlayer, vo, a2)
  {
    if a1 != a2 {
      var d1 := "alsa:device=" + a1;
      var d2 := "alsa:device=" + a2;
      assert d1[12..] == a1 && d2[12..] == a2;
      assert PlayerArgs(MPlayer, vo, a1)[1] == d1;
      assert PlayerArgs(MPlayer, vo, a2)[1] == d2;
    }
  }

  /** The player gets its own environment only under X11 with a known
      display; then it sees that display as DISPLAY. Otherwise it inherits
      the agent's. */
  lemma PlayerEnvironment(host: Host, kind: PlayerKind)
    ensures var c := PlayerCommand(host, kind);
      (c.env.Some? <==> VideoOutput(host) == "x11" && PlayerDisplay(host) != "")
      && (c.env.Some? ==> Lookup(c.env.value, "DISPLAY") == Some(PlayerDisplay(host)))
  {
    if PlayerCommand(host, kind).env.Some? {
      PlayerSeesDisplay(host);
    }
  }
}
