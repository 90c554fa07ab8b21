/** What the agent reads from its host: the process environment (os.Environ
    order), which paths exist (os.Stat succeeds), and the owner of the X
    server socket. From these come getEnv and the display selectors
    mplayerVideoOutput, mplayerDisplay and xauthPath, and the environment a
    child process is given. */
module Environment {
  import opened Text
  import opened Wrappers

  /** os.Environ(): "KEY=value" entries. */
  type Environ = seq<string>

  /** The host as the agent sees it. The environment, the set of existing
      paths and the socket owner do not change while the agent runs. */
  datatype Host = Host(env: Environ, existing: set<string>, x0Uid: nat)

  /** The X server socket whose presence means X11 is running on :0. */
  const X0Socket: string := "/tmp/.X11-unix/X0"

  /** A child process to start: program, arguments and its environment
      (None: inherit the agent's own). */
  datatype Command = Command(program: string, args: seq<string>, env: Option<Environ>)

  /** os.LookupEnv: the value of the first entry that starts with "key=". */
  function Lookup(env: Environ, key: string): Option<string>
  {
    if env == [] then None
    else if HasPrefix(env[0], key + "=") then Some(env[0][|key| + 1..])
    else Lookup(env[1..], key)
  }

  /** Lookup finds the first "key=" entry: a value comes from an entry
      "key=value" with no "key=" entry before it, and None means there is
      no such entry at all. */
  lemma {:induction false} LookupFirst(env: Environ, key: string)
    ensures Lookup(env, key).Some? ==>
      exists i :: 0 <= i < |env| && env[i] == key + "=" + Lookup(env, key).value
                  && (forall k :: 0 <= k < i ==> !HasPrefix(env[k], key + "="))
    ensures Lookup(env, key).None? <==> forall i :: 0 <= i < |env| ==> !HasPrefix(env[i], key + "=")
  {
    if env != [] {
      LookupFirst(env[1..], key);
      if HasPrefix(env[0], key + "=") {
        assert env[0] == key + "=" + env[0][|key| + 1..];
      } else if Lookup(env, key).Some? {
        var v := Lookup(env, key).value;
        var i :| 0 <= i < |env[1..]| && env[1..][i] == key + "=" + v
          && (forall k :: 0 <= k < i ==> !HasPrefix(env[1..][k], key + "="));
        assert env[i + 1] == key + "=" + v;
        forall k | 0 <= k < i + 1 ensures !HasPrefix(env[k], key + "=") {
          if k > 0 { assert env[k] == env[1..][k - 1]; }
        }
      } else {
        forall i | 0 <= i < |env| ensures !HasPrefix(env[i], key + "=") {
          if i > 0 { assert env[i] == env[1..][i - 1]; }
        }
      }
    }
  }

  /** os.Getenv: "" when the variable is unset. */
  function Getenv(env: Environ, key: string): string
  {
    match Lookup(env, key)
    case None => ""
    case Some(v) => v
  }

  /** getEnv(key, def): a non-empty value without its trailing slashes, else
      the default. */
  function GetEnv(env: Environ, key: string, def: string): string
  {
    var v := Getenv(env, key);
    if v != "" then TrimRight(v, '/') else def
  }

  /** getEnv returns the default exactly when the variable is empty or
      unset; otherwise a prefix of the value that does not end in '/' and
      differs from it only by the slashes it dropped. */
  lemma GetEnvCases(env: Environ, key: string, def: string)
    ensures var v := Getenv(env, key); var r := GetEnv(env, key, def);
      (v == "" ==> r == def) &&
      (v != "" ==> r <= v && (r == "" || r[|r| - 1] != '/') &&
                   forall i :: |r| <= i < |v| ==> v[i] == '/')
  {
  }

  /** A value made only of slashes comes back empty, not as the default:
      getEnv("MEDIA_DIR", "./media") with MEDIA_DIR=/ gives "". */
  lemma GetEnvRootIsEmpty(def: string)
    ensures GetEnv(["MEDIA_DIR=/"], "MEDIA_DIR", def) == ""
  {
    assert HasPrefix("MEDIA_DIR=/", "MEDIA_DIR=");
    assert "MEDIA_DIR=/"[10..] == "/";
  }

  predicate X0Exists(host: Host)
  {
    X0Socket in host.existing
  }

  /** mplayerVideoOutput: MPLAYER_VO when set; "x11" under a desktop
      (DISPLAY or WAYLAND_DISPLAY set) or when the X socket exists; else
      "fbdev2". */
  function VideoOutput(host: Host): (vo: string)
    ensures vo != ""
  {
    var forced := Getenv(host.env, "MPLAYER_VO");
    if forced != "" then forced
    else if Getenv(host.env, "DISPLAY") != "" || Getenv(host.env, "WAYLAND_DISPLAY") != "" then "x11"
    else if X0Exists(host) then "x11"
    else "fbdev2"
  }

  /** mplayerDisplay: DISPLAY when set, ":0" when the X socket exists, else "". */
  function PlayerDisplay(host: Host): string
  {
    var d := Getenv(host.env, "DISPLAY");
    if d != "" then d else if X0Exists(host) then ":0" else ""
  }

  /** Without MPLAYER_VO, X11 output is chosen exactly when DISPLAY or
      WAYLAND_DISPLAY is set or the X socket exists, and a display is known
      exactly when DISPLAY is set or the socket exists. */
  lemma SelectorsAgree(host: Host)
    requires Getenv(host.env, "MPLAYER_VO") == ""
    ensures VideoOutput(host) == "x11" <==>
      Getenv(host.env, "DISPLAY") != "" || Getenv(host.env, "WAYLAND_DISPLAY") != "" || X0Exists(host)
    ensures VideoOutput(host) != "x11" ==> VideoOutput(host) == "fbdev2"
    ensures PlayerDisplay(host) != "" <==> Getenv(host.env, "DISPLAY") != "" || X0Exists(host)
    ensures PlayerDisplay(host) != "" ==> VideoOutput(host) == "x11"
  {
  }

  /** Under Wayland alone (WAYLAND_DISPLAY set, no DISPLAY, no X socket) the
      player is told to use x11 yet no display is passed to it. */
  lemma WaylandOnlyHasNoDisplay(host: Host)
    requires Getenv(host.env, "MPLAYER_VO") == "" && Getenv(host.env, "DISPLAY") == ""
    requires Getenv(host.env, "WAYLAND_DISPLAY") != "" && !X0Exists(host)
    ensures VideoOutput(host) == "x11" && PlayerDisplay(host) == ""
  {
  }

  /** The per-user runtime directory path the X socket's owner would use. */
  function RunUserXauth(uid: nat): string
  {
    "/run/user/" + Decimal(uid) + "/.Xauthority"
  }

  /** xauthPath, as the chain of checks the code performs. */
  function XauthPath(host: Host): string
  {
    var x := Getenv(host.env, "XAUTHORITY");
    var sudo := Getenv(host.env, "SUDO_USER");
    if x != "" && x in host.existing then x
    else if sudo != "" && "/home/" + sudo + "/.Xauthority" in host.existing then "/home/" + sudo + "/.Xauthority"
    else if "/home/user/.Xauthority" in host.existing then "/home/user/.Xauthority"
    else if X0Exists(host) && RunUserXauth(host.x0Uid) in host.existing then RunUserXauth(host.x0Uid)
    else if "/var/run/lightdm/.Xauthority" in host.existing then "/var/run/lightdm/.Xauthority"
    else if "/var/lib/gdm/.Xauthority" in host.existing then "/var/lib/gdm/.Xauthority"
    else ""
  }

  /** The candidates xauthPath considers, in priority order. */
  function XauthCandidates(host: Host): seq<string>
  {
    var x := Getenv(host.env, "XAUTHORITY");
    var sudo := Getenv(host.env, "SUDO_USER");
    (if x != "" then [x] else [])
    + (if sudo != "" then ["/home/" + sudo + "/.Xauthority"] else [])
    + ["/home/user/.Xauthority"]
    + (if X0Exists(host) then [RunUserXauth(host.x0Uid)] else [])
    + ["/var/run/lightdm/.Xauthority", "/var/lib/gdm/.Xauthority"]
  }

  /** The first candidate that exists, or "". */
  function FirstExisting(cands: seq<string>, existing: set<string>): (r: string)
    ensures r == "" || (r in cands && r in existing)
  {
    if cands == [] then ""
    else if cands[0] in existing then cands[0]
    else FirstExisting(cands[1..], existing)
  }

  /** FirstExisting picks the earliest existing candidate. */
  lemma {:induction false} FirstExistingIsFirst(cands: seq<string>, existing: set<string>, i: int)
    requires 0 <= i < |cands| && cands[i] in existing
    requires forall k :: 0 <= k < i ==> cands[k] !in existing
    ensures FirstExisting(cands, existing) == cands[i]
  {
    if i > 0 {
      FirstExistingIsFirst(cands[1..], existing, i - 1);
    }
  }

  lemma {:induction false} FirstExistingNone(cands: seq<string>, existing: set<string>)
    requires forall k :: 0 <= k < |cands| ==> cands[k] !in existing
    ensures FirstExisting(cands, existing) == ""
  {
    if cands != [] {
      FirstExistingNone(cands[1..], existing);
    }
  }

  lemma FirstExistingCons(c: string, rest: seq<string>, existing: set<string>)
    ensures FirstExisting([c] + rest, existing) == if c in existing then c else FirstExisting(rest, existing)
  {
    assert ([c] + rest)[1..] == rest;
  }

  lemma FirstExistingSkip(rest: seq<string>, existing: set<string>)
    ensures FirstExisting([] + rest, existing) == FirstExisting(rest, existing)
  {
    assert [] + rest == rest;
  }

  /** xauthPath returns the first existing candidate in priority order, and
      "" only when none exists. */
  lemma XauthPathIsFirstExisting(host: Host)
    ensures XauthPath(host) == FirstExisting(XauthCandidates(host), host.existing)
  {
    var ex := host.existing;
    var x := Getenv(host.env, "XAUTHORITY");
    var sudo := Getenv(host.env, "SUDO_USER");
    var l6 := ["/var/run/lightdm/.Xauthority", "/var/lib/gdm/.Xauthority"];
    var l5 := (if X0Exists(host) then [RunUserXauth(host.x0Uid)] else []) + l6;
    var l4 := ["/home/user/.Xauthority"] + l5;
    var l3 := (if sudo != "" then ["/home/" + sudo + "/.Xauthority"] else []) + l4;
    var l2 := (if x != "" then [x] else []) + l3;
    assert XauthCandidates(host) == l2;
    FirstExistingCons("/var/run/lightdm/.Xauthority", ["/var/lib/gdm/.Xauthority"], ex);
    FirstExistingCons("/var/lib/gdm/.Xauthority", [], ex);
    if X0Exists(host) { FirstExistingCons(RunUserXauth(host.x0Uid), l6, ex); } else { FirstExistingSkip(l6, ex); }
    FirstExistingCons("/home/user/.Xauthority", l5, ex);
    if sudo != "" { FirstExistingCons("/home/" + sudo + "/.Xauthority", l4, ex); } else { FirstExistingSkip(l4, ex); }
    if x != "" { FirstExistingCons(x, l3, ex); } else { FirstExistingSkip(l3, ex); }
  }

  /** The variables whose entries the player's environment replaces. */
  predicate IsDisplayVar(entry: string)
  {
    HasPrefix(entry, "DISPLAY=") || HasPrefix(entry, "XAUTHORITY=")
  }

  /** The environment without its DISPLAY= and XAUTHORITY= entries. */
  function WithoutDisplayVars(env: Environ): (r: Environ)
    ensures forall i :: 0 <= i < |r| ==> !IsDisplayVar(r[i])
    ensures forall e :: e in r <==> e in env && !IsDisplayVar(e)
  {
    if env == [] then []
    else (if IsDisplayVar(env[0]) then [] else [env[0]]) + WithoutDisplayVars(env[1..])
  }

  lemma {:induction false} WithoutSnoc(env: Environ, e: string)
    ensures WithoutDisplayVars(env + [e]) == WithoutDisplayVars(env) + (if IsDisplayVar(e) then [] else [e])
  {
    if env == [] {
      assert env + [e] == [e];
    } else {
      assert (env + [e])[1..] == env[1..] + [e];
      WithoutSnoc(env[1..], e);
    }
  }

  /** The filtering loop of runConcatPlayback. */
  method DropDisplayVars(env: Environ) returns (kept: Environ)
    ensures kept == WithoutDisplayVars(env)
  {
    kept := [];
    for i := 0 to |env|
      invariant kept == WithoutDisplayVars(env[..i])
    {
      WithoutSnoc(env[..i], env[i]);
      assert env[..i + 1] == env[..i] + [env[i]];
      if !HasPrefix(env[i], "DISPLAY=") && !HasPrefix(env[i], "XAUTHORITY=") {
        kept := kept + [env[i]];
      }
    }
    assert env[..|env|] == env;
  }

  /** The environment the player gets: inherited unless the output is x11
      and a display is known; then the inherited one without DISPLAY= and
      XAUTHORITY=, plus DISPLAY and, when one is found, XAUTHORITY. */
  function PlayerEnv(host: Host, vo: string): Option<Environ>
  {
    var disp := PlayerDisplay(host);
    if vo == "x11" && disp != "" then
      var xauth := XauthPath(host);
      Some(WithoutDisplayVars(host.env) + ["DISPLAY=" + disp]
           + (if xauth != "" then ["XAUTHORITY=" + xauth] else []))
    else None
  }

  lemma LookupCons(e: string, rest: Environ, key: string)
    ensures Lookup([e] + rest, key) ==
      if HasPrefix(e, key + "=") then Some(e[|key| + 1..]) else Lookup(rest, key)
  {
    assert ([e] + rest)[1..] == rest;
  }

  lemma {:induction false} LookupAppend(a: Environ, b: Environ, key: string)
    requires forall i :: 0 <= i < |a| ==> !HasPrefix(a[i], key + "=")
    ensures Lookup(a + b, key) == Lookup(b, key)
  {
    if a != [] {
      assert (a + b)[1..] == a[1..] + b;
      LookupAppend(a[1..], b, key);
    } else {
      assert a + b == b;
    }
  }

  /** The player sees the chosen display as DISPLAY and the found
      authority file (or none) as XAUTHORITY, whatever the agent inherited. */
  lemma PlayerSeesDisplay(host: Host)
    requires PlayerEnv(host, "x11").Some?
    ensures var env := PlayerEnv(host, "x11").value;
      Lookup(env, "DISPLAY") == Some(PlayerDisplay(host))
      && Lookup(env, "XAUTHORITY") == (if XauthPath(host) == "" then None else Some(XauthPath(host)))
  {
    var disp := PlayerDisplay(host);
    var xauth := XauthPath(host);
    var base := WithoutDisplayVars(host.env);
    var d := "DISPLAY=" + disp;
    var extra := if xauth != "" then ["XAUTHORITY=" + xauth] else [];
    assert PlayerEnv(host, "x11").value == base + ([d] + extra);
    LookupAppend(base, [d] + extra, "DISPLAY");
    LookupAppend(base, [d] + extra, "XAUTHORITY");
    LookupCons(d, extra, "DISPLAY");
    LookupCons(d, extra, "XAUTHORITY");
    assert d[..8] == "DISPLAY=" && d[8..] == disp;
    assert !HasPrefix(d, "XAUTHORITY=") by {
      assert d[0] == 'D';
    }
    if xauth != "" {
      var xa := "XAUTHORITY=" + xauth;
      LookupCons(xa, [], "XAUTHORITY");
      assert xa[..11] == "XAUTHORITY=" && xa[11..] == xauth;
      assert extra == [xa] + [];
    }
  }
}
