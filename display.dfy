/** setDisplayResolution1280x720: which xrandr commands the agent runs to
    put the X display into 1280x720. The output of `xrandr -q` (None when it
    fails) and the set of modes xrandr accepts are inputs. */
module Display {
  import opened Text
  import opened Wrappers
  import opened Environment

  /** The modes tried, in order. */
  const Modes: seq<string> := ["1280x720", "1280x720_60.00", "1280x720_60"]

  /** The environment without its `prefix` entries. */
  function WithoutPrefix(env: Environ, prefix: string): (r: Environ)
    ensures forall i :: 0 <= i < |r| ==> !HasPrefix(r[i], prefix)
    ensures forall e :: e in r <==> e in env && !HasPrefix(e, prefix)
  {
    if env == [] then []
    else (if HasPrefix(env[0], prefix) then [] else [env[0]]) + WithoutPrefix(env[1..], prefix)
  }

  /** The environment xrandr runs with: the agent's own, or, when DISPLAY is
      empty, the agent's own without DISPLAY= entries plus DISPLAY=<display>. */
  function XrandrEnv(host: Host): Environ
  {
    if Getenv(host.env, "DISPLAY") == "" then
      WithoutPrefix(host.env, "DISPLAY=") + ["DISPLAY=" + PlayerDisplay(host)]
    else host.env
  }

  lemma {:induction false} WithoutPrefixSnoc(env: Environ, prefix: string, e: string)
    ensures WithoutPrefix(env + [e], prefix) ==
      WithoutPrefix(env, prefix) + (if HasPrefix(e, prefix) then [] else [e])
  {
    if env == [] {
      assert env + [e] == [e];
    } else {
      assert (env + [e])[1..] == env[1..] + [e];
      WithoutPrefixSnoc(env[1..], prefix, e);
    }
  }

  lemma WithoutPrefixStep(env: Environ, prefix: string, i: int)
    requires 0 <= i < |env|
    ensures WithoutPrefix(env[..i + 1], prefix) ==
      WithoutPrefix(env[..i], prefix) + (if HasPrefix(env[i], prefix) then [] else [env[i]])
  {
    assert env[..i + 1] == env[..i] + [env[i]];
    WithoutPrefixSnoc(env[..i], prefix, env[i]);
  }

  /** The environment-building part of setDisplayResolution1280x720, with its
      filtering loop. */
  method XrandrEnvironment(host: Host) returns (env: Environ)
    ensures env == XrandrEnv(host)
  {
    env := host.env;
    if Getenv(host.env, "DISPLAY") == "" {
      var filtered: Environ := [];
      for i := 0 to |env|
        invariant filtered == WithoutPrefix(env[..i], "DISPLAY=")
      {
        WithoutPrefixStep(env, "DISPLAY=", i);
        if !HasPrefix(env[i], "DISPLAY=") {
          filtered := filtered + [env[i]];
        }
      }
      assert env[..|env|] == env;
      env := filtered + ["DISPLAY=" + PlayerDisplay(host)];
    }
  }

  /** xrandr always sees the display the agent chose. */
  lemma XrandrSeesDisplay(host: Host)
    requires PlayerDisplay(host) != ""
    ensures Lookup(XrandrEnv(host), "DISPLAY") == Some(PlayerDisplay(host))
  {
    var disp := PlayerDisplay(host);
    if Getenv(host.env, "DISPLAY") == "" {
      var d := "DISPLAY=" + disp;
      LookupAppend(WithoutPrefix(host.env, "DISPLAY="), [d], "DISPLAY");
      LookupCons(d, [], "DISPLAY");
      assert [d] == [d] + [];
      assert d[..8] == "DISPLAY=" && d[8..] == disp;
    }
  }

  /** The output name taken from `xrandr -q`: the first field of the first
      line that contains " connected" and has a field, or "" when none does
      (FirstConnectedFound shows that the second test never fails). */
  function FirstConnected(lines: seq<string>): string
  {
    if lines == [] then ""
    else if Contains(lines[0], " connected") && FirstField(lines[0]) != "" then FirstField(lines[0])
    else FirstConnected(lines[1..])
  }

  /** The scan over the lines of the xrandr output. */
  method ConnectedOutput(out: string) returns (name: string)
    ensures name == FirstConnected(Lines(out))
  {
    var lines := Lines(out);
    name := "";
    var i := 0;
    while i < |lines|
      invariant 0 <= i <= |lines|
      invariant FirstConnected(lines) == FirstConnected(lines[i..])
    {
      assert lines[i..][1..] == lines[i + 1..];
      if Contains(lines[i], " connected") {
        var fields := FirstField(lines[i]);
        if |fields| >= 1 {
          name := fields;
          return;
        }
      }
      i := i + 1;
    }
  }

  lemma {:induction false} ContainsNonSpace(s: string)
    requires Contains(s, " connected")
    ensures exists i :: 0 <= i < |s| && !IsSpace(s[i])
    decreases |s|
  {
    if HasPrefix(s, " connected") {
      assert s[1] == " connected"[1];
    } else {
      ContainsNonSpace(s[1..]);
      var i :| 0 <= i < |s[1..]| && !IsSpace(s[1..][i]);
      assert s[i + 1] == s[1..][i];
    }
  }

  lemma {:induction false} FirstFieldOfNonBlank(s: string, i: int)
    requires 0 <= i < |s| && !IsSpace(s[i])
    ensures FirstField(s) != ""
    decreases |s|
  {
    if IsSpace(s[0]) {
      FirstFieldOfNonBlank(s[1..], i - 1);
    }
  }

  lemma ConnectedLineHasField(line: string)
    requires Contains(line, " connected")
    ensures FirstField(line) != ""
  {
    ContainsNonSpace(line);
    var i :| 0 <= i < |line| && !IsSpace(line[i]);
    FirstFieldOfNonBlank(line, i);
  }

  /** A line that contains " connected" always has a first field, so the
      scan finds a name exactly when some line contains " connected". */
  lemma {:induction false} FirstConnectedFound(lines: seq<string>)
    ensures FirstConnected(lines) != "" <==>
      exists k :: 0 <= k < |lines| && Contains(lines[k], " connected")
  {
    if lines != [] {
      FirstConnectedFound(lines[1..]);
      if Contains(lines[0], " connected") {
        ConnectedLineHasField(lines[0]);
      } else {
        if exists k :: 0 <= k < |lines| && Contains(lines[k], " connected") {
          var k :| 0 <= k < |lines| && Contains(lines[k], " connected");
          assert lines[1..][k - 1] == lines[k];
        }
      }
    }
  }

  /** The modes tried: each in order until xrandr accepts one. */
  function TriedModes(modes: seq<string>, accepted: set<string>): seq<string>
  {
    if modes == [] then []
    else [modes[0]] + (if modes[0] in accepted then [] else TriedModes(modes[1..], accepted))
  }

  /** The tried modes are a prefix of the list that stops at the first
      accepted mode, or runs through the whole list when none is accepted. */
  lemma {:induction false} TriedModesStopAtFirst(modes: seq<string>, accepted: set<string>)
    ensures TriedModes(modes, accepted) <= modes
    ensures forall i :: 0 <= i < |TriedModes(modes, accepted)| - 1 ==> TriedModes(modes, accepted)[i] !in accepted
    ensures TriedModes(modes, accepted) == modes ||
      (TriedModes(modes, accepted) != [] && TriedModes(modes, accepted)[|TriedModes(modes, accepted)| - 1] in accepted)
  {
    if modes != [] && modes[0] !in accepted {
      TriedModesStopAtFirst(modes[1..], accepted);
      assert modes == [modes[0]] + modes[1..];
    }
  }

  function ModeCommand(env: Environ, output: string, mode: string): Command
  {
    Command("xrandr", ["--output", output, "--mode", mode], Some(env))
  }

  function ModeCommands(env: Environ, output: string, modes: seq<string>): (cs: seq<Command>)
    ensures |cs| == |modes|
    ensures forall i :: 0 <= i < |modes| ==> cs[i] == ModeCommand(env, output, modes[i])
  {
    if modes == [] then [] else [ModeCommand(env, output, modes[0])] + ModeCommands(env, output, modes[1..])
  }

  /** The xrandr commands setDisplayResolution1280x720 runs: none without a
      display; then the query; then, once an output name is found, the mode
      switches until one succeeds. */
  function ResolutionCommands(host: Host, query: Option<string>, accepted: set<string>): seq<Command>
  {
    var disp := PlayerDisplay(host);
    if disp == "" then []
    else
      var env := XrandrEnv(host);
      var q := Command("xrandr", ["-q"], Some(env));
      match query
      case None => [q]
      case Some(out) =>
        var name := FirstConnected(Lines(out));
        if name == "" then [q] else [q] + ModeCommands(env, name, TriedModes(Modes, accepted))
  }

  method SetDisplayResolution(host: Host, query: Option<string>, accepted: set<string>) returns (cmds: seq<Command>)
    ensures cmds == ResolutionCommands(host, query, accepted)
  {
    cmds := [];
    var disp := PlayerDisplay(host);
    if disp == "" {
      return;
    }
    var env := XrandrEnvironment(host);
    cmds := [Command("xrandr", ["-q"], Some(env))];
    if query.None? {
      return;
    }
    var name := ConnectedOutput(query.value);
    if name == "" {
      return;
    }
    var switches := TryModes(env, name, accepted);
    cmds := cmds + switches;
  }

  /** tryMode(m1) || tryMode(m2) || tryMode(m3): each switch runs only when
      the ones before it failed. */
  method TryModes(env: Environ, name: string, accepted: set<string>) returns (cmds: seq<Command>)
    ensures cmds == ModeCommands(env, name, TriedModes(Modes, accepted))
  {
    assert Modes[1..] == ["1280x720_60.00", "1280x720_60"];
    assert Modes[1..][1..] == ["1280x720_60"];
    cmds := [ModeCommand(env, name, "1280x720")];
    if "1280x720" in accepted {
      return;
    }
    cmds := cmds + [ModeCommand(env, name, "1280x720_60.00")];
    if "1280x720_60.00" in accepted {
      return;
    }
    cmds := cmds + [ModeCommand(env, name, "1280x720_60")];
    assert TriedModes(Modes[1..][1..], accepted) == ["1280x720_60"];
    assert TriedModes(Modes, accepted) == Modes;
    assert ModeCommands(env, name, Modes[1..][1..]) == [ModeCommand(env, name, "1280x720_60")];
  }

  /** Nothing runs without a display; with one, the query always runs first
      under the chosen DISPLAY, and every mode switch names the connected
      output and stops at the first accepted mode. */
  lemma ResolutionPlan(host: Host, query: Option<string>, accepted: set<string>)
    ensures var cmds := ResolutionCommands(host, query, accepted);
      (cmds == [] <==> PlayerDisplay(host) == "")
      && (cmds != [] ==> cmds[0] == Command("xrandr", ["-q"], Some(XrandrEnv(host))))
      && |cmds| <= 1 + |Modes|
      && (|cmds| > 1 ==> (query.Some? &&
            var name := FirstConnected(Lines(query.value));
            name != "" && forall i :: 1 <= i < |cmds| ==> cmds[i].args[1] == name))
  {
    TriedModesStopAtFirst(Modes, accepted);
  }
}
