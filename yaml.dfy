/**
 * `CondaEnv::to_yaml`: the environment written out line by line as an
 * environment file, failing on the first dependency without a version.
 */
module Yaml {
  import opened Wrappers
  import opened Conda
  import opened Text

  const MissingVersion: string := "Missing version"

  function ChannelLine(c: string): string {
    "  - " + c
  }

  function CondaLine(p: CondaPackage): string
    requires p.version.Some?
  {
    "  - " + p.name + "=" + p.version.value
  }

  function PipLine(p: CondaPackage): string
    requires p.version.Some?
  {
    "      - " + p.name + "==" + p.version.value
  }

  function ChannelLines(channels: seq<string>): seq<string> {
    seq(|channels|, k requires 0 <= k < |channels| => ChannelLine(channels[k]))
  }

  function CondaLines(deps: seq<CondaPackage>): seq<string>
    requires Versioned(deps)
  {
    seq(|deps|, k requires 0 <= k < |deps| => CondaLine(deps[k]))
  }

  function PipLines(deps: seq<CondaPackage>): seq<string>
    requires Versioned(deps)
  {
    seq(|deps|, k requires 0 <= k < |deps| => PipLine(deps[k]))
  }

  /** The `dependencies:` block, absent when there are no conda dependencies. */
  function CondaBlock(deps: seq<CondaPackage>): seq<string>
    requires Versioned(deps)
  {
    if deps == [] then [] else ["dependencies:"] + CondaLines(deps)
  }

  /** The nested `pip:` block, absent when there are no pip dependencies. */
  function PipBlock(deps: seq<CondaPackage>): seq<string>
    requires Versioned(deps)
  {
    if deps == [] then [] else ["  - pip:"] + PipLines(deps)
  }

  /** The lines of the environment file, without their line feeds. */
  function Layout(env: CondaEnv): seq<string>
    requires Versioned(env.condaDeps) && Versioned(env.pipDeps)
  {
    ["name: " + env.name, "channels:"] + ChannelLines(env.channels)
    + CondaBlock(env.condaDeps) + PipBlock(env.pipDeps)
  }

  /** The environment file as text: each line of `Layout` ended by a line feed. */
  function Render(env: CondaEnv): string
    requires Versioned(env.condaDeps) && Versioned(env.pipDeps)
  {
    JoinLines(Layout(env))
  }

  /**
   * Builds the text by appending one line at a time; returns "Missing version"
   * at the first conda or pip dependency without a version.
   */
  method ToYaml(env: CondaEnv) returns (r: Result<string>)
    ensures r.Err? <==> !Versioned(env.condaDeps) || !Versioned(env.pipDeps)
    ensures r.Err? ==> r.error == MissingVersion
    ensures r.Ok? ==> r.value == Render(env)
  {
    var yml := "name: " + env.name + "\n";
    yml := yml + "channels:\n";
    yml := PushChannels(yml, env.channels);
    var conda := PushCondaBlock(yml, env.condaDeps);
    if conda.Err? {
      return conda;
    }
    var pip := PushPipBlock(conda.value, env.pipDeps);
    if pip.Err? {
      return pip;
    }
    RenderParts(env);
    r := pip;
  }

  /** The rendered text is the header lines, then the conda block, then the pip block. */
  lemma RenderParts(env: CondaEnv)
    requires Versioned(env.condaDeps) && Versioned(env.pipDeps)
    ensures Render(env) ==
      "name: " + env.name + "\n" + "channels:\n" + JoinLines(ChannelLines(env.channels))
      + JoinLines(CondaBlock(env.condaDeps)) + JoinLines(PipBlock(env.pipDeps))
  {
    var h := ["name: " + env.name, "channels:"];
    var c := ChannelLines(env.channels);
    var d := CondaBlock(env.condaDeps);
    var p := PipBlock(env.pipDeps);
    JoinLinesAppend(h + c + d, p);
    JoinLinesAppend(h + c, d);
    JoinLinesAppend(h, c);
    JoinLinesAppend([h[0]], [h[1]]);
    assert [h[0]] + [h[1]] == h;
  }

  /** The channel list loop: one `  - <channel>` line per channel, in order. */
  method PushChannels(yml: string, channels: seq<string>) returns (out: string)
    ensures out == yml + JoinLines(ChannelLines(channels))
  {
    out := yml;
    for i := 0 to |channels|
      invariant out == yml + JoinLines(ChannelLines(channels[..i]))
    {
      var line := "  - " + channels[i];
      JoinLinesSnoc(ChannelLines(channels[..i]), line);
      assert ChannelLines(channels[..i + 1]) == ChannelLines(channels[..i]) + [line];
      out := out + line + "\n";
    }
    assert channels[..|channels|] == channels;
  }

  /**
   * The conda block: when there are conda dependencies, the `dependencies:`
   * header and one `  - <name>=<version>` line each, or the error at the first
   * missing version.
   */
  method PushCondaBlock(yml: string, deps: seq<CondaPackage>) returns (r: Result<string>)
    ensures r.Err? <==> !Versioned(deps)
    ensures r.Err? ==> r.error == MissingVersion
    ensures r.Ok? ==> r.value == yml + JoinLines(CondaBlock(deps))
  {
    if deps == [] {
      return Ok(yml);
    }
    var out := yml + "dependencies:\n";
    for i := 0 to |deps|
      invariant Versioned(deps[..i])
      invariant out == yml + JoinLines(["dependencies:"] + CondaLines(deps[..i]))
    {
      var dep := deps[i];
      if dep.version.None? {
        return Err(MissingVersion);
      }
      var line := "  - " + dep.name + "=" + dep.version.value;
      JoinLinesSnoc(["dependencies:"] + CondaLines(deps[..i]), line);
      assert deps[..i + 1] == deps[..i] + [dep];
      assert CondaLines(deps[..i + 1]) == CondaLines(deps[..i]) + [line];
      assert ["dependencies:"] + CondaLines(deps[..i + 1]) == ["dependencies:"] + CondaLines(deps[..i]) + [line];
      out := out + line + "\n";
    }
    assert deps[..|deps|] == deps;
    r := Ok(out);
  }

  /**
   * The pip block: when there are pip dependencies, the `  - pip:` item and one
   * `      - <name>==<version>` line each, or the error at the first missing
   * version.
   */
  method PushPipBlock(yml: string, deps: seq<CondaPackage>) returns (r: Result<string>)
    ensures r.Err? <==> !Versioned(deps)
    ensures r.Err? ==> r.error == MissingVersion
    ensures r.Ok? ==> r.value == yml + JoinLines(PipBlock(deps))
  {
    if deps == [] {
      return Ok(yml);
    }
    var out := yml + "  - pip:\n";
    for i := 0 to |deps|
      invariant Versioned(deps[..i])
      invariant out == yml + JoinLines(["  - pip:"] + PipLines(deps[..i]))
    {
      var dep := deps[i];
      if dep.version.None? {
        return Err(MissingVersion);
      }
      var line := "      - " + dep.name + "==" + dep.version.value;
      JoinLinesSnoc(["  - pip:"] + PipLines(deps[..i]), line);
      assert deps[..i + 1] == deps[..i] + [dep];
      assert PipLines(deps[..i + 1]) == PipLines(deps[..i]) + [line];
      assert ["  - pip:"] + PipLines(deps[..i + 1]) == ["  - pip:"] + PipLines(deps[..i]) + [line];
      out := out + line + "\n";
    }
    assert deps[..|deps|] == deps;
    r := Ok(out);
  }

  // ---------------------------------------------------------------------
  // What the rendered text looks like

  /** The text of the conda block: nothing, or the header followed by one line per dependency. */
  lemma CondaBlockText(deps: seq<CondaPackage>)
    requires Versioned(deps)
    ensures JoinLines(CondaBlock(deps)) == if deps == [] then "" else "dependencies:\n" + JoinLines(CondaLines(deps))
  {
    if deps != [] {
      JoinLinesAppend(["dependencies:"], CondaLines(deps));
    }
  }

  lemma PipBlockText(deps: seq<CondaPackage>)
    requires Versioned(deps)
    ensures JoinLines(PipBlock(deps)) == if deps == [] then "" else "  - pip:\n" + JoinLines(PipLines(deps))
  {
    if deps != [] {
      JoinLinesAppend(["  - pip:"], PipLines(deps));
    }
  }

  /**
   * The rendered text piece by piece: the name line, the `channels:` key
   * (present even with no channels) and its entries, then the conda block
   * exactly when there are conda dependencies, then the pip block exactly when
   * there are pip dependencies, whether or not a `dependencies:` header
   * precedes it.
   */
  lemma RenderText(env: CondaEnv)
    requires Versioned(env.condaDeps) && Versioned(env.pipDeps)
    ensures Render(env) ==
      "name: " + env.name + "\n" + "channels:\n" + JoinLines(ChannelLines(env.channels))
      + (if env.condaDeps == [] then "" else "dependencies:\n" + JoinLines(CondaLines(env.condaDeps)))
      + (if env.pipDeps == [] then "" else "  - pip:\n" + JoinLines(PipLines(env.pipDeps)))
  {
    RenderParts(env);
    CondaBlockText(env.condaDeps);
    PipBlockText(env.pipDeps);
  }

  /** Where each line sits: header, channels, conda block, pip block, and nothing else. */
  lemma LayoutLines(env: CondaEnv)
    requires Versioned(env.condaDeps) && Versioned(env.pipDeps)
    ensures var lines, c := Layout(env), |env.channels|;
      var b := 2 + c + |CondaBlock(env.condaDeps)|;
      && |lines| == b + |PipBlock(env.pipDeps)|
      && lines[0] == "name: " + env.name
      && lines[1] == "channels:"
      && (forall k :: 0 <= k < c ==> lines[2 + k] == "  - " + env.channels[k])
      && |CondaBlock(env.condaDeps)| == (if env.condaDeps == [] then 0 else 1 + |env.condaDeps|)
      && (env.condaDeps != [] ==> lines[2 + c] == "dependencies:")
      && (forall k :: 0 <= k < |env.condaDeps| ==>
            lines[3 + c + k] == "  - " + env.condaDeps[k].name + "=" + env.condaDeps[k].version.value)
      && |PipBlock(env.pipDeps)| == (if env.pipDeps == [] then 0 else 1 + |env.pipDeps|)
      && (env.pipDeps != [] ==> lines[b] == "  - pip:")
      && (forall k :: 0 <= k < |env.pipDeps| ==>
            lines[b + 1 + k] == "      - " + env.pipDeps[k].name + "==" + env.pipDeps[k].version.value)
  {
    var c := |env.channels|;
    var b := 2 + c + |CondaBlock(env.condaDeps)|;
    var lines := Layout(env);
    forall k | 0 <= k < |env.condaDeps|
      ensures lines[3 + c + k] == CondaLine(env.condaDeps[k])
    {
      assert lines[3 + c + k] == CondaBlock(env.condaDeps)[1 + k];
    }
    forall k | 0 <= k < |env.pipDeps|
      ensures lines[b + 1 + k] == PipLine(env.pipDeps[k])
    {
      assert lines[b + 1 + k] == PipBlock(env.pipDeps)[1 + k];
    }
  }

  // ---------------------------------------------------------------------
  // Reading the text back as lines

  /** Field values that keep every rendered line on one line. */
  predicate PlainDeps(deps: seq<CondaPackage>) {
    forall k :: 0 <= k < |deps| ==>
      '\n' !in deps[k].name && (deps[k].version.Some? ==> SingleLine(deps[k].version.value))
  }

  predicate Plain(env: CondaEnv) {
    && SingleLine(env.name)
    && (forall k :: 0 <= k < |env.channels| ==> SingleLine(env.channels[k]))
    && PlainDeps(env.condaDeps)
    && PlainDeps(env.pipDeps)
  }

  lemma SingleLineAfter(prefix: string, s: string)
    requires '\n' !in prefix && prefix != [] && prefix[|prefix| - 1] != '\r'
    requires SingleLine(s)
    ensures SingleLine(prefix + s)
  {
    if s == [] {
      assert prefix + s == prefix;
    } else {
      assert (prefix + s)[|prefix + s| - 1] == s[|s| - 1];
    }
  }

  lemma LayoutSingleLines(env: CondaEnv)
    requires Versioned(env.condaDeps) && Versioned(env.pipDeps) && Plain(env)
    ensures forall k :: 0 <= k < |Layout(env)| ==> SingleLine(Layout(env)[k])
  {
    var lines := Layout(env);
    var c := |env.channels|;
    var b := 2 + c + |CondaBlock(env.condaDeps)|;
    LayoutLines(env);
    forall k | 0 <= k < |lines| ensures SingleLine(lines[k]) {
      if k == 0 {
        SingleLineAfter("name: ", env.name);
      } else if k == 1 {
      } else if k < 2 + c {
        SingleLineAfter("  - ", env.channels[k - 2]);
      } else if k == 2 + c && env.condaDeps != [] {
      } else if k < b {
        var p := env.condaDeps[k - 3 - c];
        var prefix := "  - " + p.name + "=";
        assert prefix[|prefix| - 1] == '=';
        SingleLineAfter(prefix, p.version.value);
        assert lines[k] == prefix + p.version.value;
      } else if k == b {
      } else {
        var p := env.pipDeps[k - b - 1];
        var prefix := "      - " + p.name + "==";
        assert prefix[|prefix| - 1] == '=';
        SingleLineAfter(prefix, p.version.value);
        assert lines[k] == prefix + p.version.value;
      }
    }
  }

  /**
   * When no field holds a line break, splitting the rendered text into lines
   * (as `str::lines` does) gives back exactly the layout: the text has no
   * other lines.
   */
  lemma RenderLines(env: CondaEnv)
    requires Versioned(env.condaDeps) && Versioned(env.pipDeps) && Plain(env)
    ensures SplitLines(Render(env)) == Layout(env)
  {
    LayoutSingleLines(env);
    SplitJoinLines(Layout(env));
  }

  /** A `dependencies:` line is written if and only if there are conda dependencies. */
  lemma DependenciesHeaderIff(env: CondaEnv)
    requires Versioned(env.condaDeps) && Versioned(env.pipDeps)
    ensures "dependencies:" in Layout(env) <==> env.condaDeps != []
  {
    var lines := Layout(env);
    var c := |env.channels|;
    var b := 2 + c + |CondaBlock(env.condaDeps)|;
    LayoutLines(env);
    if env.condaDeps == [] {
      forall k | 0 <= k < |lines| ensures lines[k] != "dependencies:" {
        if k == 0 {
          assert lines[k][0] == 'n';
        } else if k == 1 {
        } else {
          assert lines[k][0] == ' ';
        }
      }
    } else {
      assert lines[2 + c] == "dependencies:";
    }
  }

  /**
   * The `  - pip:` item is written if and only if there are pip dependencies,
   * whatever the conda dependencies, provided no channel is itself named `pip:`.
   */
  lemma PipHeaderIff(env: CondaEnv)
    requires Versioned(env.condaDeps) && Versioned(env.pipDeps)
    requires "pip:" !in env.channels
    ensures "  - pip:" in Layout(env) <==> env.pipDeps != []
  {
    var lines := Layout(env);
    var c := |env.channels|;
    var b := 2 + c + |CondaBlock(env.condaDeps)|;
    LayoutLines(env);
    if env.pipDeps == [] {
      forall k | 0 <= k < |lines| ensures lines[k] != "  - pip:" {
        if k == 0 {
          assert lines[k][0] == 'n';
        } else if k == 1 {
        } else if k < 2 + c {
          var ch := env.channels[k - 2];
          assert lines[k][4..] == ch;
          assert ch != "pip:";
        } else if k == 2 + c {
        } else {
          var p := env.condaDeps[k - 3 - c];
          assert lines[k][4 + |p.name|] == '=';
        }
      }
    } else {
      assert lines[b] == "  - pip:";
    }
  }
}
