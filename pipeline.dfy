/**
 * The effects of `resolveMapDependency`, `resolveHrefs` and `execute` as
 * functions of the state before them. The document is the list of its
 * topicref `href` values in document order (None for a topicref without
 * `href`); the file system is the set of absolute paths that exist; the
 * dependency plugin is an oracle from a request to what it leaves behind.
 */
module Pipeline {
  import opened Wrappers
  import opened JavaStrings
  import opened JavaFiles
  import opened MavenDependency
  import opened Failures
  import opened Coordinates
  import opened Resolution

  /** The mojo's parameters; `workingDir` resolves relative paths. */
  datatype Config = Config(
    outputDirectory: string,
    ditaMapFile: string,
    ditaTopicsDir: string,
    isOverwrite: bool,
    workingDir: string)

  /** A ditamap written by the transformer: its absolute path and its href values. */
  datatype Output = Output(path: string, hrefs: seq<Option<string>>)

  /** What the run has done so far: existing paths, goals requested, maps written. */
  datatype Env = Env(files: set<string>, log: seq<Request>, outputs: seq<Output>)

  /** The outcome of resolving one href: the new attribute value or the exception, and the new state. */
  datatype Resolved = Resolved(result: Result<string, Failure>, env: Env)

  /**
   * Where a pass over the nodes stopped: `error` is None when it reached the
   * end, `at` the index of the failing node (or the number of nodes), `nodes`
   * the href values afterwards.
   */
  datatype Halt = Halt(error: Option<Failure>, at: nat, nodes: seq<Option<string>>, env: Env)

  /** The filter of `resolveHrefs`: `"m2:".startsWith(href)`, with receiver and argument as written. */
  predicate Selected(href: string)
  {
    StartsWith("m2:", href)
  }

  /** Runs a plan: create its directory, request its goal, check its result exists. */
  function RunPlan(p: Plan, workingDir: string, href: string, fetch: Request -> FetchOutcome, env: Env): Resolved
  {
    var env1 := match p.makeDir
      case None => env
      case Some(d) => env.(files := env.files + {d});
    var env2 := env1.(log := env1.log + [p.request]);
    match fetch(p.request)
    case Failed => Resolved(Err(FetchFailed(p.request)), env2)
    case Produced(created) =>
      var env3 := env2.(files := env2.files + created);
      match p.resultFile
      case None => Resolved(Err(NullPointer), env3)
      case Some(f) =>
        var resultPath := Absolute(workingDir, f);
        if resultPath in env3.files then Resolved(Ok(resultPath), env3)
        else Resolved(Err(FileNotFound(FileNotFoundMessage(resultPath, href))), env3)
  }

  /**
   * Resolution of a coordinate, whatever produced it: the strategy, the
   * fetch, the existence check and the new value of `resolveMapDependency`.
   */
  function ResolveCoordinate(cfg: Config, fetch: Request -> FetchOutcome, env: Env, href: string, c: Coordinate): Resolved
  {
    RunPlan(PlanFor(c, cfg.ditaTopicsDir, cfg.workingDir, cfg.isOverwrite), cfg.workingDir, href, fetch, env)
  }

  /** `resolveMapDependency` on a node whose value is `href`. */
  function ResolveHref(cfg: Config, fetch: Request -> FetchOutcome, env: Env, href: string): Resolved
  {
    match Parse(href)
    case Err(e) => Resolved(Err(e), env)
    case Ok(c) => ResolveCoordinate(cfg, fetch, env, href, c)
  }

  /** A per-href resolution step, as the loop of `resolveHrefs` uses it. */
  type Resolver = (Env, string) -> Resolved

  /** `resolveMapDependency` as the step the loop runs. */
  function MapDependency(cfg: Config, fetch: Request -> FetchOutcome): Resolver
  {
    (env: Env, href: string) => ResolveHref(cfg, fetch, env, href)
  }

  /**
   * The loop of `resolveHrefs` from index `i` on, for any step `resolve`:
   * nodes in order, unselected ones skipped, a node without href or a
   * failing step ends the pass, a successful step rewrites that node.
   */
  function ResolveHrefsFrom(resolve: Resolver, env: Env, nodes: seq<Option<string>>, i: nat): Halt
    requires i <= |nodes|
    decreases |nodes| - i
  {
    if i == |nodes| then Halt(None, i, nodes, env)
    else
      match nodes[i]
      case None => Halt(Some(NullPointer), i, nodes, env)
      case Some(href) =>
        if !Selected(href) then ResolveHrefsFrom(resolve, env, nodes, i + 1)
        else
          var r := resolve(env, href);
          match r.result
          case Err(e) => Halt(Some(e), i, nodes, r.env)
          case Ok(v) => ResolveHrefsFrom(resolve, r.env, nodes[i := Some(v)], i + 1)
  }

  /** `prepareOutputDitamap`: `<outputDirectory>/<name of the ditamap file>`. */
  function OutputFile(cfg: Config): string
  {
    Child(cfg.outputDirectory, BaseName(cfg.ditaMapFile))
  }

  /** What writing the map leaves: the transformer's exception, if any, and the new state. */
  datatype Written = Written(error: Option<Failure>, env: Env)

  /**
   * `outputDitaMap`: create the output directory, then write `document` to
   * the output file unless the transformer fails (`writable` is false).
   */
  function WriteOutput(cfg: Config, document: seq<Option<string>>, env: Env, writable: bool): Written
  {
    var env1 := env.(files := env.files + {Absolute(cfg.workingDir, cfg.outputDirectory)});
    var out := Absolute(cfg.workingDir, OutputFile(cfg));
    if writable then
      Written(None, env1.(files := env1.files + {out}, outputs := env1.outputs + [Output(out, document)]))
    else
      Written(Some(OutputFailed), env1)
  }

  /** `execute`: resolve every href, then write the map, unless resolving threw. */
  function ExecuteSpec(cfg: Config, fetch: Request -> FetchOutcome, env: Env, nodes: seq<Option<string>>, writable: bool): Halt
  {
    var h := ResolveHrefsFrom(MapDependency(cfg, fetch), env, nodes, 0);
    if h.error.Some? then h
    else
      var w := WriteOutput(cfg, h.nodes, h.env, writable);
      h.(error := w.error, env := w.env)
  }

  // ---------------------------------------------------------------------
  // The filter

  /** Only the four prefixes of "m2:" pass the filter. */
  lemma SelectedIff(href: string)
    ensures Selected(href) <==> href == "" || href == "m" || href == "m2" || href == "m2:"
  {
    if Selected(href) {
      assert href == "m2:"[..|href|];
    }
  }

  /** Each href the filter passes splits into a single token. */
  lemma SelectedSplitsToOneToken(href: string)
    requires Selected(href)
    ensures |Tokens(href)| == 1
  {
    SelectedIff(href);
    if href == "m2:" {
      assert href == Join(["m2", ""], ':');
      SplitAllJoin(["m2", ""], ':');
      assert ':' in href by { assert href[2] == ':'; }
      assert SplitAll(href, ':') == ["m2", ""];
      assert DropTrailingEmpty(["m2", ""]) == DropTrailingEmpty(["m2"]);
    } else {
      assert ':' !in href;
    }
  }

  /**
   * Every href the filter passes throws at `locationPaths[1]`, before
   * anything is created or requested.
   */
  lemma SelectedHrefFailsAtIndexOne(cfg: Config, fetch: Request -> FetchOutcome, env: Env, href: string)
    requires Selected(href)
    ensures ResolveHref(cfg, fetch, env, href) == Resolved(Err(IndexOutOfBounds(1)), env)
  {
    SelectedSplitsToOneToken(href);
    ParseByTokenCount(href);
  }

  // ---------------------------------------------------------------------
  // One resolution

  /** A reference that fails to parse (four tokens or fewer) requests nothing and creates nothing. */
  lemma ParseFailureRequestsNothing(cfg: Config, fetch: Request -> FetchOutcome, env: Env, href: string)
    requires |Tokens(href)| <= 4
    ensures ResolveHref(cfg, fetch, env, href).env == env
    ensures ResolveHref(cfg, fetch, env, href).result == Err(IndexOutOfBounds(if |Tokens(href)| <= 1 then 1 else |Tokens(href)|))
  {
    ParseByTokenCount(href);
  }

  /**
   * Resolving a coordinate requests exactly its plan's goal, writes no map,
   * adds the plan's directory and the goal's files, and succeeds exactly
   * when the goal ran, there is a result file and it exists; the new value
   * is its absolute path, and a missing result file throws "File not found".
   */
  lemma ResolveCoordinateOutcome(cfg: Config, fetch: Request -> FetchOutcome, env: Env, href: string, c: Coordinate)
    ensures var p := PlanFor(c, cfg.ditaTopicsDir, cfg.workingDir, cfg.isOverwrite);
      var r := ResolveCoordinate(cfg, fetch, env, href, c);
      && r.env.log == env.log + [p.request]
      && r.env.outputs == env.outputs
      && env.files <= r.env.files
      && (fetch(p.request).Failed? ==> r.result == Err(FetchFailed(p.request)) && r.env.files == env.files + (if p.makeDir.Some? then {p.makeDir.value} else {}))
      && (fetch(p.request).Produced? && p.resultFile.None? ==> r.result == Err(NullPointer))
      && (r.result.Ok? <==> fetch(p.request).Produced? && p.resultFile.Some? && Absolute(cfg.workingDir, p.resultFile.value) in r.env.files)
      && (r.result.Ok? ==> r.result.value == Absolute(cfg.workingDir, p.resultFile.value) && r.result.value in r.env.files)
      && (fetch(p.request).Produced? ==>
            r.env.files == env.files + (if p.makeDir.Some? then {p.makeDir.value} else {}) + fetch(p.request).files)
      && (fetch(p.request).Produced? && p.resultFile.Some? && Absolute(cfg.workingDir, p.resultFile.value) !in r.env.files ==>
            r.result == Err(FileNotFound(FileNotFoundMessage(Absolute(cfg.workingDir, p.resultFile.value), href))))
  {
  }

  /**
   * A "dita" coordinate that resolves: the attribute becomes the absolute
   * path of `<topicsDir>/groupId/<artifactId>.dita`, whatever its group.
   */
  lemma DitaResolvesToCopiedFile(cfg: Config, fetch: Request -> FetchOutcome, env: Env, href: string, c: Coordinate)
    requires c.artifactType == DitaType
    requires ResolveCoordinate(cfg, fetch, env, href, c).result.Ok?
    ensures ResolveCoordinate(cfg, fetch, env, href, c).result.value
         == Absolute(cfg.workingDir, cfg.ditaTopicsDir + "/groupId/" + c.artifactId + ".dita")
  {
    DitaIsCopy(c, cfg.ditaTopicsDir, cfg.workingDir, cfg.isOverwrite);
  }

  /** A coordinate of another type without a path throws only after its `unpack` was requested. */
  lemma UnpackWithoutPathFailsAfterRequest(cfg: Config, fetch: Request -> FetchOutcome, env: Env, href: string, c: Coordinate)
    requires c.artifactType != DitaType && c.path.None?
    ensures var r := ResolveCoordinate(cfg, fetch, env, href, c);
      && r.result.Err?
      && |r.env.log| == |env.log| + 1
      && r.env.log[|env.log|].Unpack?
      && (r.result.error == NullPointer || r.result.error.FetchFailed?)
  {
  }

  /**
   * As written, no href resolves: it either fails to parse and nothing
   * happens, or it parses with an empty type and no path, so an `unpack`
   * into the topics directory is requested and then either the goal or
   * `new File(ditaTopicsDir, null)` throws.
   */
  lemma EveryHrefFails(cfg: Config, fetch: Request -> FetchOutcome, env: Env, href: string)
    ensures var r := ResolveHref(cfg, fetch, env, href);
      && r.result.Err?
      && (r.result.error.IndexOutOfBounds? <==> |Tokens(href)| <= 4)
      && (|Tokens(href)| <= 4 ==> r.env == env)
      && (|Tokens(href)| >= 5 ==>
            var request := Unpack(
              ArtifactItem(Tokens(href)[1], Tokens(href)[2], Tokens(href)[3], "", ""),
              Absolute(cfg.workingDir, cfg.ditaTopicsDir),
              BooleanToString(cfg.isOverwrite));
            && r.env.log == env.log + [request]
            && (r.result.error == NullPointer || r.result.error == FetchFailed(request)))
  {
    ParseByTokenCount(href);
  }

  /**
   * `m2:com.acme:guide:1.0:dita` is not copied as a "dita" topic: the
   * request is an `unpack` of com.acme:guide:1.0 with empty classifier and
   * type, and the resolution then throws.
   */
  lemma GuideExampleIsUnpacked(cfg: Config, fetch: Request -> FetchOutcome, env: Env)
    ensures var r := ResolveHref(cfg, fetch, env, GuideReference);
      var request := Unpack(
        ArtifactItem("com.acme", "guide", "1.0", "", ""),
        Absolute(cfg.workingDir, cfg.ditaTopicsDir),
        BooleanToString(cfg.isOverwrite));
      && r.env.log == env.log + [request]
      && (r.result == Err(NullPointer) || r.result == Err(FetchFailed(request)))
  {
    GuideExample();
  }

  // ---------------------------------------------------------------------
  // The loop

  /**
   * Shape of a pass: it stops at the first failing node or at the end; the
   * nodes before `i` and from the stop on are untouched; every node it passed
   * has an href, those it changed are selected ones, and it stops only at a
   * node without href or a selected one.
   */
  lemma {:induction false} HaltShape(resolve: Resolver, env: Env, nodes: seq<Option<string>>, i: nat)
    requires i <= |nodes|
    ensures var h := ResolveHrefsFrom(resolve, env, nodes, i);
      && i <= h.at <= |nodes|
      && |h.nodes| == |nodes|
      && (h.error.None? <==> h.at == |nodes|)
      && h.nodes[..i] == nodes[..i]
      && h.nodes[h.at..] == nodes[h.at..]
      && (forall k :: i <= k < h.at ==> nodes[k].Some? && h.nodes[k].Some?)
      && (forall k :: i <= k < h.at && h.nodes[k] != nodes[k] ==> Selected(nodes[k].value))
      && (h.error.Some? ==> nodes[h.at].None? || Selected(nodes[h.at].value))
    decreases |nodes| - i
  {
    if i < |nodes| && nodes[i].Some? {
      var href := nodes[i].value;
      if !Selected(href) {
        HaltShape(resolve, env, nodes, i + 1);
      } else {
        var r := resolve(env, href);
        if r.result.Ok? {
          var next := nodes[i := Some(r.result.value)];
          HaltShape(resolve, r.env, next, i + 1);
          var h := ResolveHrefsFrom(resolve, r.env, next, i + 1);
          assert h.nodes[..i] == nodes[..i] by {
            assert h.nodes[..i] == h.nodes[..i + 1][..i];
            assert next[..i] == next[..i + 1][..i];
          }
          assert h.nodes[h.at..] == nodes[h.at..] by {
            assert next[h.at..] == nodes[h.at..];
          }
          assert h.nodes[i] == h.nodes[..i + 1][i] == next[i];
          forall k | i < k < h.at
            ensures nodes[k].Some? && h.nodes[k].Some?
            ensures h.nodes[k] != nodes[k] ==> Selected(nodes[k].value)
          {
            assert next[k] == nodes[k];
          }
        }
      }
    }
  }

  /**
   * The first failure ends the pass: nodes after it are never visited, so
   * whatever they hold the pass ends in the same way, with the same state.
   */
  lemma {:induction false} LaterNodesNotVisited(resolve: Resolver, env: Env, nodes: seq<Option<string>>, other: seq<Option<string>>, i: nat)
    requires i <= |nodes| && i <= |other|
    requires ResolveHrefsFrom(resolve, env, nodes, i).error.Some?
    requires var at := ResolveHrefsFrom(resolve, env, nodes, i).at;
      at < |nodes| && at < |other| && nodes[..at + 1] == other[..at + 1]
    ensures var h := ResolveHrefsFrom(resolve, env, nodes, i);
      var g := ResolveHrefsFrom(resolve, env, other, i);
      && g.error == h.error && g.at == h.at && g.env == h.env
      && |h.nodes| == |nodes|
      && g.nodes == h.nodes[..h.at + 1] + other[h.at + 1..]
    decreases |nodes| - i
  {
    HaltShape(resolve, env, nodes, i);
    var h := ResolveHrefsFrom(resolve, env, nodes, i);
    var g := ResolveHrefsFrom(resolve, env, other, i);
    assert nodes[i] == other[i] by {
      assert nodes[..h.at + 1][i] == other[..h.at + 1][i];
    }
    if nodes[i].None? {
      assert g == Halt(Some(NullPointer), i, other, env);
      assert other == other[..h.at + 1] + other[h.at + 1..];
    } else if !Selected(nodes[i].value) {
      LaterNodesNotVisited(resolve, env, nodes, other, i + 1);
    } else {
      var r := resolve(env, nodes[i].value);
      if r.result.Err? {
        assert g == Halt(Some(r.result.error), i, other, r.env);
        assert other == other[..h.at + 1] + other[h.at + 1..];
      } else {
        var v := r.result.value;
        var n1, o1 := nodes[i := Some(v)], other[i := Some(v)];
        assert n1[..h.at + 1] == o1[..h.at + 1];
        LaterNodesNotVisited(resolve, r.env, n1, o1, i + 1);
        assert o1[h.at + 1..] == other[h.at + 1..];
      }
    }
  }

  /** A map without selected hrefs (every topicref having one) passes unchanged. */
  lemma {:induction false} NothingSelectedIsUnchanged(resolve: Resolver, env: Env, nodes: seq<Option<string>>, i: nat)
    requires i <= |nodes|
    requires forall k :: i <= k < |nodes| ==> nodes[k].Some? && !Selected(nodes[k].value)
    ensures ResolveHrefsFrom(resolve, env, nodes, i) == Halt(None, |nodes|, nodes, env)
    decreases |nodes| - i
  {
    if i < |nodes| {
      NothingSelectedIsUnchanged(resolve, env, nodes, i + 1);
    }
  }

  /**
   * As written, the pass never rewrites a node and never touches the file
   * system or the goal log: it succeeds exactly when every node from `i` on
   * has an href and none is selected, and otherwise stops at the first node
   * that lacks an href (NullPointerException) or is selected
   * (ArrayIndexOutOfBoundsException for index 1).
   */
  lemma {:induction false} PassNeverRewrites(cfg: Config, fetch: Request -> FetchOutcome, env: Env, nodes: seq<Option<string>>, i: nat)
    requires i <= |nodes|
    ensures var h := ResolveHrefsFrom(MapDependency(cfg, fetch), env, nodes, i);
      && h.nodes == nodes
      && h.env == env
      && (h.error.None? <==> forall k :: i <= k < |nodes| ==> nodes[k].Some? && !Selected(nodes[k].value))
      && (h.error.Some? ==>
            && h.at < |nodes|
            && (forall k :: i <= k < h.at ==> nodes[k].Some? && !Selected(nodes[k].value))
            && (if nodes[h.at].None? then h.error == Some(NullPointer) else h.error == Some(IndexOutOfBounds(1))))
    decreases |nodes| - i
  {
    if i < |nodes| && nodes[i].Some? {
      if Selected(nodes[i].value) {
        SelectedHrefFailsAtIndexOne(cfg, fetch, env, nodes[i].value);
      } else {
        PassNeverRewrites(cfg, fetch, env, nodes, i + 1);
      }
    }
  }

  // ---------------------------------------------------------------------
  // The pipeline

  /**
   * `execute` writes a map exactly when every resolution succeeded and the
   * transformer could write; the map goes to
   * `<outputDirectory>/<name of the input map>` and holds the values the pass
   * left; when a resolution fails nothing more happens.
   */
  lemma ExecuteWritesOnlyOnSuccess(cfg: Config, fetch: Request -> FetchOutcome, env: Env, nodes: seq<Option<string>>, writable: bool)
    ensures var h := ResolveHrefsFrom(MapDependency(cfg, fetch), env, nodes, 0);
      var x := ExecuteSpec(cfg, fetch, env, nodes, writable);
      && x.nodes == h.nodes
      && x.env.log == h.env.log
      && (x.error.None? <==> h.error.None? && writable)
      && (h.error.Some? ==> x == h)
      && (x.error.None? ==>
            x.env.outputs == h.env.outputs + [Output(Absolute(cfg.workingDir, cfg.outputDirectory + "/" + BaseName(cfg.ditaMapFile)), h.nodes)])
      && (x.error.Some? ==> x.env.outputs == h.env.outputs)
  {
  }

  /** The written map keeps the input map's file name. */
  lemma OutputKeepsMapName(cfg: Config)
    ensures BaseName(OutputFile(cfg)) == BaseName(cfg.ditaMapFile)
  {
    BaseNameShape(cfg.ditaMapFile);
    BaseNameOfChild(cfg.outputDirectory, BaseName(cfg.ditaMapFile));
  }

  /**
   * As written, `execute` writes the map exactly when every topicref has an
   * href, none is selected and the transformer can write, and what it writes
   * is the input unchanged; no goal is ever requested.
   */
  lemma ExecuteAsWritten(cfg: Config, fetch: Request -> FetchOutcome, env: Env, nodes: seq<Option<string>>, writable: bool)
    ensures var x := ExecuteSpec(cfg, fetch, env, nodes, writable);
      && x.nodes == nodes
      && x.env.log == env.log
      && (x.error.None? <==> writable && forall k :: 0 <= k < |nodes| ==> nodes[k].Some? && !Selected(nodes[k].value))
      && (x.error.None? ==> x.env.outputs == env.outputs + [Output(Absolute(cfg.workingDir, OutputFile(cfg)), nodes)])
  {
    PassNeverRewrites(cfg, fetch, env, nodes, 0);
  }
}
