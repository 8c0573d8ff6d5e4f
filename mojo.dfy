/**
 * The mojo itself: its parameters, the state it changes (the file system
 * and the goals it requests), and the methods `resolveMapDependency`,
 * `resolveHrefs`, `prepareOutputDitamap`, `outputDitaMap` and `execute`,
 * each proved against the functions of Pipeline.
 */
module Mojo {
  import opened Wrappers
  import opened JavaFiles
  import opened MavenDependency
  import opened Failures
  import opened Coordinates
  import opened Resolution
  import opened Pipeline

  class DitamapMojo {
    /** outputDirectory, ditaMapFile, ditaTopicsDir, isOverwrite and the working directory. */
    const config: Config
    /** What each dependency-plugin goal does. */
    const fetch: Request -> FetchOutcome

    /** The absolute paths that exist. */
    var files: set<string>
    /** The goals requested so far, in order. */
    var log: seq<Request>
    /** The ditamaps written so far. */
    var outputs: seq<Output>

    constructor (config: Config, fetch: Request -> FetchOutcome, files: set<string>)
      ensures this.config == config && this.fetch == fetch
      ensures State() == Env(files, [], [])
    {
      this.config := config;
      this.fetch := fetch;
      this.files := files;
      this.log := [];
      this.outputs := [];
    }

    function State(): Env
      reads this
    {
      Env(files, log, outputs)
    }

    /** Creates the directory `dir` unless it already exists. */
    method MakeDirs(dir: string)
      modifies this`files
      ensures files == old(files) + {dir}
    {
      if dir !in files {
        files := files + {dir};
      }
    }

    /** `executeMojo(...)` for one goal: logged, then it either throws or creates files. */
    method ExecuteMojo(request: Request) returns (ok: bool)
      modifies this`log, this`files
      ensures ok <==> fetch(request).Produced?
      ensures log == old(log) + [request]
      ensures files == if ok then old(files) + fetch(request).files else old(files)
    {
      log := log + [request];
      match fetch(request)
      case Failed =>
        ok := false;
      case Produced(created) =>
        files := files + created;
        ok := true;
    }

    /**
     * The strategy, fetch, existence check and rewrite of
     * `resolveMapDependency` for a coordinate: run its plan, check the
     * result file, and on success set node `i` to its absolute path.
     */
    method FetchAndRewrite(nodes: array<Option<string>>, i: nat, href: string, c: Coordinate) returns (err: Option<Failure>)
      requires i < nodes.Length
      modifies this, nodes
      ensures var r := ResolveCoordinate(config, fetch, old(State()), href, c);
        && State() == r.env
        && err == (if r.result.Ok? then None else Some(r.result.error))
        && nodes[..] == (if r.result.Ok? then old(nodes[..])[i := Some(r.result.value)] else old(nodes[..]))
    {
      var plan := PlanFor(c, config.ditaTopicsDir, config.workingDir, config.isOverwrite);
      if plan.makeDir.Some? {
        MakeDirs(plan.makeDir.value);
      }
      var ok := ExecuteMojo(plan.request);
      if !ok {
        return Some(FetchFailed(plan.request));
      }
      if plan.resultFile.None? {
        return Some(NullPointer);
      }
      var resultPath := Absolute(config.workingDir, plan.resultFile.value);
      if resultPath !in files {
        return Some(FileNotFound(FileNotFoundMessage(resultPath, href)));
      }
      nodes[i] := Some(resultPath);
      err := None;
    }

    /** `resolveMapDependency(node)` for node `i`: parse its value, then fetch and rewrite. */
    method ResolveMapDependency(nodes: array<Option<string>>, i: nat) returns (err: Option<Failure>)
      requires i < nodes.Length && nodes[i].Some?
      modifies this, nodes
      ensures var r := ResolveHref(config, fetch, old(State()), old(nodes[i].value));
        && State() == r.env
        && err == (if r.result.Ok? then None else Some(r.result.error))
        && nodes[..] == (if r.result.Ok? then old(nodes[..])[i := Some(r.result.value)] else old(nodes[..]))
    {
      var href := nodes[i].value;
      var parsed := Parse(href);
      if parsed.Err? {
        return Some(parsed.error);
      }
      err := FetchAndRewrite(nodes, i, href, parsed.value);
    }

    /**
     * `resolveHrefs`: the nodes in order, each selected one resolved in
     * place; the first exception ends the loop.
     */
    method ResolveHrefs(nodes: array<Option<string>>) returns (err: Option<Failure>)
      modifies this, nodes
      ensures var h := ResolveHrefsFrom(MapDependency(config, fetch), old(State()), old(nodes[..]), 0);
        err == h.error && nodes[..] == h.nodes && State() == h.env
    {
      ghost var resolve := MapDependency(config, fetch);
      var i := 0;
      err := None;
      while i < nodes.Length && err.None?
        invariant 0 <= i <= nodes.Length
        invariant err.None? ==>
          ResolveHrefsFrom(resolve, old(State()), old(nodes[..]), 0) == ResolveHrefsFrom(resolve, State(), nodes[..], i)
        invariant err.Some? ==>
          ResolveHrefsFrom(resolve, old(State()), old(nodes[..]), 0) == Halt(err, i, nodes[..], State())
        decreases nodes.Length - i + (if err.None? then 1 else 0)
      {
        var node := nodes[i];
        if node.None? {
          err := Some(NullPointer);
        } else if Selected(node.value) {
          err := ResolveMapDependency(nodes, i);
        }
        if err.None? {
          i := i + 1;
        }
      }
    }

    /** `prepareOutputDitamap`: create the output directory, name the output file. */
    method PrepareOutputDitamap() returns (outputFile: string)
      modifies this`files
      ensures outputFile == OutputFile(config)
      ensures files == old(files) + {Absolute(config.workingDir, config.outputDirectory)}
    {
      MakeDirs(Absolute(config.workingDir, config.outputDirectory));
      outputFile := Child(config.outputDirectory, BaseName(config.ditaMapFile));
    }

    /** `outputDitaMap`: write the map's current values, unless the transformer fails. */
    method OutputDitaMap(document: seq<Option<string>>, writable: bool) returns (err: Option<Failure>)
      modifies this`files, this`outputs
      ensures var w := WriteOutput(config, document, old(State()), writable);
        err == w.error && State() == w.env
    {
      ghost var w := WriteOutput(config, document, State(), writable);
      var outputFile := PrepareOutputDitamap();
      if writable {
        var path := Absolute(config.workingDir, outputFile);
        assert path == Absolute(config.workingDir, OutputFile(config));
        outputs := outputs + [Output(path, document)];
        files := files + {path};
        err := None;
      } else {
        err := Some(OutputFailed);
      }
      assert files == w.env.files && outputs == w.env.outputs;
    }

    /**
     * `execute`: resolve, then write. As written it never rewrites a node
     * and never requests a goal.
     */
    method Execute(nodes: array<Option<string>>, writable: bool) returns (err: Option<Failure>)
      modifies this, nodes
      ensures var x := ExecuteSpec(config, fetch, old(State()), old(nodes[..]), writable);
        err == x.error && nodes[..] == x.nodes && State() == x.env
    {
      err := ResolveHrefs(nodes);
      if err.Some? {
        return;
      }
      err := OutputDitaMap(nodes[..], writable);
    }
  }
}
