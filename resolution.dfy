/**
 * Strategy and path selection of `resolveMapDependency`: type "dita" asks
 * the dependency plugin to `copy` the artifact into `<topicsDir>/groupId`,
 * any other type asks it to `unpack` the artifact into `<topicsDir>` and
 * addresses the member `<topicsDir>/<path>`.
 */
module Resolution {
  import opened Wrappers
  import opened JavaStrings
  import opened JavaFiles
  import opened MavenDependency
  import opened Coordinates

  /** The type that selects the `copy` goal. */
  const DitaType: string := "dita"

  /** The literal name of the directory `copy` writes into (not the group's value). */
  const CopyDirName: string := "groupId"

  /**
   * What resolving one coordinate does, in order: create `makeDir` if it is
   * missing, run `request`, then look for `resultFile`. A `resultFile` of None
   * is `new File(ditaTopicsDir, null)`, which throws.
   */
  datatype Plan = Plan(makeDir: Option<string>, request: Request, resultFile: Option<string>)

  /** The `<artifactItem>` built from a coordinate. */
  function Item(c: Coordinate): ArtifactItem
  {
    ArtifactItem(c.groupId, c.artifactId, c.version, c.classifier, c.artifactType)
  }

  /**
   * The plan for an arbitrary coordinate; `topicsDir` is `ditaTopicsDir`,
   * `overwrite` is `isOverwrite`. The `assert` statements of the source are
   * not evaluated (Java runs with assertions disabled), so a "dita"
   * coordinate with a path is copied all the same.
   */
  function PlanFor(c: Coordinate, topicsDir: string, workingDir: string, overwrite: bool): Plan
  {
    var overwriteText := BooleanToString(overwrite);
    if c.artifactType == DitaType then
      var destDir := Child(topicsDir, CopyDirName);
      var destFileName := c.artifactId + "." + c.artifactType;
      Plan(Some(Absolute(workingDir, destDir)),
           Copy(Item(c), Absolute(workingDir, destDir), destFileName, overwriteText),
           Some(Child(destDir, destFileName)))
    else
      Plan(None,
           Unpack(Item(c), Absolute(workingDir, topicsDir), overwriteText),
           match c.path
           case None => None
           case Some(p) => Some(Child(topicsDir, p)))
  }

  /**
   * Type "dita" is a `copy` of the artifact to
   * `<topicsDir>/groupId/<artifactId>.dita`, after creating that directory.
   */
  lemma DitaIsCopy(c: Coordinate, topicsDir: string, workingDir: string, overwrite: bool)
    requires c.artifactType == DitaType
    ensures var p := PlanFor(c, topicsDir, workingDir, overwrite);
      && p.request.Copy?
      && Goal(p.request) == "copy"
      && p.request.item == ArtifactItem(c.groupId, c.artifactId, c.version, c.classifier, DitaType)
      && p.request.outputDirectory == Absolute(workingDir, topicsDir + "/groupId")
      && p.request.destFileName == c.artifactId + ".dita"
      && p.makeDir == Some(p.request.outputDirectory)
      && p.resultFile == Some(topicsDir + "/groupId/" + c.artifactId + ".dita")
  {
    CopyPathText(topicsDir, c.artifactId);
  }

  /** The copy destination and result path, spelled out. */
  lemma CopyPathText(topicsDir: string, artifactId: string)
    ensures Child(topicsDir, CopyDirName) == topicsDir + "/groupId"
    ensures Child(Child(topicsDir, CopyDirName), artifactId + "." + DitaType)
         == topicsDir + "/groupId/" + artifactId + ".dita"
  {
    var dir := Child(topicsDir, CopyDirName);
    assert dir == topicsDir + "/groupId";
    assert Child(dir, artifactId + "." + DitaType) == dir + "/" + (artifactId + ".dita");
    assert dir + "/" + (artifactId + ".dita") == topicsDir + "/groupId/" + artifactId + ".dita";
  }

  /**
   * The copy destination depends on the artifactId alone: two "dita"
   * coordinates with the same artifactId land on the same file, whatever
   * their groups, versions, classifiers and paths.
   */
  lemma CopyDestinationIgnoresGroup(c1: Coordinate, c2: Coordinate, topicsDir: string, workingDir: string, overwrite: bool)
    requires c1.artifactType == DitaType && c2.artifactType == DitaType
    requires c1.artifactId == c2.artifactId
    ensures PlanFor(c1, topicsDir, workingDir, overwrite).resultFile == PlanFor(c2, topicsDir, workingDir, overwrite).resultFile
    ensures PlanFor(c1, topicsDir, workingDir, overwrite).makeDir == PlanFor(c2, topicsDir, workingDir, overwrite).makeDir
  {
  }

  /**
   * Any other type is an `unpack` of the artifact into `<topicsDir>`; the
   * result is `<topicsDir>/<path>`, and there is none without a path.
   */
  lemma OtherTypeIsUnpack(c: Coordinate, topicsDir: string, workingDir: string, overwrite: bool)
    requires c.artifactType != DitaType
    ensures var p := PlanFor(c, topicsDir, workingDir, overwrite);
      && p.request.Unpack?
      && Goal(p.request) == "unpack"
      && p.request.item == ArtifactItem(c.groupId, c.artifactId, c.version, c.classifier, c.artifactType)
      && p.request.outputDirectory == Absolute(workingDir, topicsDir)
      && p.makeDir.None?
      && (p.resultFile.Some? <==> c.path.Some?)
      && (c.path.Some? ==> p.resultFile == Some(topicsDir + "/" + c.path.value))
  {
  }

  /** The `<overwrite>` element is exactly "true" or "false", as the flag says. */
  lemma OverwriteElementFollowsFlag(c: Coordinate, topicsDir: string, workingDir: string, overwrite: bool)
    ensures var o := PlanFor(c, topicsDir, workingDir, overwrite).request.overwrite;
      && (o == "true" || o == "false")
      && (o == "true" <==> overwrite)
  {
  }

  /** Every result file lies below the topics directory. */
  lemma ResultBelowTopicsDir(c: Coordinate, topicsDir: string, workingDir: string, overwrite: bool)
    requires PlanFor(c, topicsDir, workingDir, overwrite).resultFile.Some?
    ensures StartsWith(PlanFor(c, topicsDir, workingDir, overwrite).resultFile.value, topicsDir + "/")
  {
  }

  /** The file name of a copy's result is `<artifactId>.dita`. */
  lemma CopyResultName(c: Coordinate, topicsDir: string, workingDir: string, overwrite: bool)
    requires c.artifactType == DitaType
    requires Separator !in c.artifactId
    ensures BaseName(PlanFor(c, topicsDir, workingDir, overwrite).resultFile.value) == c.artifactId + ".dita"
  {
    BaseNameOfChild(Child(topicsDir, CopyDirName), c.artifactId + "." + c.artifactType);
  }
}
