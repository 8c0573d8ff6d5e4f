/**
 * The boundary to maven-dependency-plugin 2.0: the `artifactItem`
 * configuration, the two goals the mojo asks for, and what a run of a goal
 * leaves behind.
 */
module MavenDependency {

  /** The `<artifactItem>` element: groupId, artifactId, version, classifier and type (here `artifactType`). */
  datatype ArtifactItem = ArtifactItem(
    groupId: string,
    artifactId: string,
    version: string,
    classifier: string,
    artifactType: string)

  /**
   * One `executeMojo` call. `overwrite` is the text of the `<overwrite>`
   * element; `outputDirectory` is an absolute path.
   */
  datatype Request =
    | Copy(item: ArtifactItem, outputDirectory: string, destFileName: string, overwrite: string)
    | Unpack(item: ArtifactItem, outputDirectory: string, overwrite: string)

  /** The goal name passed to `goal(...)`. */
  function Goal(r: Request): string
  {
    match r
    case Copy(_, _, _, _) => "copy"
    case Unpack(_, _, _) => "unpack"
  }

  /**
   * What a goal run does, as seen by the mojo: either it throws a
   * MojoExecutionException, or it returns after creating some files
   * (absolute paths).
   */
  datatype FetchOutcome = Produced(files: set<string>) | Failed
}
