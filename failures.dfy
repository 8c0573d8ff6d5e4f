/** The exceptions that can leave `execute()`. */
module Failures {
  import opened MavenDependency

  datatype Failure =
    /** ArrayIndexOutOfBoundsException reading `locationPaths[index]`. */
    | IndexOutOfBounds(index: int)
    /** NullPointerException: a topicref without `href`, or `new File(dir, null)`. */
    | NullPointer
    /** MojoExecutionException thrown by the dependency-plugin goal. */
    | FetchFailed(request: Request)
    /** MojoExecutionException "File not found" after a goal ran. */
    | FileNotFound(message: string)
    /** MojoExecutionException "Failed to output the converted ditamap." */
    | OutputFailed

  /** The message of the "File not found" exception, with its mismatched bracket. */
  function FileNotFoundMessage(resultPath: string, href: string): (m: string)
    ensures |m| == |resultPath| + |href| + 26
    ensures m[..17] == "File not found: [" && m[|m| - 2..] == "]."
    ensures m[17..17 + |resultPath|] == resultPath
    ensures m[17 + |resultPath|..24 + |resultPath|] == "[ for ["
    ensures m[|m| - 2 - |href|..|m| - 2] == href
  {
    "File not found: [" + resultPath + "[ for [" + href + "]."
  }
}
