/**
 * The parts of java.io.File the mojo uses, on Unix-style path strings:
 * the two-argument constructor, getAbsolutePath and getName.
 */
module JavaFiles {

  const Separator: char := '/'

  /** `new File(parent, child).getPath()` for a non-null child. */
  function Child(parent: string, child: string): string
  {
    parent + [Separator] + child
  }

  /** `new File(p).getAbsolutePath()`: a relative path is resolved against the working directory. */
  function Absolute(workingDir: string, p: string): (r: string)
    ensures StartsWithSeparator(workingDir) ==> StartsWithSeparator(r)
    ensures StartsWithSeparator(p) ==> r == p
  {
    if StartsWithSeparator(p) then p else Child(workingDir, p)
  }

  predicate StartsWithSeparator(p: string)
  {
    |p| > 0 && p[0] == Separator
  }

  /**
   * `new File(p).getName()`: the part of `p` after the last separator, or
   * all of `p` when it has none.
   */
  function BaseName(p: string): string
  {
    if p == [] then []
    else if p[|p| - 1] == Separator then []
    else BaseName(p[..|p| - 1]) + [p[|p| - 1]]
  }

  /**
   * The name has no separator and ends the path; when it is not the whole
   * path, a separator comes right before it.
   */
  lemma {:induction false} BaseNameShape(p: string)
    ensures var r := BaseName(p);
      && Separator !in r
      && |r| <= |p| && p[|p| - |r|..] == r
      && (|r| < |p| ==> p[|p| - |r| - 1] == Separator)
  {
    if p != [] && p[|p| - 1] != Separator {
      BaseNameShape(p[..|p| - 1]);
    }
  }

  /** The name of a file made by `new File(dir, name)` is `name`. */
  lemma {:induction false} BaseNameOfChild(dir: string, name: string)
    requires Separator !in name
    ensures BaseName(Child(dir, name)) == name
  {
    var p := Child(dir, name);
    var r := BaseName(p);
    BaseNameShape(p);
    assert p[|p| - |name| - 1] == Separator;
    assert p[|p| - |name|..] == name;
    assert |r| == |name|;
  }
}
