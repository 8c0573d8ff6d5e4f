/**
 * The coordinate parser of `resolveMapDependency`: the href is split on
 * ':' and tokens 1 to 3 read as groupId, artifactId and version; the
 * classifier, the type and the internal path come from a branch on the
 * token count.
 */
module Coordinates {
  import opened Wrappers
  import opened JavaStrings
  import opened Failures

  /** The fields `resolveMapDependency` derives from an href; `path` None is Java's null. */
  datatype Coordinate = Coordinate(
    groupId: string,
    artifactId: string,
    version: string,
    classifier: string,
    artifactType: string,
    path: Option<string>)

  /** `tokens[k]` in Java: an ArrayIndexOutOfBoundsException when `k` is past the end. */
  function At(tokens: seq<string>, k: int): Result<string, Failure>
  {
    if 0 <= k < |tokens| then Ok(tokens[k]) else Err(IndexOutOfBounds(k))
  }

  /** The tokens of an href: `locationPath.split(":")`. */
  function Tokens(href: string): seq<string>
  {
    Split(href, ':')
  }

  /**
   * The parse, branch for branch as written: indices 1, 2 and 3 are read
   * unconditionally; then `length < 5` selects the branch that reads
   * index 4 (and, under `length >= 6` and `length >= 7`, indices 5 and 7),
   * while five or more tokens give an empty classifier and type and no path.
   */
  function Parse(href: string): Result<Coordinate, Failure>
  {
    var tokens := Tokens(href);
    var groupId :- At(tokens, 1);
    var artifactId :- At(tokens, 2);
    var version :- At(tokens, 3);
    if |tokens| < 5 then
      match At(tokens, 4)
      case Err(e) => Err(e)
      case Ok(classifier) =>
        if |tokens| >= 6 then
          match At(tokens, 5)
          case Err(e) => Err(e)
          case Ok(artifactType) =>
            if |tokens| >= 7 then
              match At(tokens, 7)
              case Err(e) => Err(e)
              case Ok(path) => Ok(Coordinate(groupId, artifactId, version, classifier, artifactType, Some(path)))
            else
              Ok(Coordinate(groupId, artifactId, version, classifier, artifactType, None))
        else
          Ok(Coordinate(groupId, artifactId, version, classifier, "", None))
    else
      Ok(Coordinate(groupId, artifactId, version, "", "", None))
  }

  /**
   * The token-count table the branches above amount to: with fewer than
   * five tokens the first missing index among 1..4 is reported, and with
   * five or more the coordinate takes tokens 1 to 3 and nothing else.
   */
  lemma ParseByTokenCount(href: string)
    ensures var n := |Tokens(href)|;
      (n <= 1 ==> Parse(href) == Err(IndexOutOfBounds(1))) &&
      (n == 2 ==> Parse(href) == Err(IndexOutOfBounds(2))) &&
      (n == 3 ==> Parse(href) == Err(IndexOutOfBounds(3))) &&
      (n == 4 ==> Parse(href) == Err(IndexOutOfBounds(4))) &&
      (n >= 5 ==> Parse(href) == Ok(Coordinate(Tokens(href)[1], Tokens(href)[2], Tokens(href)[3], "", "", None)))
  {
  }

  /**
   * A successful parse never carries a classifier, a type or a path: the
   * branch that would read them (and index 7) is never taken with the
   * tokens it needs.
   */
  lemma ParsedHasNoTypeOrPath(href: string)
    requires Parse(href).Ok?
    ensures Parse(href).value.classifier == ""
    ensures Parse(href).value.artifactType == ""
    ensures Parse(href).value.path.None?
    ensures |Tokens(href)| >= 5
  {
  }

  /** The parse succeeds exactly when the href splits into at least five tokens. */
  lemma ParseSucceedsIff(href: string)
    ensures Parse(href).Ok? <==> |Tokens(href)| >= 5
  {
  }

  /**
   * The parse is positional over the tokens, so a reference rebuilt from its
   * tokens parses to them: with five or more colon-free tokens, the last one
   * non-empty, groupId, artifactId and version are tokens 1 to 3, whatever the
   * scheme token and whatever tokens 4 onwards say.
   */
  lemma ParseJoined(ts: seq<string>)
    requires |ts| >= 5
    requires forall k :: 0 <= k < |ts| ==> ':' !in ts[k]
    requires ts[|ts| - 1] != ""
    ensures Parse(Join(ts, ':')) == Ok(Coordinate(ts[1], ts[2], ts[3], "", "", None))
  {
    SplitJoin(ts, ':');
  }

  /** A five-token reference whose last token reads "dita", built from its tokens. */
  const GuideReference: string := Join(["m2", "com.acme", "guide", "1.0", "dita"], ':')

  /** GuideReference is the text `m2:com.acme:guide:1.0:dita`. */
  lemma GuideReferenceText()
    ensures GuideReference == "m2:com.acme:guide:1.0:dita"
  {
    var ts := ["m2", "com.acme", "guide", "1.0", "dita"];
    assert ts[1..][1..][1..][1..] == ["dita"];
    assert Join(ts, ':') == "m2" + ":" + "com.acme" + ":" + "guide" + ":" + "1.0" + ":" + "dita";
  }

  /**
   * `m2:com.acme:guide:1.0:dita` has five tokens, so the "dita" in it is not
   * read: the type is empty.
   */
  lemma GuideExample()
    ensures Parse(GuideReference) == Ok(Coordinate("com.acme", "guide", "1.0", "", "", None))
  {
    ParseJoined(["m2", "com.acme", "guide", "1.0", "dita"]);
  }

  /** `m2:com.acme:guide:1.0` has four tokens and throws at index 4. */
  lemma FourTokenExample()
    ensures Parse(Join(["m2", "com.acme", "guide", "1.0"], ':')) == Err(IndexOutOfBounds(4))
  {
    SplitJoin(["m2", "com.acme", "guide", "1.0"], ':');
  }
}
