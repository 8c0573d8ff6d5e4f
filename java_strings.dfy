/**
 * The parts of java.lang.String and java.lang.Boolean that the reference
 * resolution relies on: String.split with a one-character separator and the
 * default limit 0, String.startsWith and Boolean.toString.
 */
module JavaStrings {

  /** Number of occurrences of `c` in `s`. */
  function Count(s: string, c: char): nat
  {
    if s == [] then 0 else (if s[0] == c then 1 else 0) + Count(s[1..], c)
  }

  /** The tokens `ts` with `c` between each two of them. */
  function Join(ts: seq<string>, c: char): string
  {
    if ts == [] then ""
    else if |ts| == 1 then ts[0]
    else ts[0] + [c] + Join(ts[1..], c)
  }

  /**
   * Every token between two occurrences of `c` (and before the first and
   * after the last), empty tokens included: the raw list String.split
   * builds before it trims it.
   */
  function SplitAll(s: string, c: char): (ts: seq<string>)
    ensures |ts| == Count(s, c) + 1
    ensures forall k :: 0 <= k < |ts| ==> c !in ts[k]
    ensures Join(ts, c) == s
  {
    if s == [] then [""]
    else
      var rest := SplitAll(s[1..], c);
      if s[0] == c then
        [""] + rest
      else
        JoinExtendFirst([s[0]], rest, c);
        [[s[0]] + rest[0]] + rest[1..]
  }

  /** Prepending to the first token prepends to the joined string. */
  lemma JoinExtendFirst(x: string, ts: seq<string>, c: char)
    requires |ts| >= 1
    ensures Join([x + ts[0]] + ts[1..], c) == x + Join(ts, c)
  {
    var us := [x + ts[0]] + ts[1..];
    if |ts| > 1 {
      assert us[1..] == ts[1..];
    }
  }

  /** Drops the empty tokens at the end of `ts`. */
  function DropTrailingEmpty(ts: seq<string>): (r: seq<string>)
    ensures r <= ts
    ensures forall k :: |r| <= k < |ts| ==> ts[k] == ""
    ensures r == [] || r[|r| - 1] != ""
  {
    if ts != [] && ts[|ts| - 1] == "" then DropTrailingEmpty(ts[..|ts| - 1]) else ts
  }

  /**
   * `s.split(c)` in Java (limit 0): when `c` does not occur the result is
   * `[s]` unchanged (so `"".split(":")` is `[""]`); otherwise the tokens of
   * SplitAll with the trailing empty ones removed (so `":".split(":")` is
   * empty and `"m2:".split(":")` is `["m2"]`).
   */
  function Split(s: string, c: char): (r: seq<string>)
    ensures c !in s ==> r == [s]
    ensures r <= SplitAll(s, c)
    ensures forall k :: |r| <= k < |SplitAll(s, c)| ==> SplitAll(s, c)[k] == ""
    ensures c in s ==> r == [] || r[|r| - 1] != ""
    ensures forall k :: 0 <= k < |r| ==> c !in r[k]
  {
    if c !in s then [s] else DropTrailingEmpty(SplitAll(s, c))
  }

  /** `s.startsWith(prefix)` in Java. */
  predicate StartsWith(s: string, prefix: string)
  {
    prefix <= s
  }

  /** `Boolean.toString(b)` in Java. */
  function BooleanToString(b: bool): string
  {
    if b then "true" else "false"
  }

  /** A token without the separator is split into itself. */
  lemma {:induction false} SplitAllToken(t: string, c: char)
    requires c !in t
    ensures SplitAll(t, c) == [t]
  {
    if t != [] {
      SplitAllToken(t[1..], c);
    }
  }

  /** A token followed by the separator contributes exactly one token. */
  lemma {:induction false} SplitAllCons(t: string, rest: string, c: char)
    requires c !in t
    ensures SplitAll(t + [c] + rest, c) == [t] + SplitAll(rest, c)
  {
    if t == [] {
      assert t + [c] + rest == [c] + rest;
      assert ([c] + rest)[1..] == rest;
    } else {
      var s := t + [c] + rest;
      assert s[0] == t[0];
      assert s[1..] == t[1..] + [c] + rest;
      SplitAllCons(t[1..], rest, c);
      assert [t[0]] + t[1..] == t;
    }
  }

  /** SplitAll undoes Join on separator-free tokens: the two are inverse. */
  lemma {:induction false} SplitAllJoin(ts: seq<string>, c: char)
    requires |ts| >= 1
    requires forall k :: 0 <= k < |ts| ==> c !in ts[k]
    ensures SplitAll(Join(ts, c), c) == ts
  {
    if |ts| == 1 {
      SplitAllToken(ts[0], c);
    } else {
      SplitAllJoin(ts[1..], c);
      SplitAllCons(ts[0], Join(ts[1..], c), c);
      assert [ts[0]] + ts[1..] == ts;
    }
  }

  /**
   * Splitting with Java's rule a string made of separator-free tokens whose
   * last one is not empty gives the tokens back.
   */
  lemma SplitJoin(ts: seq<string>, c: char)
    requires |ts| >= 2
    requires forall k :: 0 <= k < |ts| ==> c !in ts[k]
    requires ts[|ts| - 1] != ""
    ensures Split(Join(ts, c), c) == ts
  {
    var s := Join(ts, c);
    SplitAllJoin(ts, c);
    assert Count(s, c) + 1 == |ts|;
    CountPositive(s, c);
  }

  /** A string with an occurrence of `c` counts at least one. */
  lemma {:induction false} CountPositive(s: string, c: char)
    requires Count(s, c) > 0
    ensures c in s
  {
    if s[0] != c {
      CountPositive(s[1..], c);
    }
  }
}
