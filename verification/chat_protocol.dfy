/**
 * The line-level protocol of the chat server: how a command line is split
 * into words and how an inbound line is classified.
 */
module ChatProtocol {
  import opened Wrappers

  /** Index of the first space in `s`, if there is one. */
  function FirstSpace(s: string): (r: Option<nat>)
    ensures r.Some? ==> r.value < |s| && s[r.value] == ' ' && ' ' !in s[..r.value]
    ensures r.None? ==> ' ' !in s
  {
    if s == [] then None
    else if s[0] == ' ' then Some(0)
    else match FirstSpace(s[1..])
      case None => None
      case Some(i) =>
        assert s[..i + 1] == [s[0]] + s[1..][..i];
        Some(i + 1)
  }

  /** The inverse of a split on single spaces: the parts glued back with " ". */
  function JoinWithSpaces(parts: seq<string>): string
  {
    if parts == [] then ""
    else if |parts| == 1 then parts[0]
    else parts[0] + " " + JoinWithSpaces(parts[1..])
  }

  /** Gluing two parts puts one space between them. */
  lemma JoinTwo(a: string, b: string)
    ensures JoinWithSpaces([a, b]) == a + " " + b
  {
    assert [a, b][1..] == [b];
  }

  /** Gluing three parts puts one space between each neighbouring pair. */
  lemma JoinThree(a: string, b: string, c: string)
    ensures JoinWithSpaces([a, b, c]) == a + " " + (b + " " + c)
  {
    assert [a, b, c][1..] == [b, c];
    JoinTwo(b, c);
  }

  /**
   * One application of the pattern: the text before the first space and,
   * when there is a space, the text after it.
   */
  function SplitFirst(s: string): (parts: seq<string>)
    ensures |parts| == 1 || |parts| == 2
    ensures ' ' !in parts[0]
    ensures |parts| == 1 ==> parts[0] == s
    ensures |parts| == 2 ==> s == parts[0] + " " + parts[1]
  {
    match FirstSpace(s)
    case None => [s]
    case Some(i) =>
      assert s == s[..i] + " " + s[i + 1..];
      [s[..i], s[i + 1..]]
  }

  /**
   * `line.split(" ", 3)`: the pattern is applied at most twice, so the result
   * has at most three parts, the last of which keeps any further spaces; empty
   * fields (two adjacent spaces, a trailing space) are kept because the limit
   * is positive. The ensures clauses determine the result uniquely.
   */
  function Split3(line: string): (parts: seq<string>)
    ensures 1 <= |parts| <= 3
    ensures JoinWithSpaces(parts) == line
    ensures forall k :: 0 <= k < |parts| - 1 ==> ' ' !in parts[k]
    ensures |parts| < 3 ==> ' ' !in parts[|parts| - 1]
  {
    var first := SplitFirst(line);
    if |first| == 1 then first
    else
      var second := SplitFirst(first[1]);
      if |second| == 1 then
        JoinTwo(first[0], first[1]);
        assert first == [first[0], first[1]];
        first
      else
        JoinThree(first[0], second[0], second[1]);
        [first[0], second[0], second[1]]
  }

  /** How the read loop of a client handler dispatches an inbound line. */
  datatype Command = PrivateCmd | FileCmd | ChatLine

  /**
   * Prefix tests in source order: anything starting with "/pm" (so also
   * "/pmx") is a private message, otherwise anything starting with "/file"
   * is a file transfer, and every other line is chat text.
   */
  function Classify(line: string): (r: Command)
    ensures r == PrivateCmd <==> "/pm" <= line
    ensures r == FileCmd <==> !("/pm" <= line) && "/file" <= line
    ensures r == ChatLine <==> !("/pm" <= line) && !("/file" <= line)
  {
    if "/pm" <= line then PrivateCmd
    else if "/file" <= line then FileCmd
    else ChatLine
  }
}
