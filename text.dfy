/** Strings and line lists as the scripts build and serialise them. */
module Text {

  /** `" " * n` */
  function Spaces(n: nat): (s: string)
    ensures |s| == n
    ensures forall k :: 0 <= k < n ==> s[k] == ' '
  {
    seq(n, _ => ' ')
  }

  lemma SpacesAdd(a: nat, b: nat)
    ensures Spaces(a) + Spaces(b) == Spaces(a + b)
  {
    assert forall k :: 0 <= k < a + b ==> (Spaces(a) + Spaces(b))[k] == ' ';
  }

  /** `"\n".join(lines)`: the text that is hashed (and, in line_spaces_v2.py, written). */
  function JoinLines(lines: seq<string>): string
  {
    if |lines| == 0 then ""
    else if |lines| == 1 then lines[0]
    else lines[0] + "\n" + JoinLines(lines[1..])
  }

  /** `file.writelines(lines)`: the lines concatenated with no separator. */
  function WriteLines(lines: seq<string>): string
  {
    if |lines| == 0 then "" else lines[0] + WriteLines(lines[1..])
  }

  /** A whole-file text is hashed and written as it is. */
  function Verbatim(text: string): string
  {
    text
  }

  /** Joining with a newline adds exactly one character between neighbouring
      lines, so whenever there are at least two lines the joined text and the
      concatenated text differ. */
  lemma {:induction false} JoinLinesLength(lines: seq<string>)
    requires |lines| >= 1
    ensures |JoinLines(lines)| == |WriteLines(lines)| + |lines| - 1
    ensures |lines| >= 2 ==> JoinLines(lines) != WriteLines(lines)
  {
    if |lines| >= 2 {
      JoinLinesLength(lines[1..]);
    }
  }

  /** The padded form of `line`: it is `line` followed by spaces and nothing else. */
  ghost predicate PaddedFrom(line: string, padded: string)
  {
    |line| <= |padded| && padded[..|line|] == line &&
    forall k :: |line| <= k < |padded| ==> padded[k] == ' '
  }

  lemma PaddedWithSpaces(line: string, n: nat)
    ensures PaddedFrom(line, line + Spaces(n))
    ensures |line + Spaces(n)| == |line| + n
  {
    assert (line + Spaces(n))[..|line|] == line;
  }
}
