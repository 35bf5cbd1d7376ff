/** The string operation the handlers use, `"\n".join(...)`, and its inverse
    `str.split("\n")`, used to state what the joined columns keep. */
module Text {

  /** Python's `"\n".join(parts)`. */
  function JoinLines(parts: seq<string>): string
  {
    if parts == [] then ""
    else if |parts| == 1 then parts[0]
    else parts[0] + "\n" + JoinLines(parts[1..])
  }

  /** Python's `s.split("\n")`; the empty string splits into `[""]`. */
  function SplitLines(s: string): (parts: seq<string>)
    ensures |parts| >= 1
  {
    if s == [] then [""]
    else if s[0] == '\n' then [""] + SplitLines(s[1..])
    else
      var rest := SplitLines(s[1..]);
      [[s[0]] + rest[0]] + rest[1..]
  }

  predicate SingleLines(parts: seq<string>) {
    forall k :: 0 <= k < |parts| ==> '\n' !in parts[k]
  }

  /** Splitting a line that has no newline, followed by anything, glues the line to
      the first piece of the rest. */
  lemma {:induction false} SplitLinesPrefix(line: string, t: string)
    requires '\n' !in line
    ensures SplitLines(line + t) == [line + SplitLines(t)[0]] + SplitLines(t)[1..]
  {
    if line == [] {
      assert line + t == t;
      assert line + SplitLines(t)[0] == SplitLines(t)[0];
      assert SplitLines(t) == [SplitLines(t)[0]] + SplitLines(t)[1..];
    } else {
      assert (line + t)[0] == line[0];
      assert (line + t)[1..] == line[1..] + t;
      SplitLinesPrefix(line[1..], t);
      assert [line[0]] + (line[1..] + SplitLines(t)[0]) == line + SplitLines(t)[0];
    }
  }

  /** Joining a non-empty list of single-line strings loses nothing:
      splitting the result gives the list back. */
  lemma {:induction false} SplitJoin(parts: seq<string>)
    requires |parts| > 0 && SingleLines(parts)
    ensures SplitLines(JoinLines(parts)) == parts
  {
    if |parts| == 1 {
      SplitLinesPrefix(parts[0], "");
      assert parts[0] + "" == parts[0];
    } else {
      assert SingleLines(parts[1..]);
      SplitJoin(parts[1..]);
      var t := "\n" + JoinLines(parts[1..]);
      assert JoinLines(parts) == parts[0] + t;
      SplitLinesPrefix(parts[0], t);
      assert t[0] == '\n' && t[1..] == JoinLines(parts[1..]);
      assert SplitLines(t) == [""] + parts[1..];
      assert parts[0] + "" == parts[0];
      assert [parts[0]] + parts[1..] == parts;
    }
  }

  /** The join is empty exactly for no parts or one empty part; the two cases
      cannot be told apart from the output. */
  lemma {:induction false} JoinLinesEmpty(parts: seq<string>)
    ensures JoinLines(parts) == "" <==> parts == [] || parts == [""]
  {
    if |parts| >= 2 {
      assert |JoinLines(parts)| >= 1;
    }
  }
}
