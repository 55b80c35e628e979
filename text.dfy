/**
 * `Array#join("\n")`, which turns the run log into the text `process`
 * returns, and its inverse on lines without line breaks.
 */
module Text {

  /** No line break inside `line`. */
  predicate SingleLine(line: string) {
    '\n' !in line
  }

  /** The lines joined with "\n" between them; the empty array joins to "". */
  function Join(lines: seq<string>): string {
    if |lines| == 0 then ""
    else if |lines| == 1 then lines[0]
    else lines[0] + "\n" + Join(lines[1..])
  }

  /** Cuts `s` at every "\n"; always at least one piece. */
  function Split(s: string): (pieces: seq<string>)
    ensures |pieces| > 0
  {
    if s == [] then [""]
    else
      var rest := Split(s[1..]);
      if s[0] == '\n' then [""] + rest
      else [[s[0]] + rest[0]] + rest[1..]
  }

  lemma {:induction false} SplitSingleLine(a: string)
    requires SingleLine(a)
    ensures Split(a) == [a]
  {
    if a != [] {
      SplitSingleLine(a[1..]);
      assert [a[0]] + a[1..] == a;
    }
  }

  lemma {:induction false} SplitAtBreak(a: string, b: string)
    requires SingleLine(a)
    ensures Split(a + "\n" + b) == [a] + Split(b)
  {
    if a == [] {
      assert a + "\n" + b == "\n" + b;
      assert ("\n" + b)[1..] == b;
    } else {
      assert (a + "\n" + b)[1..] == a[1..] + "\n" + b;
      assert (a + "\n" + b)[0] == a[0];
      SplitAtBreak(a[1..], b);
      assert [a[0]] + a[1..] == a;
    }
  }

  /** Joining lines that hold no line break can be undone: the text gives back the lines. */
  lemma {:induction false} SplitJoin(lines: seq<string>)
    requires |lines| > 0
    requires forall i :: 0 <= i < |lines| ==> SingleLine(lines[i])
    ensures Split(Join(lines)) == lines
  {
    if |lines| == 1 {
      SplitSingleLine(lines[0]);
    } else {
      SplitJoin(lines[1..]);
      SplitAtBreak(lines[0], Join(lines[1..]));
      assert [lines[0]] + lines[1..] == lines;
    }
  }
}
