/** Line-oriented text: joining rows with "\n" and splitting them again, as
    `strings.Join(rows, "\n")` and `strings.Split(s, "\n")` do. */
module Text {
  predicate NoNewline(s: string) {
    forall i :: 0 <= i < |s| ==> s[i] != '\n'
  }

  /** `strings.Join(rows, sep)`: separators between rows, none trailing. */
  function Join(rows: seq<string>, sep: string): string
    decreases |rows|
  {
    if |rows| == 0 then ""
    else if |rows| == 1 then rows[0]
    else rows[0] + sep + Join(rows[1..], sep)
  }

  function JoinLines(rows: seq<string>): string {
    Join(rows, "\n")
  }

  /** `strings.Split(s, "\n")`: the pieces between newlines, one more piece
      than there are newlines. */
  function SplitLines(s: string): (r: seq<string>)
    ensures |r| >= 1
    ensures forall i :: 0 <= i < |r| ==> NoNewline(r[i])
    decreases |s|
  {
    if |s| == 0 then [""]
    else
      var rest := SplitLines(s[1..]);
      if s[0] == '\n' then [""] + rest
      else [[s[0]] + rest[0]] + rest[1..]
  }

  /** Text without a newline is a single line. */
  lemma {:induction false} SplitSingleLine(s: string)
    requires NoNewline(s)
    ensures SplitLines(s) == [s]
    decreases |s|
  {
    if |s| > 0 {
      SplitSingleLine(s[1..]);
      assert [s[0]] + s[1..] == s;
    }
  }

  /** A first line followed by a newline splits off as the first piece. */
  lemma {:induction false} SplitFirstLine(a: string, b: string)
    requires NoNewline(a)
    ensures SplitLines(a + "\n" + b) == [a] + SplitLines(b)
    decreases |a|
  {
    if |a| == 0 {
      assert a + "\n" + b == "\n" + b;
      assert ("\n" + b)[1..] == b;
    } else {
      var s := a + "\n" + b;
      assert s[1..] == a[1..] + "\n" + b;
      SplitFirstLine(a[1..], b);
      assert [a[0]] + a[1..] == a;
    }
  }

  /** Splitting undoes joining, for rows without newlines. */
  lemma {:induction false} SplitJoinLines(rows: seq<string>)
    requires |rows| >= 1
    requires forall i :: 0 <= i < |rows| ==> NoNewline(rows[i])
    ensures SplitLines(JoinLines(rows)) == rows
    decreases |rows|
  {
    if |rows| == 1 {
      SplitSingleLine(rows[0]);
    } else {
      SplitJoinLines(rows[1..]);
      SplitFirstLine(rows[0], JoinLines(rows[1..]));
      assert [rows[0]] + rows[1..] == rows;
    }
  }
}
