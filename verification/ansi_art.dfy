/** The large clock face (pkg/common/ansi.go): every digit and colon of a
    time text becomes a block of ASCII art, the blocks are split into rows,
    padded to eight rows, and laid side by side. */
module AnsiArt {
  import opened Wrappers
  import opened Text

  /** The art for each character, rows separated by newlines. */
  const Art0: string := "  ___  \n / _ \\ \n| | | |\n| |_| |\n \\___/ \n       "
  const Art1: string := " _ \n/ |\n| |\n| |\n|_|\n   "
  const Art2: string := " ____  \n|___ \\ \n  __) |\n / __/ \n|_____|\n       "
  const Art3: string := " _____ \n|___ / \n  |_ \\ \n ___) |\n|____/ \n       "
  const Art4: string := " _  _   \n| || |  \n| || |_ \n|__   _|\n   |_|  \n        "
  const Art5: string := " ____  \n| ___| \n|___ \\ \n ___) |\n|____/ \n       "
  const Art6: string := "  __   \n / /_  \n| '_ \\ \n| (_) |\n \\___/ \n       "
  const Art7: string := " _____ \n|___  |\n   / / \n  / /  \n /_/   \n       "
  const Art8: string := "  ___  \n ( _ ) \n / _ \\ \n| (_) |\n \\___/ \n       "
  const Art9: string := "  ___  \n / _ \\ \n| (_) |\n \\__, |\n   /_/ \n       "
  const ArtColon: string := "   \n _ \n(_)\n _ \n(_)\n   "

  const LinesPerDigit: nat := 8
  /** The row added under a block that has fewer than eight rows. */
  const Filler: string := "          "
  /** The gap between two blocks on a row. */
  const Gap: string := "  "

  predicate IsArtChar(c: char) {
    '0' <= c <= '9' || c == ':'
  }

  /** The block for one character; other characters have none. */
  function Glyph(c: char): (r: Option<string>)
    ensures r.Some? <==> IsArtChar(c)
  {
    match c
    case '0' => Some(Art0)
    case '1' => Some(Art1)
    case '2' => Some(Art2)
    case '3' => Some(Art3)
    case '4' => Some(Art4)
    case '5' => Some(Art5)
    case '6' => Some(Art6)
    case '7' => Some(Art7)
    case '8' => Some(Art8)
    case '9' => Some(Art9)
    case ':' => Some(ArtColon)
    case _ => None
  }

  /** The blocks of a text, in order. */
  function Glyphs(s: string): (r: seq<string>)
    ensures |r| <= |s|
    ensures |r| == 0 <==> forall i :: 0 <= i < |s| ==> !IsArtChar(s[i])
    decreases |s|
  {
    if |s| == 0 then []
    else
      var rest := Glyphs(s[1..]);
      assert forall i :: 0 < i < |s| ==> s[i] == s[1..][i - 1];
      match Glyph(s[0])
      case Some(g) => [g] + rest
      case None => rest
  }

  /** A block split into rows and padded with filler rows up to eight. */
  function PadRows(rows: seq<string>): (r: seq<string>)
    ensures |r| >= LinesPerDigit
    ensures |rows| >= LinesPerDigit ==> r == rows
    ensures |rows| < LinesPerDigit ==> |r| == LinesPerDigit
    ensures |rows| <= |r| && r[..|rows|] == rows
    ensures forall i :: |rows| <= i < |r| ==> r[i] == Filler
    decreases LinesPerDigit - |rows|
  {
    if |rows| >= LinesPerDigit then rows
    else
      var r := PadRows(rows + [Filler]);
      assert r[..|rows|] == (rows + [Filler])[..|rows|];
      r
  }

  function BlockRows(glyph: string): (r: seq<string>)
    ensures |r| >= LinesPerDigit
    ensures forall i :: 0 <= i < |r| ==> NoNewline(r[i])
  {
    var r := PadRows(SplitLines(glyph));
    assert NoNewline(Filler);
    r
  }

  /** Row `i` of the picture: row `i` of each block, in order, with a gap
      between neighbours and none at the end. */
  function Row(blocks: seq<seq<string>>, i: nat): string
    requires forall j :: 0 <= j < |blocks| ==> i < |blocks[j]|
  {
    Join(seq(|blocks|, j requires 0 <= j < |blocks| => blocks[j][i]), Gap)
  }

  /** `TimeToAnsiArt`: a text without digits or colons comes back as it is;
      otherwise eight rows joined by newlines. */
  function TimeToAnsiArt(s: string): string {
    var glyphs := Glyphs(s);
    if |glyphs| == 0 then s
    else
      var blocks := seq(|glyphs|, j requires 0 <= j < |glyphs| => BlockRows(glyphs[j]));
      JoinLines(seq(LinesPerDigit, i requires 0 <= i < LinesPerDigit => Row(blocks, i)))
  }

  // ---------------------------------------------------------------------
  // Properties
  // ---------------------------------------------------------------------

  /** The blocks of a concatenation are the blocks of each part. */
  lemma {:induction false} GlyphsOfConcat(a: string, b: string)
    ensures Glyphs(a + b) == Glyphs(a) + Glyphs(b)
    decreases |a|
  {
    if |a| > 0 {
      assert (a + b)[1..] == a[1..] + b;
      GlyphsOfConcat(a[1..], b);
    } else {
      assert a + b == b;
    }
  }

  /** A character without art contributes nothing wherever it stands. */
  lemma OtherCharsContributeNothing(a: string, c: char, b: string)
    requires !IsArtChar(c)
    ensures Glyphs(a + [c] + b) == Glyphs(a + b)
  {
    GlyphsOfConcat(a, [c] + b);
    GlyphsOfConcat(a, b);
    assert ([c] + b)[1..] == b;
    assert a + [c] + b == a + ([c] + b);
  }

  /** Text without digits or colons is returned unchanged. */
  lemma NoArtIsIdentity(s: string)
    requires forall i :: 0 <= i < |s| ==> !IsArtChar(s[i])
    ensures TimeToAnsiArt(s) == s
  {
  }

  /** Rows of pieces without newlines, joined by a separator without
      newlines, have none either. */
  lemma {:induction false} JoinHasNoNewline(parts: seq<string>, sep: string)
    requires NoNewline(sep)
    requires forall i :: 0 <= i < |parts| ==> NoNewline(parts[i])
    ensures NoNewline(Join(parts, sep))
    decreases |parts|
  {
    if |parts| > 1 {
      JoinHasNoNewline(parts[1..], sep);
      var rest := Join(parts[1..], sep);
      var whole := parts[0] + sep + rest;
      forall k | 0 <= k < |whole|
        ensures whole[k] != '\n'
      {
        if k < |parts[0]| {
          assert whole[k] == parts[0][k];
        } else if k < |parts[0]| + |sep| {
          assert whole[k] == sep[k - |parts[0]|];
        } else {
          assert whole[k] == rest[k - |parts[0]| - |sep|];
        }
      }
    }
  }

  /** Text with a digit or colon becomes exactly eight rows separated by
      newlines, and row `i` reads, left to right, row `i` of each block
      with two spaces between neighbours. */
  lemma ArtLayout(s: string)
    requires exists k :: 0 <= k < |s| && IsArtChar(s[k])
    ensures var glyphs := Glyphs(s);
            var blocks := seq(|glyphs|, j requires 0 <= j < |glyphs| => BlockRows(glyphs[j]));
            var lines := SplitLines(TimeToAnsiArt(s));
            && |lines| == LinesPerDigit
            && forall i :: 0 <= i < LinesPerDigit ==>
                 lines[i] == Join(seq(|blocks|, j requires 0 <= j < |blocks| => blocks[j][i]), Gap)
  {
    var glyphs := Glyphs(s);
    var blocks := seq(|glyphs|, j requires 0 <= j < |glyphs| => BlockRows(glyphs[j]));
    var rows := seq(LinesPerDigit, i requires 0 <= i < LinesPerDigit => Row(blocks, i));
    assert NoNewline(Gap);
    forall i | 0 <= i < LinesPerDigit
      ensures NoNewline(rows[i])
    {
      JoinHasNoNewline(seq(|blocks|, j requires 0 <= j < |blocks| => blocks[j][i]), Gap);
    }
    SplitJoinLines(rows);
  }
}
