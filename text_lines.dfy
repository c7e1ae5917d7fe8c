/** Lines of text as the exporters build and write them: every line is
    followed by the platform line separator (modelled as "\n"), and the
    exporter splits its text back into lines with
    java.util.regex.Pattern.splitAsStream, which drops trailing empty pieces
    and turns the empty text into one empty line. */
module TextLines {

  const LineSeparator: string := "\n"

  predicate NoNewline(s: string)
  {
    '\n' !in s
  }

  /** Each line followed by the separator, in order. */
  function Join(lines: seq<string>): string
  {
    if lines == [] then "" else lines[0] + LineSeparator + Join(lines[1..])
  }

  /** All pieces of `s` between separators (String.split with every empty piece kept). */
  function SplitOn(s: string): (r: seq<string>)
    ensures |r| >= 1
    ensures forall i :: 0 <= i < |r| ==> NoNewline(r[i])
  {
    if s == [] then [""]
    else if s[0] == '\n' then [""] + SplitOn(s[1..])
    else
      var t := SplitOn(s[1..]);
      [[s[0]] + t[0]] + t[1..]
  }

  function DropTrailingEmpty(pieces: seq<string>): (r: seq<string>)
    ensures |r| <= |pieces| && r == pieces[..|r|]
    ensures r != [] ==> r[|r| - 1] != ""
    ensures forall i :: |r| <= i < |pieces| ==> pieces[i] == ""
  {
    if pieces == [] then []
    else if pieces[|pieces| - 1] == "" then DropTrailingEmpty(pieces[..|pieces| - 1])
    else pieces
  }

  /** Pattern.compile(separator).splitAsStream(s). */
  function SplitLines(s: string): (r: seq<string>)
    ensures s == "" ==> r == [""]
    ensures forall i :: 0 <= i < |r| ==> NoNewline(r[i])
    ensures s != "" && r != [] ==> r[|r| - 1] != ""
  {
    if s == "" then [""] else DropTrailingEmpty(SplitOn(s))
  }

  lemma {:induction false} JoinAppend(a: seq<string>, b: seq<string>)
    ensures Join(a + b) == Join(a) + Join(b)
  {
    if a == [] {
      assert a + b == b;
    } else {
      assert (a + b)[1..] == a[1..] + b;
      JoinAppend(a[1..], b);
    }
  }

  lemma JoinOne(x: string)
    ensures Join([x]) == x + LineSeparator
  {
    assert [x][1..] == [];
  }

  /** A newline-free line followed by the separator splits off as one piece. */
  lemma {:induction false} SplitOnLine(x: string, rest: string)
    requires NoNewline(x)
    ensures SplitOn(x + LineSeparator + rest) == [x] + SplitOn(rest)
  {
    if x == [] {
      assert x + LineSeparator + rest == ['\n'] + rest;
    } else {
      assert (x + LineSeparator + rest)[1..] == x[1..] + LineSeparator + rest;
      SplitOnLine(x[1..], rest);
      assert [x[0]] + x[1..] == x;
    }
  }

  /** Splitting joined newline-free lines gives the lines back, plus the empty piece after the last separator. */
  lemma {:induction false} SplitOnJoin(lines: seq<string>)
    requires forall i :: 0 <= i < |lines| ==> NoNewline(lines[i])
    ensures SplitOn(Join(lines)) == lines + [""]
  {
    if lines != [] {
      SplitOnJoin(lines[1..]);
      SplitOnLine(lines[0], Join(lines[1..]));
      assert lines == [lines[0]] + lines[1..];
    }
  }

  lemma {:induction false} DropTrailingEmptySnoc(pieces: seq<string>)
    ensures DropTrailingEmpty(pieces + [""]) == DropTrailingEmpty(pieces)
  {
    assert (pieces + [""])[..|pieces|] == pieces;
  }

  /** The lines splitAsStream yields from joined newline-free lines: the lines
      without their trailing empty ones. */
  lemma SplitLinesJoin(lines: seq<string>)
    requires lines != []
    requires forall i :: 0 <= i < |lines| ==> NoNewline(lines[i])
    ensures SplitLines(Join(lines)) == DropTrailingEmpty(lines)
  {
    assert Join(lines) != "" by {
      assert Join(lines) == lines[0] + LineSeparator + Join(lines[1..]);
    }
    SplitOnJoin(lines);
    DropTrailingEmptySnoc(lines);
  }

  /** The pieces re-joined with a separator between consecutive ones
      (String.join), the inverse of SplitOn. */
  function Unsplit(pieces: seq<string>): string
  {
    if pieces == [] then ""
    else if |pieces| == 1 then pieces[0]
    else pieces[0] + LineSeparator + Unsplit(pieces[1..])
  }

  /** `n` empty pieces. */
  function Blanks(n: nat): (r: seq<string>)
    ensures |r| == n && forall i :: 0 <= i < n ==> r[i] == ""
  {
    seq(n, i => "")
  }

  /** Re-joining the pieces of any text gives the text back. */
  lemma {:induction false} SplitOnUnsplit(s: string)
    ensures Unsplit(SplitOn(s)) == s
  {
    if s != [] {
      var t := SplitOn(s[1..]);
      SplitOnUnsplit(s[1..]);
      if s[0] == '\n' {
        assert ([""] + t)[1..] == t;
        assert s == [s[0]] + s[1..];
      } else {
        var r := [[s[0]] + t[0]] + t[1..];
        if |t| == 1 {
          assert s == [s[0]] + s[1..];
        } else {
          assert r[1..] == t[1..];
          assert s == [s[0]] + s[1..];
        }
      }
    }
  }

  /** A newline-free text is a single piece. */
  lemma {:induction false} SplitOnNoNewline(x: string)
    requires NoNewline(x)
    ensures SplitOn(x) == [x]
  {
    if x != [] {
      SplitOnNoNewline(x[1..]);
      assert [x[0]] + x[1..] == x;
    }
  }

  /** SplitOn is determined by its pieces: any non-empty sequence of
      newline-free pieces is what SplitOn gives for its re-joined text. */
  lemma {:induction false} UnsplitSplitOn(pieces: seq<string>)
    requires pieces != []
    requires forall i :: 0 <= i < |pieces| ==> NoNewline(pieces[i])
    ensures SplitOn(Unsplit(pieces)) == pieces
  {
    if |pieces| == 1 {
      SplitOnNoNewline(pieces[0]);
    } else {
      UnsplitSplitOn(pieces[1..]);
      SplitOnLine(pieces[0], Unsplit(pieces[1..]));
      assert pieces == [pieces[0]] + pieces[1..];
    }
  }

  /** What splitAsStream yields for a non-empty text: the pieces between
      separators, which re-joined with the dropped trailing empty pieces
      give the text back. */
  lemma SplitLinesPieces(s: string)
    requires s != ""
    ensures |SplitLines(s)| <= |SplitOn(s)|
    ensures SplitOn(s) == SplitLines(s) + Blanks(|SplitOn(s)| - |SplitLines(s)|)
    ensures Unsplit(SplitLines(s) + Blanks(|SplitOn(s)| - |SplitLines(s)|)) == s
  {
    var p := SplitOn(s);
    var r := SplitLines(s);
    assert p == r + Blanks(|p| - |r|);
    SplitOnUnsplit(s);
  }

  /** Splitting the empty text still yields one (empty) line. */
  lemma SplitLinesEmpty()
    ensures SplitLines("") == [""] && Join(SplitLines("")) == LineSeparator
  {
  }

  /** Number of lines equal to `x`. */
  function Count(lines: seq<string>, x: string): nat
  {
    if lines == [] then 0
    else Count(lines[..|lines| - 1], x) + (if lines[|lines| - 1] == x then 1 else 0)
  }

  lemma {:induction false} CountAppend(a: seq<string>, b: seq<string>, x: string)
    ensures Count(a + b, x) == Count(a, x) + Count(b, x)
  {
    if b == [] {
      assert a + b == a;
    } else {
      assert (a + b)[..|a + b| - 1] == a + b[..|b| - 1];
      CountAppend(a, b[..|b| - 1], x);
    }
  }
}
