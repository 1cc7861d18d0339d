/** Text normalization: line ends, trimmed lines, at most one blank line in a row; applying it twice is once. */
module Normalize {
  import opened Wrappers
  import opened Text

  function ReplaceAll(s: string, from: string, to: string): string
    requires from != ""
  {
    Join(Split(s, from), to)
  }

  function Without(s: string, c: char): string {
    if s == "" then "" else (if s[0] == c then "" else [s[0]]) + Without(s[1..], c)
  }

  function TrimAll(lines: seq<string>): (r: seq<string>)
    ensures |r| == |lines|
  {
    seq(|lines|, i requires 0 <= i < |lines| => Trim(lines[i]))
  }

  /** Every run of three or more line ends becomes two. */
  function Collapse(s: string): string {
    if s == "" then ""
    else if "\n\n\n" <= s then Collapse(s[1..])
    else [s[0]] + Collapse(s[1..])
  }

  function NormalizeText(value: string): string {
    var text := ReplaceAll(ReplaceAll(Without(value, '\0'), "\r\n", "\n"), "\r", "\n");
    Trim(Collapse(Join(TrimAll(Split(text, "\n")), "\n")))
  }

  predicate Blank(c: char) {
    IsSpace(c) && c != '\n'
  }

  /** No line begins or ends with a blank; `prev` is the character before s, and a line end follows s. */
  predicate TidyAfter(prev: char, s: string)
    decreases |s|
  {
    s == "" || ((Blank(s[0]) ==> prev != '\n' && |s| > 1 && s[1] != '\n') && TidyAfter(s[0], s[1..]))
  }

  predicate Lacks(s: string, c: char) {
    forall i | 0 <= i < |s| :: s[i] != c
  }

  ghost predicate Normal(s: string) {
    && Lacks(s, '\0') && Lacks(s, '\r')
    && TidyAfter('\n', s)
    && (forall i: nat :: !At(s, "\n\n\n", i))
    && Trimmed(s)
  }

  lemma {:induction false} WithoutLacks(s: string, c: char)
    ensures Lacks(Without(s, c), c)
    ensures Lacks(s, c) ==> Without(s, c) == s
    decreases |s|
  {
    if s != "" {
      WithoutLacks(s[1..], c);
      assert s == [s[0]] + s[1..];
      assert Lacks(s, c) ==> Lacks(s[1..], c);
    }
  }

  /** Pieces between single-character separators hold no separator, and nothing new. */
  lemma {:induction false} SplitLacks(s: string, c: char, d: char)
    requires c == d || Lacks(s, d)
    ensures forall i | 0 <= i < |Split(s, [c])| :: Lacks(Split(s, [c])[i], d)
    decreases |s|
  {
    SingleAt(s, c);
    var at := Find(s, [c]);
    if at.Some? {
      SplitLacks(s[at.value + 1..], c, d);
    }
  }

  lemma {:induction false} JoinLacks(parts: seq<string>, sep: string, d: char)
    requires Lacks(sep, d) && forall i | 0 <= i < |parts| :: Lacks(parts[i], d)
    ensures Lacks(Join(parts, sep), d)
    decreases |parts|
  {
    if |parts| > 1 {
      JoinLacks(parts[1..], sep, d);
    }
  }

  lemma {:induction false} SplitPairLacks(s: string, sep: string, d: char)
    requires sep != "" && Lacks(s, d)
    ensures forall i | 0 <= i < |Split(s, sep)| :: Lacks(Split(s, sep)[i], d)
    decreases |s|
  {
    var at := Find(s, sep);
    if at.Some? {
      SplitPairLacks(s[at.value + |sep|..], sep, d);
    }
  }

  /** A text without the separator's first character is left alone. */
  lemma ReplaceLeavesAlone(s: string, from: string, to: string)
    requires from != "" && Lacks(s, from[0])
    ensures ReplaceAll(s, from, to) == s
  {
    forall i: nat ensures At(s, from, i) ==> i < |s| && s[i] == from[0] {
      assert i + |from| <= |s| ==> s[i..i + |from|][0] == s[i];
    }
  }

  lemma TrimLacks(s: string, d: char)
    requires Lacks(s, d)
    ensures Lacks(Trim(s), d)
  {
    TrimLeftIsSuffix(s);
    TrimRightIsPrefix(TrimLeft(s));
    var t := TrimLeft(s);
    forall i | 0 <= i < |Trim(s)| ensures Trim(s)[i] != d {
      assert Trim(s)[i] == t[i] == s[|s| - |t| + i];
    }
  }

  lemma {:induction false} CollapseLacks(s: string, d: char)
    requires Lacks(s, d)
    ensures Lacks(Collapse(s), d)
    decreases |s|
  {
    if s != "" {
      CollapseLacks(s[1..], d);
    }
  }

  /** A trimmed line with no line end in it is tidy, whatever line ends and tidy text follow. */
  lemma {:induction false} TidyLine(prev: char, line: string, rest: string)
    requires Lacks(line, '\n') && (line != "" ==> !IsSpace(line[|line| - 1]))
    requires line != "" && prev == '\n' ==> !IsSpace(line[0])
    requires rest == "" || (rest[0] == '\n' && TidyAfter('\n', rest[1..]))
    ensures TidyAfter(prev, line + rest)
    decreases |line|
  {
    if line == "" {
      assert line + rest == rest;
    } else {
      assert (line + rest)[1..] == line[1..] + rest;
      TidyLine(line[0], line[1..], rest);
    }
  }

  lemma {:induction false} TidyJoin(lines: seq<string>)
    requires forall i | 0 <= i < |lines| :: Lacks(lines[i], '\n') && Trimmed(lines[i])
    ensures TidyAfter('\n', Join(lines, "\n"))
    decreases |lines|
  {
    if |lines| == 1 {
      TidyLine('\n', lines[0], "");
      assert lines[0] + "" == lines[0];
    } else if lines != [] {
      TidyJoin(lines[1..]);
      var rest := "\n" + Join(lines[1..], "\n");
      TidyLine('\n', lines[0], rest);
      assert lines[0] + rest == lines[0] + "\n" + Join(lines[1..], "\n");
    }
  }

  lemma {:induction false} TidyTail(prev: char, s: string, i: nat)
    requires TidyAfter(prev, s) && i < |s|
    ensures TidyAfter(s[i], s[i + 1..])
    ensures Blank(s[i]) ==> (if i == 0 then prev else s[i - 1]) != '\n' && i + 1 < |s| && s[i + 1] != '\n'
    decreases i
  {
    if i > 0 {
      TidyTail(s[0], s[1..], i - 1);
      assert s[1..][i..] == s[i + 1..];
    }
  }

  lemma TidyLineIsTrimmed(s: string, end: nat)
    requires TidyAfter('\n', s) && end <= |s| && Lacks(s[..end], '\n') && (end < |s| ==> s[end] == '\n')
    ensures Trim(s[..end]) == s[..end]
  {
    if end > 0 {
      TidyTail('\n', s, 0);
      TidyTail('\n', s, end - 1);
      assert s[0] == s[..end][0] && s[end - 1] == s[..end][end - 1];
    }
    TrimKeeps(s[..end]);
  }

  /** Trimming the lines of tidy text changes nothing. */
  lemma {:induction false} TidyLinesAreTrimmed(s: string)
    requires TidyAfter('\n', s)
    ensures TrimAll(Split(s, "\n")) == Split(s, "\n")
    decreases |s|
  {
    SingleAt(s, '\n');
    var at := Find(s, "\n");
    var end := if at.Some? then at.value else |s|;
    TidyLineIsTrimmed(s, end);
    if at.Some? {
      TidyTail('\n', s, end);
      TidyLinesAreTrimmed(s[end + 1..]);
      assert Split(s, "\n") == [s[..end]] + Split(s[end + 1..], "\n");
      assert TrimAll(Split(s, "\n")) == [Trim(s[..end])] + TrimAll(Split(s[end + 1..], "\n"));
    } else {
      assert s[..end] == s;
    }
  }

  lemma {:induction false} CollapseKeepsHead(s: string)
    requires s != ""
    ensures Collapse(s) != "" && Collapse(s)[0] == s[0]
    decreases |s|
  {
    if "\n\n\n" <= s {
      CollapseKeepsHead(s[1..]);
    }
  }

  lemma {:induction false} CollapseKeepsTidy(prev: char, s: string)
    requires TidyAfter(prev, s)
    ensures TidyAfter(prev, Collapse(s))
    decreases |s|
  {
    if s != "" {
      CollapseKeepsTidy(s[0], s[1..]);
      if |s| > 1 {
        CollapseKeepsHead(s[1..]);
      }
    }
  }

  lemma TripleHead(s: string)
    requires s != ""
    ensures "\n\n\n" <= s <==> s[0] == '\n' && "\n\n" <= s[1..]
    ensures At(s, "\n\n\n", 0) <==> "\n\n\n" <= s
    ensures "\n\n" <= s <==> s[0] == '\n' && |s| > 1 && s[1] == '\n'
  {
  }

  lemma {:induction false} CollapseLeavesNoTriple(s: string)
    ensures forall i: nat :: !At(Collapse(s), "\n\n\n", i)
    ensures "\n\n" <= Collapse(s) ==> "\n\n" <= s
    decreases |s|
  {
    if s != "" {
      TripleHead(s);
      CollapseKeepsHead(s);
      CollapseLeavesNoTriple(s[1..]);
      if !("\n\n\n" <= s) {
        var t := Collapse(s);
        assert t[1..] == Collapse(s[1..]);
        TripleHead(t);
        if |s| > 1 {
          CollapseKeepsHead(s[1..]);
        }
        forall i: nat ensures !At(t, "\n\n\n", i) {
          if i > 0 {
            Shift(t, "\n\n\n", i - 1);
          }
        }
      }
    }
  }

  lemma {:induction false} CollapseIsIdle(s: string)
    requires forall i: nat :: !At(s, "\n\n\n", i)
    ensures Collapse(s) == s
    decreases |s|
  {
    if s != "" {
      TripleHead(s);
      forall i: nat ensures !At(s[1..], "\n\n\n", i) {
        Shift(s, "\n\n\n", i);
      }
      CollapseIsIdle(s[1..]);
      assert s == [s[0]] + s[1..];
    }
  }

  lemma {:induction false} TrimLeftKeepsTidy(s: string)
    requires TidyAfter('\n', s)
    ensures TidyAfter('\n', TrimLeft(s))
    decreases |s|
  {
    if s != "" && IsSpace(s[0]) {
      TrimLeftKeepsTidy(s[1..]);
    }
  }

  lemma {:induction false} DropLineEnd(prev: char, s: string)
    requires TidyAfter(prev, s) && s != "" && IsSpace(s[|s| - 1])
    ensures s[|s| - 1] == '\n' && TidyAfter(prev, s[..|s| - 1])
    decreases |s|
  {
    if |s| > 1 {
      DropLineEnd(s[0], s[1..]);
      assert s[1..][..|s| - 2] == s[..|s| - 1][1..];
    }
  }

  lemma {:induction false} TrimRightKeepsTidy(s: string)
    requires TidyAfter('\n', s)
    ensures TidyAfter('\n', TrimRight(s))
    decreases |s|
  {
    if s != "" && IsSpace(s[|s| - 1]) {
      DropLineEnd('\n', s);
      TrimRightKeepsTidy(s[..|s| - 1]);
    }
  }

  lemma TrimKeepsNoTriple(s: string)
    requires forall i: nat :: !At(s, "\n\n\n", i)
    ensures forall i: nat :: !At(Trim(s), "\n\n\n", i)
  {
    TrimLeftIsSuffix(s);
    TrimRightIsPrefix(TrimLeft(s));
    var t, u := TrimLeft(s), Trim(s);
    forall i: nat ensures At(u, "\n\n\n", i) ==> At(s, "\n\n\n", |s| - |t| + i) {
      if i + 3 <= |u| {
        assert u[i..i + 3] == t[i..i + 3] == s[|s| - |t| + i..|s| - |t| + i + 3];
      }
    }
  }

  lemma ReplacedLacks(value: string)
    ensures var text := ReplaceAll(ReplaceAll(Without(value, '\0'), "\r\n", "\n"), "\r", "\n");
      Lacks(text, '\0') && Lacks(text, '\r')
  {
    var s := Without(value, '\0');
    WithoutLacks(value, '\0');
    var t := ReplaceAll(s, "\r\n", "\n");
    SplitPairLacks(s, "\r\n", '\0');
    JoinLacks(Split(s, "\r\n"), "\n", '\0');
    SplitLacks(t, '\r', '\0');
    SplitLacks(t, '\r', '\r');
    JoinLacks(Split(t, "\r"), "\n", '\0');
    JoinLacks(Split(t, "\r"), "\n", '\r');
  }

  lemma TrimmedLines(text: string)
    requires Lacks(text, '\0') && Lacks(text, '\r')
    ensures var s := Join(TrimAll(Split(text, "\n")), "\n");
      Lacks(s, '\0') && Lacks(s, '\r') && TidyAfter('\n', s)
  {
    var lines := Split(text, "\n");
    SplitLacks(text, '\n', '\0');
    SplitLacks(text, '\n', '\r');
    SplitLacks(text, '\n', '\n');
    forall i | 0 <= i < |lines|
      ensures Lacks(Trim(lines[i]), '\0') && Lacks(Trim(lines[i]), '\r') && Lacks(Trim(lines[i]), '\n')
      ensures Trimmed(Trim(lines[i]))
    {
      TrimLacks(lines[i], '\0');
      TrimLacks(lines[i], '\r');
      TrimLacks(lines[i], '\n');
      TrimKeeps(lines[i]);
    }
    JoinLacks(TrimAll(lines), "\n", '\0');
    JoinLacks(TrimAll(lines), "\n", '\r');
    TidyJoin(TrimAll(lines));
  }

  /** Normalized text is in normal form: no NUL or CR, tidy lines, no two blank lines in a row, trimmed. */
  lemma NormalizedIsNormal(value: string)
    ensures Normal(NormalizeText(value))
  {
    var text := ReplaceAll(ReplaceAll(Without(value, '\0'), "\r\n", "\n"), "\r", "\n");
    ReplacedLacks(value);
    TrimmedLines(text);
    var s := Join(TrimAll(Split(text, "\n")), "\n");
    CollapseLacks(s, '\0');
    CollapseLacks(s, '\r');
    CollapseKeepsTidy('\n', s);
    CollapseLeavesNoTriple(s);
    var t := Collapse(s);
    TrimLacks(t, '\0');
    TrimLacks(t, '\r');
    TrimLeftKeepsTidy(t);
    TrimRightKeepsTidy(TrimLeft(t));
    TrimKeepsNoTriple(t);
    TrimKeeps(t);
  }

  /** Text in normal form is left exactly as it is. */
  lemma NormalIsFixed(s: string)
    requires Normal(s)
    ensures NormalizeText(s) == s
  {
    WithoutLacks(s, '\0');
    ReplaceLeavesAlone(s, "\r\n", "\n");
    ReplaceLeavesAlone(s, "\r", "\n");
    TidyLinesAreTrimmed(s);
    JoinUndoesSplit(s, "\n");
    CollapseIsIdle(s);
    TrimKeeps(s);
  }

  lemma NormalizeIsIdempotent(value: string)
    ensures NormalizeText(NormalizeText(value)) == NormalizeText(value)
  {
    NormalizedIsNormal(value);
    NormalIsFixed(NormalizeText(value));
  }

  function VisibleAll(parts: seq<string>): string {
    if parts == [] then "" else Visible(parts[0]) + VisibleAll(parts[1..])
  }

  lemma {:induction false} VisibleAllAppends(parts: seq<string>, more: seq<string>)
    ensures VisibleAll(parts + more) == VisibleAll(parts) + VisibleAll(more)
    decreases |parts|
  {
    if parts == [] {
      assert parts + more == more;
    } else {
      assert (parts + more)[1..] == parts[1..] + more;
      VisibleAllAppends(parts[1..], more);
    }
  }

  /** Joining with white space adds nothing visible. */
  lemma {:induction false} JoinShows(parts: seq<string>, sep: string)
    requires Visible(sep) == ""
    ensures Visible(Join(parts, sep)) == VisibleAll(parts)
    decreases |parts|
  {
    if |parts| == 1 {
      assert VisibleAll(parts) == Visible(parts[0]) + VisibleAll(parts[1..]);
    } else if parts != [] {
      JoinShows(parts[1..], sep);
      VisibleAppends(parts[0] + sep, Join(parts[1..], sep));
      VisibleAppends(parts[0], sep);
    }
  }

  lemma SplitShows(s: string, sep: string)
    requires sep != "" && Visible(sep) == ""
    ensures VisibleAll(Split(s, sep)) == Visible(s)
  {
    JoinShows(Split(s, sep), sep);
    JoinUndoesSplit(s, sep);
  }

  lemma {:induction false} TrimAllShows(lines: seq<string>)
    ensures VisibleAll(TrimAll(lines)) == VisibleAll(lines)
    decreases |lines|
  {
    if lines != [] {
      TrimKeeps(lines[0]);
      assert TrimAll(lines)[1..] == TrimAll(lines[1..]);
      TrimAllShows(lines[1..]);
    }
  }

  lemma {:induction false} CollapseShows(s: string)
    ensures Visible(Collapse(s)) == Visible(s)
    decreases |s|
  {
    if s != "" {
      CollapseShows(s[1..]);
    }
  }

  /** Normalization loses nothing visible but NUL bytes. */
  lemma NormalizeKeepsVisible(value: string)
    ensures Visible(NormalizeText(value)) == Visible(Without(value, '\0'))
  {
    var a := Without(value, '\0');
    var b := ReplaceAll(a, "\r\n", "\n");
    var c := ReplaceAll(b, "\r", "\n");
    var d := Join(TrimAll(Split(c, "\n")), "\n");
    assert Visible("\r\n") == Visible("\n") == "" && Visible("\n") == "" && Visible("\r") == "";
    SplitShows(a, "\r\n");
    JoinShows(Split(a, "\r\n"), "\n");
    SplitShows(b, "\r");
    JoinShows(Split(b, "\r"), "\n");
    SplitShows(c, "\n");
    TrimAllShows(Split(c, "\n"));
    JoinShows(TrimAll(Split(c, "\n")), "\n");
    CollapseShows(d);
    TrimKeeps(Collapse(d));
  }
}
