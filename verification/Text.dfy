/** Strings as the services cut, trim and join them. Characters stand for bytes; white space is ASCII. */
module Text {
  import opened Wrappers

  predicate IsSpace(c: char) {
    c == ' ' || '\t' <= c <= '\r'
  }

  function TrimLeft(s: string): string {
    if s != "" && IsSpace(s[0]) then TrimLeft(s[1..]) else s
  }

  function TrimRight(s: string): string {
    if s != "" && IsSpace(s[|s| - 1]) then TrimRight(s[..|s| - 1]) else s
  }

  function Trim(s: string): string {
    TrimRight(TrimLeft(s))
  }

  predicate Trimmed(s: string) {
    s == "" || (!IsSpace(s[0]) && !IsSpace(s[|s| - 1]))
  }

  /** What is left of a string without its white space. */
  function Visible(s: string): string {
    if s == "" then ""
    else if IsSpace(s[0]) then Visible(s[1..])
    else [s[0]] + Visible(s[1..])
  }

  lemma {:induction false} VisibleAppends(s: string, t: string)
    ensures Visible(s + t) == Visible(s) + Visible(t)
    decreases |s|
  {
    if s == "" {
      assert s + t == t;
    } else {
      assert (s + t)[1..] == s[1..] + t;
      VisibleAppends(s[1..], t);
    }
  }

  lemma {:induction false} TrimRightIsPrefix(s: string)
    ensures var t := TrimRight(s); t <= s && (t == "" || !IsSpace(t[|t| - 1]))
    ensures Visible(TrimRight(s)) == Visible(s)
    decreases |s|
  {
    if s != "" && IsSpace(s[|s| - 1]) {
      var n := |s| - 1;
      TrimRightIsPrefix(s[..n]);
      VisibleAppends(s[..n], s[n..]);
      assert s[..n] + s[n..] == s;
    }
  }

  lemma {:induction false} TrimLeftIsSuffix(s: string)
    ensures var t := TrimLeft(s);
      |t| <= |s| && t == s[|s| - |t|..] && (t == "" || !IsSpace(t[0]))
    ensures Visible(TrimLeft(s)) == Visible(s)
    decreases |s|
  {
    if s != "" && IsSpace(s[0]) {
      TrimLeftIsSuffix(s[1..]);
    }
  }

  /** Trimming cuts white space off both ends and nothing else. */
  lemma TrimKeeps(s: string)
    ensures Trimmed(Trim(s)) && |Trim(s)| <= |s|
    ensures Visible(Trim(s)) == Visible(s)
    ensures Trim(s) == "" <==> Visible(s) == ""
    ensures Trimmed(s) ==> Trim(s) == s
  {
    TrimLeftIsSuffix(s);
    TrimRightIsPrefix(TrimLeft(s));
    var t := Trim(s);
    if t != "" {
      assert t[0] == TrimLeft(s)[0];
      assert Visible(t) == [t[0]] + Visible(t[1..]);
    }
  }

  predicate At(s: string, sep: string, i: nat) {
    i + |sep| <= |s| && s[i..i + |sep|] == sep
  }

  lemma SingleAt(s: string, c: char)
    ensures forall i: nat :: At(s, [c], i) <==> i < |s| && s[i] == c
  {
    forall i: nat ensures At(s, [c], i) <==> i < |s| && s[i] == c {
      if i < |s| {
        assert s[i..i + 1] == [s[i]];
      }
    }
  }

  /** The first place where `sep` occurs. */
  function Find(s: string, sep: string): (r: Option<nat>)
    requires sep != ""
    ensures r.Some? ==> At(s, sep, r.value) && forall j: nat | j < r.value :: !At(s, sep, j)
    ensures r.None? ==> forall j: nat :: !At(s, sep, j)
    decreases |s|
  {
    if |s| < |sep| then None
    else if s[..|sep|] == sep then Some(0)
    else
      match Find(s[1..], sep)
      case None => NotThere(s, sep); None
      case Some(i) => NotBefore(s, sep, i); Some(i + 1)
  }

  lemma Shift(s: string, sep: string, j: nat)
    requires s != ""
    ensures At(s, sep, j + 1) <==> At(s[1..], sep, j)
  {
    if j + 1 + |sep| <= |s| {
      assert s[j + 1..j + 1 + |sep|] == s[1..][j..j + |sep|];
    }
  }

  lemma NotThere(s: string, sep: string)
    requires sep != "" && s != "" && !At(s, sep, 0) && forall j: nat :: !At(s[1..], sep, j)
    ensures forall j: nat :: !At(s, sep, j)
  {
    forall j: nat ensures !At(s, sep, j) {
      if j > 0 {
        Shift(s, sep, j - 1);
      }
    }
  }

  lemma NotBefore(s: string, sep: string, i: nat)
    requires sep != "" && s != "" && !At(s, sep, 0) && At(s[1..], sep, i)
    requires forall j: nat | j < i :: !At(s[1..], sep, j)
    ensures At(s, sep, i + 1) && forall j: nat | j < i + 1 :: !At(s, sep, j)
  {
    Shift(s, sep, i);
    forall j: nat | j < i + 1 ensures !At(s, sep, j) {
      if j > 0 {
        Shift(s, sep, j - 1);
      }
    }
  }

  /** The stretches between leftmost, non-overlapping occurrences of `sep`. */
  function Split(s: string, sep: string): (r: seq<string>)
    requires sep != ""
    ensures r != []
    decreases |s|
  {
    match Find(s, sep)
    case None => [s]
    case Some(i) => [s[..i]] + Split(s[i + |sep|..], sep)
  }

  function Join(parts: seq<string>, sep: string): string {
    if parts == [] then ""
    else if |parts| == 1 then parts[0]
    else parts[0] + sep + Join(parts[1..], sep)
  }

  lemma {:induction false} JoinUndoesSplit(s: string, sep: string)
    requires sep != ""
    ensures Join(Split(s, sep), sep) == s
    decreases |s|
  {
    var at := Find(s, sep);
    if at.Some? {
      var i := at.value;
      JoinUndoesSplit(s[i + |sep|..], sep);
      assert Split(s, sep)[1..] == Split(s[i + |sep|..], sep);
      assert s[..i] + s[i..i + |sep|] + s[i + |sep|..] == s;
    }
  }
}
