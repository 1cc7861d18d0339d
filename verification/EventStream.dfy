/**
 Agent events as text/event-stream: the gateway's printer, the web client's incremental splitter and parser,
 and why any way of cutting the stream into reads delivers the printed events.
 The JSON codec is a parameter: `show` gives an event's type and its JSON, `read` parses them back.
 */
module EventStream {
  import opened Wrappers
  import opened Text

  const BREAK := "\n\n"

  predicate OneLine(s: string) {
    s != "" && Trimmed(s) && forall i | 0 <= i < |s| :: s[i] != '\n'
  }

  function Body(kind: string, data: string): string {
    "event: " + kind + "\n" + "data: " + data
  }

  /** What the gateway writes for one event. */
  function Printed(kind: string, data: string): string {
    Body(kind, data) + BREAK
  }

  function PrintedAll(events: seq<(string, string)>): string {
    if events == [] then "" else Printed(events[0].0, events[0].1) + PrintedAll(events[1..])
  }

  method WriteEvents(events: seq<(string, string)>) returns (written: string)
    ensures written == PrintedAll(events)
  {
    written := "";
    for i := 0 to |events|
      invariant written + PrintedAll(events[i..]) == PrintedAll(events)
    {
      ghost var before := written;
      written := written + "event: " + events[i].0 + "\n";
      written := written + "data: ";
      written := written + events[i].1;
      written := written + BREAK;
      assert events[i..][0] == events[i] && events[i..][1..] == events[i + 1..];
      assert written == before + Printed(events[i].0, events[i].1);
    }
    assert events[|events|..] == [];
  }

  predicate StartsWith(s: string, prefix: string) {
    prefix <= s
  }

  /** A chunk's lines, folded into an event type (the last wins) and data (concatenated). */
  function Fields(lines: seq<string>, kind: string, data: string): (string, string)
    decreases |lines|
  {
    if lines == [] then (kind, data)
    else
      var line := lines[0];
      Fields(lines[1..],
             if StartsWith(line, "event:") then Trim(line[|"event:"|..]) else kind,
             if StartsWith(line, "data:") then data + Trim(line[|"data:"|..]) else data)
  }

  /** An event needs both a type and data that parses. */
  function Parsed<E>(chunk: string, read: (string, string) -> Option<E>): Option<E> {
    var (kind, data) := Fields(Split(chunk, "\n"), "", "");
    if kind == "" || data == "" then None else read(kind, data)
  }

  method ParseChunk<E>(chunk: string, read: (string, string) -> Option<E>) returns (event: Option<E>)
    ensures event == Parsed(chunk, read)
  {
    var lines := Split(chunk, "\n");
    var kind, data := "", "";
    for i := 0 to |lines|
      invariant Fields(lines[i..], kind, data) == Fields(lines, "", "")
    {
      var line := lines[i];
      assert lines[i..][0] == line && lines[i..][1..] == lines[i + 1..];
      if StartsWith(line, "event:") {
        kind := Trim(line[|"event:"|..]);
      }
      if StartsWith(line, "data:") {
        data := data + Trim(line[|"data:"|..]);
      }
    }
    assert lines[|lines|..] == [];
    return if kind == "" || data == "" then None else read(kind, data);
  }

  function Known<E>(chunks: seq<string>, read: (string, string) -> Option<E>): seq<E> {
    if chunks == [] then []
    else (match Parsed(chunks[0], read) case Some(e) => [e] case None => []) + Known(chunks[1..], read)
  }

  /** The chunks of a stream that a break ends. */
  function Complete(stream: string): seq<string>
    decreases |stream|
  {
    match Find(stream, BREAK)
    case None => []
    case Some(i) => [stream[..i]] + Complete(stream[i + 2..])
  }

  /** What is left after the last break. */
  function Rest(stream: string): string
    decreases |stream|
  {
    match Find(stream, BREAK)
    case None => stream
    case Some(i) => Rest(stream[i + 2..])
  }

  lemma {:induction false} SplitIsCompleteAndRest(stream: string)
    ensures Split(stream, BREAK) == Complete(stream) + [Rest(stream)]
    decreases |stream|
  {
    if Find(stream, BREAK).Some? {
      SplitIsCompleteAndRest(stream[Find(stream, BREAK).value + 2..]);
    }
  }

  lemma FindInPrefix(s: string, t: string, sep: string)
    requires sep != "" && Find(s, sep).Some?
    ensures Find(s + t, sep) == Find(s, sep)
  {
    var i := Find(s, sep).value;
    forall j: nat | j <= i ensures At(s + t, sep, j) <==> At(s, sep, j) {
      assert (s + t)[j..j + |sep|] == s[j..j + |sep|];
    }
  }

  lemma SplitAt(s: string, t: string, i: nat)
    requires Find(s, BREAK) == Some(i)
    ensures i + 2 <= |s|
    ensures Complete(s + t) == [s[..i]] + Complete(s[i + 2..] + t) && Rest(s + t) == Rest(s[i + 2..] + t)
  {
    FindInPrefix(s, t, BREAK);
    assert (s + t)[..i] == s[..i] && (s + t)[i + 2..] == s[i + 2..] + t;
  }

  lemma ConsAssociates(head: string, a: seq<string>, b: seq<string>)
    ensures [head] + (a + b) == [head] + a + b
  {
  }

  lemma {:induction false} IncrementalRest(s: string, t: string)
    ensures Rest(s + t) == Rest(Rest(s) + t)
    decreases |s|
  {
    var at := Find(s, BREAK);
    if at.Some? {
      var tail := s[at.value + 2..];
      assert Rest(s) == Rest(tail);
      SplitAt(s, t, at.value);
      IncrementalRest(tail, t);
    } else {
      assert Rest(s) == s;
    }
  }

  /** Splitting what was left over together with more input is splitting it all at once. */
  lemma {:induction false} Incremental(s: string, t: string)
    ensures Complete(s + t) == Complete(s) + Complete(Rest(s) + t)
    ensures Rest(s + t) == Rest(Rest(s) + t)
    decreases |s|
  {
    IncrementalRest(s, t);
    var at := Find(s, BREAK);
    if at.Some? {
      var tail := s[at.value + 2..];
      SplitAt(s, t, at.value);
      Incremental(tail, t);
      ConsAssociates(s[..at.value], Complete(tail), Complete(Rest(tail) + t));
    }
  }

  function Concat(inputs: seq<string>): string {
    if inputs == [] then "" else Concat(inputs[..|inputs| - 1]) + inputs[|inputs| - 1]
  }

  lemma {:induction false} KnownAppends<E>(chunks: seq<string>, more: seq<string>, read: (string, string) -> Option<E>)
    ensures Known(chunks + more, read) == Known(chunks, read) + Known(more, read)
    decreases |chunks|
  {
    if chunks == [] {
      assert chunks + more == more;
    } else {
      assert (chunks + more)[1..] == chunks[1..] + more;
      KnownAppends(chunks[1..], more, read);
    }
  }

  lemma KnownOne<E>(chunk: string, read: (string, string) -> Option<E>)
    ensures Known([chunk], read) == match Parsed(chunk, read) case Some(e) => [e] case None => []
  {
    assert [chunk][1..] == [];
  }

  /** Emits the events of every complete chunk of one buffer. */
  method Emit<E>(chunks: seq<string>, read: (string, string) -> Option<E>) returns (events: seq<E>)
    ensures events == Known(chunks, read)
  {
    events := [];
    for i := 0 to |chunks|
      invariant events == Known(chunks[..i], read)
    {
      var event := ParseChunk(chunks[i], read);
      assert chunks[..i + 1] == chunks[..i] + [chunks[i]];
      KnownAppends(chunks[..i], [chunks[i]], read);
      KnownOne(chunks[i], read);
      if event.Some? {
        events := events + [event.value];
      }
    }
    assert chunks[..|chunks|] == chunks;
  }

  /** The client's read loop: a buffer, split at each read, of which the last part is kept. */
  method Subscribe<E>(inputs: seq<string>, read: (string, string) -> Option<E>) returns (events: seq<E>)
    ensures events == Known(Complete(Concat(inputs)), read)
  {
    events := [];
    var buffer := "";
    for i := 0 to |inputs|
      invariant buffer == Rest(Concat(inputs[..i]))
      invariant events == Known(Complete(Concat(inputs[..i])), read)
    {
      assert inputs[..i + 1][..i] == inputs[..i];
      Incremental(Concat(inputs[..i]), inputs[i]);
      buffer := buffer + inputs[i];
      var chunks := Split(buffer, BREAK);
      SplitIsCompleteAndRest(buffer);
      KnownAppends(Complete(Concat(inputs[..i])), Complete(buffer), read);
      buffer := chunks[|chunks| - 1];
      var emitted := Emit(chunks[..|chunks| - 1], read);
      events := events + emitted;
    }
    assert inputs[..|inputs|] == inputs;
  }

  /** A printed body has its only double line end after it. */
  lemma BodyHasNoBreak(kind: string, data: string, rest: string)
    requires OneLine(kind) && OneLine(data)
    ensures Find(Body(kind, data) + BREAK + rest, BREAK) == Some(|Body(kind, data)|)
  {
    var body := Body(kind, data);
    var all := body + BREAK + rest;
    var n := |"event: " + kind|;
    assert body == ("event: " + kind) + ("\n" + ("data: " + data));
    forall i | 0 <= i < |body| && i != n ensures all[i] != '\n' {
      assert i < n ==> all[i] == ("event: " + kind)[i];
      assert i > n ==> all[i] == ("data: " + data)[i - n - 1];
    }
    forall j: nat | j < |body| ensures !At(all, BREAK, j) {
      if j + 2 <= |all| {
        assert all[j..j + 2] == [all[j], all[j + 1]];
        assert j == n ==> all[j + 1] != '\n';
      }
    }
    assert all[|body|..|body| + 2] == BREAK;
    assert At(all, BREAK, |body|);
  }

  lemma LineAt(s: string, i: nat)
    requires i < |s| && s[i] == '\n' && forall j | 0 <= j < i :: s[j] != '\n'
    ensures Split(s, "\n") == [s[..i]] + Split(s[i + 1..], "\n")
  {
    SingleAt(s, '\n');
    assert Find(s, "\n") == Some(i);
  }

  lemma SingleLine(s: string)
    requires forall j | 0 <= j < |s| :: s[j] != '\n'
    ensures Split(s, "\n") == [s]
  {
    SingleAt(s, '\n');
    assert Find(s, "\n") == None;
  }

  /** A blank before a value is trimmed off, the value itself is not. */
  lemma TrimsTheBlank(value: string)
    requires OneLine(value)
    ensures Trim(" " + value) == value
  {
    assert TrimLeft(" " + value) == TrimLeft(value) by {
      assert (" " + value)[1..] == value;
    }
    TrimKeeps(value);
  }

  lemma TwoLines(first: string, second: string)
    requires forall i | 0 <= i < |first| :: first[i] != '\n'
    requires forall i | 0 <= i < |second| :: second[i] != '\n'
    ensures Split(first + "\n" + second, "\n") == [first, second]
  {
    var both := first + "\n" + second;
    assert both[..|first|] == first && both[|first| + 1..] == second;
    LineAt(both, |first|);
    SingleLine(second);
  }

  lemma BodySplits(kind: string, data: string)
    requires OneLine(kind) && OneLine(data)
    ensures Split(Body(kind, data), "\n") == ["event: " + kind, "data: " + data]
  {
    TwoLines("event: " + kind, "data: " + data);
    assert Body(kind, data) == "event: " + kind + "\n" + ("data: " + data);
  }

  lemma FieldsOfBody(kind: string, data: string)
    requires OneLine(kind) && OneLine(data)
    ensures Fields(["event: " + kind, "data: " + data], "", "") == (kind, data)
  {
    var first, second := "event: " + kind, "data: " + data;
    assert first[..6] == "event:" && first[6..] == " " + kind;
    assert second[..5] == "data:" && second[5..] == " " + data;
    assert !StartsWith(second, "event:") && !StartsWith(first, "data:") by {
      assert first[0] == 'e' && second[0] == 'd';
    }
    TrimsTheBlank(kind);
    TrimsTheBlank(data);
    assert [first, second][1..] == [second] && [second][1..] == [];
    assert Fields([second], kind, "") == Fields([], kind, "" + data);
    assert Fields([first, second], "", "") == Fields([second], kind, "");
    assert "" + data == data;
  }

  /** Parsing a printed body gives back its type and data. */
  lemma ParseUndoesPrint<E>(kind: string, data: string, read: (string, string) -> Option<E>)
    requires OneLine(kind) && OneLine(data)
    ensures Parsed(Body(kind, data), read) == read(kind, data)
  {
    BodySplits(kind, data);
    FieldsOfBody(kind, data);
  }

  function Bodies(events: seq<(string, string)>): seq<string> {
    if events == [] then [] else [Body(events[0].0, events[0].1)] + Bodies(events[1..])
  }

  ghost predicate Printable(events: seq<(string, string)>) {
    forall i | 0 <= i < |events| :: OneLine(events[i].0) && OneLine(events[i].1)
  }

  /** A printed stream splits into exactly its bodies, with nothing left over. */
  lemma {:induction false} StreamSplits(events: seq<(string, string)>)
    requires Printable(events)
    ensures Complete(PrintedAll(events)) == Bodies(events) && Rest(PrintedAll(events)) == ""
    decreases |events|
  {
    if events == [] {
      assert Find("", BREAK) == None;
    } else {
      var body, rest := Body(events[0].0, events[0].1), PrintedAll(events[1..]);
      BodyHasNoBreak(events[0].0, events[0].1, rest);
      assert PrintedAll(events) == body + BREAK + rest;
      assert PrintedAll(events)[..|body|] == body && PrintedAll(events)[|body| + 2..] == rest;
      StreamSplits(events[1..]);
    }
  }

  /** The events a client should see: each printed one that reads back, in order. */
  function ReadBack<E>(events: seq<(string, string)>, read: (string, string) -> Option<E>): seq<E> {
    if events == [] then []
    else (match read(events[0].0, events[0].1) case Some(e) => [e] case None => []) + ReadBack(events[1..], read)
  }

  lemma {:induction false} BodiesReadBack<E>(events: seq<(string, string)>, read: (string, string) -> Option<E>)
    requires Printable(events)
    ensures Known(Bodies(events), read) == ReadBack(events, read)
    decreases |events|
  {
    if events != [] {
      ParseUndoesPrint(events[0].0, events[0].1, read);
      assert Bodies(events)[1..] == Bodies(events[1..]);
      BodiesReadBack(events[1..], read);
    }
  }

  /** However the stream is cut into reads, the client emits exactly the printed events, in order. */
  lemma AnyCutDeliversAll<E>(events: seq<(string, string)>, inputs: seq<string>, read: (string, string) -> Option<E>)
    requires Printable(events) && Concat(inputs) == PrintedAll(events)
    ensures Known(Complete(Concat(inputs)), read) == ReadBack(events, read)
  {
    StreamSplits(events);
    BodiesReadBack(events, read);
  }

  lemma AtPrefix(s: string, t: string, sep: string, j: nat)
    requires s <= t && At(s, sep, j)
    ensures At(t, sep, j)
  {
    assert t[j..j + |sep|] == s[j..j + |sep|];
  }

  /** A part of a printed event completes nothing. */
  lemma PartCompletesNothing(kind: string, data: string, cut: string)
    requires OneLine(kind) && OneLine(data)
    requires cut <= Printed(kind, data) && |cut| < |Printed(kind, data)|
    ensures Complete(cut) == []
  {
    var printed := Printed(kind, data);
    BodyHasNoBreak(kind, data, "");
    assert Body(kind, data) + BREAK + "" == printed;
    forall j: nat | At(cut, BREAK, j) ensures j >= |Body(kind, data)| {
      AtPrefix(cut, printed, BREAK, j);
    }
  }

  lemma ShorterPrefix(before: string, part: string, whole: string, all: string)
    requires part <= whole && before + whole <= all
    ensures before + part <= all
  {
    assert (before + whole)[..|before + part|] == before + part;
  }

  /** A stream broken off anywhere has delivered the events printed completely by then, and no part of another. */
  lemma BrokenStreamDeliversPrefix<E>(
    events: seq<(string, string)>, k: nat, cut: string, read: (string, string) -> Option<E>)
    requires Printable(events) && k < |events|
    requires cut <= Printed(events[k].0, events[k].1) && |cut| < |Printed(events[k].0, events[k].1)|
    ensures PrintedAll(events[..k]) + cut <= PrintedAll(events)
    ensures Known(Complete(PrintedAll(events[..k]) + cut), read) == ReadBack(events[..k], read)
  {
    PrintedPrefix(events, k);
    ShorterPrefix(PrintedAll(events[..k]), cut, Printed(events[k].0, events[k].1), PrintedAll(events));
    StreamSplits(events[..k]);
    Incremental(PrintedAll(events[..k]), cut);
    assert "" + cut == cut;
    PartCompletesNothing(events[k].0, events[k].1, cut);
    assert Bodies(events[..k]) + [] == Bodies(events[..k]);
    BodiesReadBack(events[..k], read);
  }

  lemma {:induction false} PrintedPrefix(events: seq<(string, string)>, k: nat)
    requires k < |events|
    ensures PrintedAll(events[..k]) + Printed(events[k].0, events[k].1) <= PrintedAll(events)
    decreases k
  {
    if k == 0 {
      assert PrintedAll(events[..0]) + Printed(events[0].0, events[0].1) == Printed(events[0].0, events[0].1);
    } else {
      PrintedPrefix(events[1..], k - 1);
      assert events[1..][..k - 1] == events[..k][1..] && events[1..][k - 1] == events[k];
      var first := Printed(events[0].0, events[0].1);
      assert PrintedAll(events[..k]) == first + PrintedAll(events[1..][..k - 1]);
      var shorter := PrintedAll(events[1..][..k - 1]) + Printed(events[k].0, events[k].1);
      assert shorter <= PrintedAll(events[1..]);
      assert PrintedAll(events[..k]) + Printed(events[k].0, events[k].1) == first + shorter;
    }
  }
}
