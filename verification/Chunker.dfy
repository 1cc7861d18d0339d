/** Cuts a document into titled chunks of bounded size without losing any visible text but its headings. */
module Chunker {
  import opened Wrappers
  import opened Text
  import opened Normalize

  const TWO_TO_THE_32: nat := 0x1_0000_0000

  datatype Chunk = Chunk(index: nat, section: string, content: string)

  datatype Section = Section(title: string, body: string)

  /** Configured sizes, with the defaults for those not set. */
  function Limits(targetChars: int, maxChars: int): (r: (nat, nat))
    ensures 0 < r.0 <= r.1
    ensures maxChars > 0 ==> r.1 == maxChars
    ensures 0 < targetChars <= r.1 ==> r.0 == targetChars
  {
    var target: nat := if targetChars <= 0 then 900 else targetChars;
    var most: nat := if maxChars <= 0 then 1200 else maxChars;
    (if target > most then most else target, most)
  }

  function Hashes(s: string): (n: nat)
    ensures n <= |s| && forall i | 0 <= i < n :: s[i] == '#'
    ensures n < |s| ==> s[n] != '#'
  {
    if s != "" && s[0] == '#' then 1 + Hashes(s[1..]) else 0
  }

  /** The title of a Markdown heading line. */
  function Heading(line: string): Option<string> {
    var trimmed := Trim(line);
    var n := Hashes(trimmed);
    if n == 0 || n == |trimmed| || trimmed[n] != ' ' then None
    else
      var title := Trim(trimmed[n..]);
      if title == "" then None else Some(title)
  }

  function DefaultTitle(baseName: string): string {
    var title := Trim(baseName);
    if title == "" || title == "." then "document" else title
  }

  function FlushSection(title: string, lines: seq<string>): seq<Section> {
    var body := Trim(Join(lines, "\n"));
    if body != "" then [Section(title, body)] else []
  }

  /** The sections of the remaining lines, the open one holding `current` already. */
  function SectionsOf(lines: seq<string>, title: string, current: seq<string>): seq<Section>
    decreases |lines|
  {
    if lines == [] then FlushSection(title, current)
    else
      match Heading(lines[0])
      case Some(t) => FlushSection(title, current) + SectionsOf(lines[1..], t, [])
      case None => SectionsOf(lines[1..], title, current + [lines[0]])
  }

  /** The lines that are not headings. */
  function BodyLines(lines: seq<string>): seq<string> {
    if lines == [] then [] else (if Heading(lines[0]).Some? then [] else [lines[0]]) + BodyLines(lines[1..])
  }

  function Pieces(value: string, most: nat): seq<string>
    requires most > 0
    decreases |value|
  {
    if |value| > most then
      TrimKeeps(value[most..]);
      [value[..most]] + Pieces(Trim(value[most..]), most)
    else if value != "" then [value]
    else []
  }

  function FlushChunk(current: string): seq<string> {
    if Trim(current) != "" then [current] else []
  }

  /** Fills chunks paragraph by paragraph up to the target; paragraphs over the limit are cut up. */
  function Pack(paragraphs: seq<string>, current: string, target: nat, most: nat): seq<string>
    requires most > 0
    decreases |paragraphs|
  {
    if paragraphs == [] then FlushChunk(current)
    else
      var p, rest := Trim(paragraphs[0]), paragraphs[1..];
      if p == "" then Pack(rest, current, target, most)
      else if |p| > most then FlushChunk(current) + Pieces(p, most) + Pack(rest, "", target, most)
      else if current == "" then Pack(rest, p, target, most)
      else if |current| + 2 + |p| <= target then Pack(rest, current + "\n\n" + p, target, most)
      else FlushChunk(current) + Pack(rest, p, target, most)
  }

  function Bodies(sections: seq<Section>): seq<string> {
    seq(|sections|, i requires 0 <= i < |sections| => sections[i].body)
  }

  lemma FlushShows(title: string, lines: seq<string>)
    ensures VisibleAll(Bodies(FlushSection(title, lines))) == VisibleAll(lines)
  {
    assert Visible("\n") == "";
    JoinShows(lines, "\n");
    TrimKeeps(Join(lines, "\n"));
    var body := Trim(Join(lines, "\n"));
    if body != "" {
      var bodies := Bodies(FlushSection(title, lines));
      assert bodies == [body] && bodies[1..] == [];
    }
  }

  lemma BodiesAppend(s: seq<Section>, t: seq<Section>)
    ensures VisibleAll(Bodies(s + t)) == VisibleAll(Bodies(s)) + VisibleAll(Bodies(t))
  {
    assert Bodies(s + t) == Bodies(s) + Bodies(t);
    VisibleAllAppends(Bodies(s), Bodies(t));
  }

  /** A heading ends the section before it and is itself left out. */
  lemma HeadingShows(lines: seq<string>, title: string, current: seq<string>, heading: string)
    requires lines != [] && Heading(lines[0]) == Some(heading)
    requires VisibleAll(Bodies(SectionsOf(lines[1..], heading, []))) == VisibleAll(BodyLines(lines[1..]))
    ensures VisibleAll(Bodies(SectionsOf(lines, title, current))) == VisibleAll(current) + VisibleAll(BodyLines(lines))
  {
    FlushShows(title, current);
    BodiesAppend(FlushSection(title, current), SectionsOf(lines[1..], heading, []));
    assert BodyLines(lines) == BodyLines(lines[1..]);
  }

  lemma Associates(a: string, b: string, c: string)
    ensures a + b + c == a + (b + c)
  {
  }

  lemma LineShows(lines: seq<string>, title: string, current: seq<string>)
    requires lines != [] && Heading(lines[0]).None?
    ensures VisibleAll(current + [lines[0]]) + VisibleAll(BodyLines(lines[1..]))
      == VisibleAll(current) + VisibleAll(BodyLines(lines))
  {
    VisibleAllAppends(current, [lines[0]]);
    VisibleAllAppends([lines[0]], BodyLines(lines[1..]));
    Associates(VisibleAll(current), VisibleAll([lines[0]]), VisibleAll(BodyLines(lines[1..])));
  }

  /** Sections hold, in order, everything visible outside heading lines. */
  lemma {:induction false} SectionsShow(lines: seq<string>, title: string, current: seq<string>)
    ensures VisibleAll(Bodies(SectionsOf(lines, title, current))) == VisibleAll(current) + VisibleAll(BodyLines(lines))
    decreases |lines|
  {
    if lines == [] {
      FlushShows(title, current);
    } else {
      match Heading(lines[0])
      case Some(t) =>
        SectionsShow(lines[1..], t, []);
        assert VisibleAll([]) + VisibleAll(BodyLines(lines[1..])) == VisibleAll(BodyLines(lines[1..]));
        HeadingShows(lines, title, current, t);
      case None =>
        SectionsShow(lines[1..], title, current + [lines[0]]);
        LineShows(lines, title, current);
    }
  }

  /** Each character under a title. */
  function Tag(title: string, text: string): (r: seq<(string, char)>)
    ensures |r| == |text|
  {
    seq(|text|, i requires 0 <= i < |text| => (title, text[i]))
  }

  lemma TagAppends(title: string, a: string, b: string)
    ensures Tag(title, a + b) == Tag(title, a) + Tag(title, b)
  {
  }

  /** What the lines show, each character under the last heading before it. */
  function TitledLines(lines: seq<string>, title: string): seq<(string, char)>
    decreases |lines|
  {
    if lines == [] then []
    else
      match Heading(lines[0])
      case Some(t) => TitledLines(lines[1..], t)
      case None => Tag(title, Visible(lines[0])) + TitledLines(lines[1..], title)
  }

  /** What sections show, each character under its section's title. */
  function TitledSections(sections: seq<Section>): seq<(string, char)> {
    if sections == [] then []
    else
      TitledSections(sections[..|sections| - 1]) +
      Tag(sections[|sections| - 1].title, Visible(sections[|sections| - 1].body))
  }

  lemma {:induction false} TitledAppend(a: seq<Section>, b: seq<Section>)
    ensures TitledSections(a + b) == TitledSections(a) + TitledSections(b)
    decreases |b|
  {
    if b == [] {
      assert a + b == a;
    } else {
      var n := |b| - 1;
      assert (a + b)[..|a + b| - 1] == a + b[..n];
      TitledAppend(a, b[..n]);
    }
  }

  lemma FlushIsTitled(title: string, lines: seq<string>)
    ensures TitledSections(FlushSection(title, lines)) == Tag(title, VisibleAll(lines))
  {
    FlushShows(title, lines);
    var sections := FlushSection(title, lines);
    if sections != [] {
      assert sections[..0] == [] && Bodies(sections) == [sections[0].body];
      OneShows(sections[0].body);
    }
  }

  lemma LineIsTitled(title: string, current: seq<string>, line: string, rest: seq<(string, char)>)
    ensures Tag(title, VisibleAll(current + [line])) + rest
      == Tag(title, VisibleAll(current)) + (Tag(title, Visible(line)) + rest)
  {
    VisibleAllAppends(current, [line]);
    OneShows(line);
    TagAppends(title, VisibleAll(current), Visible(line));
  }

  /** Every line's text stands under the last heading before it, or under the document's own title. */
  lemma {:induction false} SectionsAreTitled(lines: seq<string>, title: string, current: seq<string>)
    ensures TitledSections(SectionsOf(lines, title, current))
      == Tag(title, VisibleAll(current)) + TitledLines(lines, title)
    decreases |lines|
  {
    if lines == [] {
      FlushIsTitled(title, current);
    } else {
      match Heading(lines[0])
      case Some(t) =>
        SectionsAreTitled(lines[1..], t, []);
        FlushIsTitled(title, current);
        TitledAppend(FlushSection(title, current), SectionsOf(lines[1..], t, []));
        assert Tag(t, VisibleAll([])) == [];
      case None =>
        SectionsAreTitled(lines[1..], title, current + [lines[0]]);
        LineIsTitled(title, current, lines[0], TitledLines(lines[1..], title));
    }
  }

  /** Not empty, within the limit, and starting with something visible. */
  predicate Fits(chunk: string, most: nat) {
    0 < |chunk| <= most && !IsSpace(chunk[0])
  }

  predicate AllFit(chunks: seq<string>, most: nat) {
    forall i | 0 <= i < |chunks| :: Fits(chunks[i], most)
  }

  lemma AllFitAppends(a: seq<string>, b: seq<string>, most: nat)
    requires AllFit(a, most) && AllFit(b, most)
    ensures AllFit(a + b, most)
  {
  }

  lemma PartsShow(value: string, head: string, tail: string)
    requires value == head + tail
    ensures Visible(value) == Visible(head) + Visible(Trim(tail))
  {
    VisibleAppends(head, tail);
    TrimKeeps(tail);
  }

  lemma CutShows(value: string, most: nat)
    requires most <= |value|
    ensures Visible(value) == Visible(value[..most]) + Visible(Trim(value[most..]))
  {
    PartsShow(value, value[..most], value[most..]);
  }

  lemma {:induction false} PiecesFit(value: string, most: nat)
    requires most > 0 && Trimmed(value)
    ensures AllFit(Pieces(value, most), most)
    ensures VisibleAll(Pieces(value, most)) == Visible(value)
    decreases |value|
  {
    if |value| > most {
      var rest := Trim(value[most..]);
      CutShows(value, most);
      TrimKeeps(value[most..]);
      PiecesFit(rest, most);
      AllFitAppends([value[..most]], Pieces(rest, most), most);
      VisibleAllAppends([value[..most]], Pieces(rest, most));
      OneShows(value[..most]);
    } else if value != "" {
      OneShows(value);
    }
  }

  lemma OneShows(part: string)
    ensures VisibleAll([part]) == Visible(part)
  {
    assert [part][1..] == [];
  }

  /** All pieces but the last are as long as the limit allows. */
  lemma {:induction false} PiecesAreFull(value: string, most: nat)
    requires most > 0
    ensures forall i | 0 <= i < |Pieces(value, most)| - 1 :: |Pieces(value, most)[i]| == most
    decreases |value|
  {
    if |value| > most {
      TrimKeeps(value[most..]);
      PiecesAreFull(Trim(value[most..]), most);
    }
  }

  lemma FlushedChunk(current: string)
    requires Trimmed(current)
    ensures FlushChunk(current) == if current == "" then [] else [current]
    ensures VisibleAll(FlushChunk(current)) == Visible(current)
  {
    TrimKeeps(current);
    OneShows(current);
  }

  lemma MergedIsTrimmed(current: string, p: string)
    requires Trimmed(current) && Trimmed(p) && current != "" && p != ""
    ensures Trimmed(current + "\n\n" + p) && |current + "\n\n" + p| == |current| + 2 + |p|
  {
    var all := current + "\n\n" + p;
    assert all[0] == current[0] && all[|all| - 1] == p[|p| - 1];
  }

  lemma MergedShows(current: string, p: string)
    ensures Visible(current + "\n\n" + p) == Visible(current) + Visible(p)
  {
    VisibleAppends(current + "\n\n", p);
    VisibleAppends(current, "\n\n");
    var gap := "\n\n";
    assert gap[1..] == "\n" && Visible(gap) == Visible(gap[1..]) == "";
  }

  lemma ThreeShow(a: seq<string>, b: seq<string>, c: seq<string>, x: string, y: string, z: string)
    requires VisibleAll(a) == x && VisibleAll(b) == y && VisibleAll(c) == z
    ensures VisibleAll(a + b + c) == x + (y + z)
  {
    VisibleAllAppends(a + b, c);
    VisibleAllAppends(a, b);
    Associates(x, y, z);
  }

  /** Every packed chunk fits. */
  lemma {:induction false} PackFits(paragraphs: seq<string>, current: string, target: nat, most: nat)
    requires 0 < target <= most && Trimmed(current) && |current| <= most
    ensures AllFit(Pack(paragraphs, current, target, most), most)
    decreases |paragraphs|
  {
    FlushedChunk(current);
    if paragraphs != [] {
      var p, rest := Trim(paragraphs[0]), paragraphs[1..];
      TrimKeeps(paragraphs[0]);
      if p == "" {
        PackFits(rest, current, target, most);
      } else if |p| > most {
        PiecesFit(p, most);
        PackFits(rest, "", target, most);
      } else if current == "" {
        PackFits(rest, p, target, most);
      } else if |current| + 2 + |p| <= target {
        MergedIsTrimmed(current, p);
        PackFits(rest, current + "\n\n" + p, target, most);
      } else {
        PackFits(rest, p, target, most);
      }
    }
  }

  lemma OversizedShows(current: string, p: string, rest: seq<string>, target: nat, most: nat)
    requires most > 0 && Trimmed(current) && Trimmed(p)
    requires VisibleAll(Pack(rest, "", target, most)) == VisibleAll(rest)
    ensures VisibleAll(FlushChunk(current) + Pieces(p, most) + Pack(rest, "", target, most))
      == Visible(current) + (Visible(p) + VisibleAll(rest))
  {
    FlushedChunk(current);
    PiecesFit(p, most);
    ThreeShow(FlushChunk(current), Pieces(p, most), Pack(rest, "", target, most), Visible(current), Visible(p),
              VisibleAll(rest));
  }

  lemma FlushedShows(current: string, p: string, rest: seq<string>, target: nat, most: nat)
    requires most > 0 && Trimmed(current)
    requires VisibleAll(Pack(rest, p, target, most)) == Visible(p) + VisibleAll(rest)
    ensures VisibleAll(FlushChunk(current) + Pack(rest, p, target, most))
      == Visible(current) + (Visible(p) + VisibleAll(rest))
  {
    FlushedChunk(current);
    VisibleAllAppends(FlushChunk(current), Pack(rest, p, target, most));
  }

  lemma MergeAssociates(current: string, p: string, rest: string)
    ensures Visible(current + "\n\n" + p) + rest == Visible(current) + (Visible(p) + rest)
  {
    MergedShows(current, p);
  }

  lemma HeadShows(paragraphs: seq<string>)
    requires paragraphs != []
    ensures Trimmed(Trim(paragraphs[0]))
    ensures VisibleAll(paragraphs) == Visible(Trim(paragraphs[0])) + VisibleAll(paragraphs[1..])
  {
    TrimKeeps(paragraphs[0]);
  }

  /** Together the chunks show exactly the paragraphs, in order. */
  lemma {:induction false} PackShows(paragraphs: seq<string>, current: string, target: nat, most: nat)
    requires most > 0 && Trimmed(current)
    ensures VisibleAll(Pack(paragraphs, current, target, most)) == Visible(current) + VisibleAll(paragraphs)
    decreases |paragraphs|
  {
    if paragraphs == [] {
      FlushedChunk(current);
    } else {
      var p, rest := Trim(paragraphs[0]), paragraphs[1..];
      HeadShows(paragraphs);
      if p == "" {
        PackShows(rest, current, target, most);
      } else if |p| > most {
        PackShows(rest, "", target, most);
        OversizedShows(current, p, rest, target, most);
      } else if current == "" {
        PackShows(rest, p, target, most);
      } else if |current| + 2 + |p| <= target {
        MergedIsTrimmed(current, p);
        PackShows(rest, current + "\n\n" + p, target, most);
        MergeAssociates(current, p, VisibleAll(rest));
      } else {
        PackShows(rest, p, target, most);
        FlushedShows(current, p, rest, target, most);
      }
    }
  }

  lemma {:induction false} PackStartsWith(paragraphs: seq<string>, current: string, target: nat, most: nat)
    requires most > 0 && Trimmed(current) && current != ""
    ensures var chunks := Pack(paragraphs, current, target, most); chunks != [] && |chunks[0]| >= |current|
    decreases |paragraphs|
  {
    FlushedChunk(current);
    if paragraphs != [] {
      var p, rest := Trim(paragraphs[0]), paragraphs[1..];
      TrimKeeps(paragraphs[0]);
      if p == "" {
        PackStartsWith(rest, current, target, most);
      } else if |p| <= most && |current| + 2 + |p| <= target {
        MergedIsTrimmed(current, p);
        PackStartsWith(rest, current + "\n\n" + p, target, most);
      }
    }
  }

  /** No chunk could have taken in the next one. */
  predicate Tight(chunks: seq<string>, target: nat) {
    forall i | 0 <= i < |chunks| - 1 :: |chunks[i]| + 2 + |chunks[i + 1]| > target
  }

  lemma TightCons(first: string, chunks: seq<string>, target: nat)
    requires Tight(chunks, target) && (chunks != [] ==> |first| + 2 + |chunks[0]| > target)
    ensures Tight([first] + chunks, target)
  {
    var all := [first] + chunks;
    forall i | 0 <= i < |all| - 1 ensures |all[i]| + 2 + |all[i + 1]| > target {
      assert i > 0 ==> all[i] == chunks[i - 1] && all[i + 1] == chunks[i];
    }
  }

  /** Packing is tight: where no paragraph is over the limit, chunks are as full as the target lets them be. */
  lemma {:induction false} PackIsTight(paragraphs: seq<string>, current: string, target: nat, most: nat)
    requires 0 < target <= most && Trimmed(current) && |current| <= most
    requires forall i | 0 <= i < |paragraphs| :: |Trim(paragraphs[i])| <= most
    ensures Tight(Pack(paragraphs, current, target, most), target)
    decreases |paragraphs|
  {
    FlushedChunk(current);
    if paragraphs != [] {
      var p, rest := Trim(paragraphs[0]), paragraphs[1..];
      TrimKeeps(paragraphs[0]);
      if p == "" {
        PackIsTight(rest, current, target, most);
      } else if current == "" {
        PackIsTight(rest, p, target, most);
      } else if |current| + 2 + |p| <= target {
        MergedIsTrimmed(current, p);
        PackIsTight(rest, current + "\n\n" + p, target, most);
      } else {
        PackIsTight(rest, p, target, most);
        PackStartsWith(rest, p, target, most);
        TightCons(current, Pack(rest, p, target, most), target);
      }
    }
  }

  /** Shortens the value piece by piece. */
  method HardSplit(value: string, most: nat) returns (parts: seq<string>)
    requires most > 0
    ensures parts == Pieces(value, most)
  {
    parts := [];
    var left := value;
    while |left| > most
      invariant parts + Pieces(left, most) == Pieces(value, most)
      decreases |left|
    {
      TrimKeeps(left[most..]);
      var next := Trim(left[most..]);
      assert parts + Pieces(left, most) == parts + [left[..most]] + Pieces(next, most);
      parts, left := parts + [left[..most]], next;
    }
    if left != "" {
      parts := parts + [left];
    }
  }

  method ChunkSection(body: string, target: nat, most: nat) returns (chunks: seq<string>)
    requires most > 0
    ensures chunks == Pack(Split(body, "\n\n"), "", target, most)
  {
    var paragraphs := Split(body, "\n\n");
    chunks := [];
    var current := "";
    for i := 0 to |paragraphs|
      invariant chunks + Pack(paragraphs[i..], current, target, most) == Pack(paragraphs, "", target, most)
    {
      ghost var before := chunks;
      var paragraph := Trim(paragraphs[i]);
      assert paragraphs[i..][0] == paragraphs[i] && paragraphs[i..][1..] == paragraphs[i + 1..];
      if paragraph == "" {
        continue;
      }
      if |paragraph| > most {
        var parts := HardSplit(paragraph, most);
        chunks := chunks + FlushChunk(current) + parts;
        current := "";
        Regroup(before, FlushChunk(""), parts, Pack(paragraphs[i + 1..], "", target, most));
      } else if current == "" {
        current := paragraph;
      } else if |current| + 2 + |paragraph| <= target {
        current := current + "\n\n" + paragraph;
      } else {
        chunks := chunks + FlushChunk(current);
        current := paragraph;
      }
    }
    chunks := chunks + FlushChunk(current);
    assert paragraphs[|paragraphs|..] == [];
  }

  lemma Regroup(a: seq<string>, b: seq<string>, c: seq<string>, d: seq<string>)
    ensures a + (b + c + d) == a + b + c + d
  {
  }

  /** Groups lines under the heading before them. */
  method SplitSections(baseName: string, text: string) returns (sections: seq<Section>)
    ensures sections == SectionsOf(Split(text, "\n"), DefaultTitle(baseName), [])
  {
    var lines := Split(text, "\n");
    var title := DefaultTitle(baseName);
    var current: seq<string> := [];
    sections := [];
    for i := 0 to |lines|
      invariant sections + SectionsOf(lines[i..], title, current) == SectionsOf(lines, DefaultTitle(baseName), [])
    {
      assert lines[i..][0] == lines[i] && lines[i..][1..] == lines[i + 1..];
      match Heading(lines[i]) {
        case Some(t) =>
          assert sections + (FlushSection(title, current) + SectionsOf(lines[i + 1..], t, []))
              == sections + FlushSection(title, current) + SectionsOf(lines[i + 1..], t, []);
          sections := sections + FlushSection(title, current);
          title, current := t, [];
        case None =>
          current := current + [lines[i]];
      }
    }
    sections := sections + FlushSection(title, current);
    assert lines[|lines|..] == [];
  }

  function Contents(chunks: seq<Chunk>): seq<string> {
    seq(|chunks|, i requires 0 <= i < |chunks| => chunks[i].content)
  }

  /** What a caller gets: numbered, trimmed chunks within the limit. */
  ghost predicate WellFormed(chunks: seq<Chunk>, most: nat) {
    forall i | 0 <= i < |chunks| :: WellPlaced(chunks[i], i, most)
  }

  predicate WellPlaced(chunk: Chunk, i: nat, most: nat) {
    chunk.index == i % TWO_TO_THE_32 && 0 < |chunk.content| <= most && Trimmed(chunk.content)
  }

  /** The text's visible content outside its headings. */
  function Prose(text: string): string {
    VisibleAll(BodyLines(Split(text, "\n")))
  }

  lemma SectionBodyPacks(body: string, target: nat, most: nat)
    requires 0 < target <= most
    ensures AllFit(Pack(Split(body, "\n\n"), "", target, most), most)
    ensures VisibleAll(Pack(Split(body, "\n\n"), "", target, most)) == Visible(body)
  {
    PackFits(Split(body, "\n\n"), "", target, most);
    PackShows(Split(body, "\n\n"), "", target, most);
    var gap := "\n\n";
    assert gap[1..] == "\n" && Visible(gap) == Visible(gap[1..]) == "";
    SplitShows(body, "\n\n");
  }

  lemma ContentsAppend(chunks: seq<Chunk>, chunk: Chunk)
    ensures VisibleAll(Contents(chunks + [chunk])) == VisibleAll(Contents(chunks)) + Visible(chunk.content)
  {
    assert Contents(chunks + [chunk]) == Contents(chunks) + [chunk.content];
    VisibleAllAppends(Contents(chunks), [chunk.content]);
    OneShows(chunk.content);
  }

  /** What chunks show, each character under its chunk's section. */
  function TitledChunks(chunks: seq<Chunk>): seq<(string, char)> {
    if chunks == [] then []
    else
      TitledChunks(chunks[..|chunks| - 1]) +
      Tag(chunks[|chunks| - 1].section, Visible(chunks[|chunks| - 1].content))
  }

  lemma OneMoreTitled(chunks: seq<Chunk>, chunk: Chunk, shown: string, before: seq<(string, char)>)
    requires TitledChunks(chunks) == before + Tag(chunk.section, shown)
    ensures TitledChunks(chunks + [chunk]) == before + Tag(chunk.section, shown + Visible(chunk.content))
  {
    assert (chunks + [chunk])[..|chunks|] == chunks;
    TagAppends(chunk.section, shown, Visible(chunk.content));
  }

  lemma NextShows(parts: seq<string>, i: nat)
    requires i < |parts|
    ensures VisibleAll(parts[..i + 1]) == VisibleAll(parts[..i]) + Visible(parts[i])
  {
    VisibleAllAppends(parts[..i], [parts[i]]);
    OneShows(parts[i]);
    assert parts[..i + 1] == parts[..i] + [parts[i]];
  }

  /** The chunks `r` continue `chunks` by what of a section is shown so far. */
  ghost predicate Continues(r: seq<Chunk>, chunks: seq<Chunk>, section: string, shown: string, most: nat) {
    && WellFormed(r, most)
    && VisibleAll(Contents(r)) == VisibleAll(Contents(chunks)) + shown
    && TitledChunks(r) == TitledChunks(chunks) + Tag(section, shown)
  }

  lemma OneMoreChunk(r: seq<Chunk>, chunks: seq<Chunk>, shown: string, chunk: Chunk, most: nat)
    requires Continues(r, chunks, chunk.section, shown, most) && WellPlaced(chunk, |r|, most)
    ensures Continues(r + [chunk], chunks, chunk.section, shown + Visible(chunk.content), most)
  {
    var next := r + [chunk];
    forall i | 0 <= i < |next| ensures WellPlaced(next[i], i, most) {
      assert i < |r| ==> next[i] == r[i];
    }
    ContentsAppend(r, chunk);
    OneMoreTitled(r, chunk, shown, TitledChunks(chunks));
    var before := VisibleAll(Contents(chunks));
    assert before + (shown + Visible(chunk.content)) == before + shown + Visible(chunk.content);
  }

  /** Adds a section's chunks, trimmed and numbered on. */
  method AddChunks(chunks: seq<Chunk>, section: Section, bodies: seq<string>, most: nat) returns (r: seq<Chunk>)
    requires WellFormed(chunks, most) && AllFit(bodies, most)
    ensures Continues(r, chunks, section.title, VisibleAll(bodies), most)
  {
    r := chunks;
    assert VisibleAll(bodies[..0]) == "";
    for i := 0 to |bodies|
      invariant Continues(r, chunks, section.title, VisibleAll(bodies[..i]), most)
    {
      var body := Trim(bodies[i]);
      TrimKeeps(bodies[i]);
      NextShows(bodies, i);
      if body == "" {
        continue;
      }
      var chunk := Chunk(|r| % TWO_TO_THE_32, section.title, body);
      OneMoreChunk(r, chunks, VisibleAll(bodies[..i]), chunk, most);
      r := r + [chunk];
    }
    assert bodies[..|bodies|] == bodies;
  }

  /**
   The chunks of a document: each within the limit and numbered in order, together showing exactly the
   visible text outside heading lines, under the last heading before it. It fails exactly when there is no
   such text.
   */
  method Chunks(targetChars: int, maxChars: int, baseName: string, content: string) returns (r: Option<seq<Chunk>>)
    ensures r.Some? <==> Prose(NormalizeText(content)) != ""
    ensures r.Some? ==>
      && WellFormed(r.value, Limits(targetChars, maxChars).1)
      && VisibleAll(Contents(r.value)) == Prose(NormalizeText(content))
      && TitledChunks(r.value) == TitledLines(Split(NormalizeText(content), "\n"), DefaultTitle(baseName))
  {
    var (target, most) := Limits(targetChars, maxChars);
    var text := NormalizeText(content);
    if text == "" {
      EmptyHasNoProse();
      return None;
    }
    SectionsShow(Split(text, "\n"), DefaultTitle(baseName), []);
    SectionsAreTitled(Split(text, "\n"), DefaultTitle(baseName), []);
    var sections := SplitSections(baseName, text);
    var chunks := ChunkSections(sections, target, most);
    assert VisibleAll([]) + Prose(text) == Prose(text);
    assert Tag(DefaultTitle(baseName), VisibleAll([])) == [];
    if chunks == [] {
      return None;
    }
    ShownIsNotEmpty(chunks, most);
    return Some(chunks);
  }

  lemma EmptyHasNoProse()
    ensures Prose("") == ""
  {
    var lines := Split("", "\n");
    assert lines == [""] && lines[1..] == [];
    OneShows("");
  }

  lemma ShownIsNotEmpty(chunks: seq<Chunk>, most: nat)
    requires WellFormed(chunks, most) && chunks != []
    ensures VisibleAll(Contents(chunks)) != ""
  {
    assert Contents(chunks)[0] == chunks[0].content && !IsSpace(chunks[0].content[0]);
  }

  lemma NextBodyShows(sections: seq<Section>, i: nat)
    requires i < |sections|
    ensures VisibleAll(Bodies(sections[..i + 1])) == VisibleAll(Bodies(sections[..i])) + Visible(sections[i].body)
  {
    BodiesAppend(sections[..i], [sections[i]]);
    assert sections[..i + 1] == sections[..i] + [sections[i]] && Bodies([sections[i]]) == [sections[i].body];
    OneShows(sections[i].body);
  }

  method ChunkSections(sections: seq<Section>, target: nat, most: nat) returns (chunks: seq<Chunk>)
    requires 0 < target <= most
    ensures WellFormed(chunks, most) && VisibleAll(Contents(chunks)) == VisibleAll(Bodies(sections))
    ensures TitledChunks(chunks) == TitledSections(sections)
  {
    chunks := [];
    for i := 0 to |sections|
      invariant WellFormed(chunks, most) && VisibleAll(Contents(chunks)) == VisibleAll(Bodies(sections[..i]))
      invariant TitledChunks(chunks) == TitledSections(sections[..i])
    {
      var bodies := ChunkSection(sections[i].body, target, most);
      SectionBodyPacks(sections[i].body, target, most);
      chunks := AddChunks(chunks, sections[i], bodies, most);
      NextBodyShows(sections, i);
      assert sections[..i + 1][..i] == sections[..i];
    }
    assert sections[..|sections|] == sections;
  }
}
