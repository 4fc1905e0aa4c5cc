/** Reading server-sent events: however the text is cut into chunks, the events are those of the whole text. */
module EventStream {
  import opened Options
  import opened Text

  // ------------------------------------------------------------- specification: whole text, line by line

  /** `text.split('\n')`. */
  function Lines(text: string): (lines: seq<string>)
    ensures lines != []
  {
    if text == "" then [""] else Prepended(text[0], Lines(text[1..]))
  }

  /** A character before the first of some lines. */
  function Prepended(c: char, lines: seq<string>): (r: seq<string>)
    requires lines != []
    ensures r != []
  {
    if c == '\n' then [""] + lines else [[c] + lines[0]] + lines[1..]
  }

  datatype Meaning = Nothing | End | Data(payload: string)

  function LineMeaning(line: string): Meaning {
    var trimmed := Trim(line);
    if trimmed == "" || trimmed[0] == ':' then Nothing
    else if "data: " <= trimmed then
      if trimmed[6..] == "[DONE]" then End else Data(trimmed[6..])
    else Nothing
  }

  function Meanings(lines: seq<string>): seq<Meaning> {
    if lines == [] then []
    else (if LineMeaning(lines[0]).Nothing? then [] else [LineMeaning(lines[0])]) + Meanings(lines[1..])
  }

  /** The parsed payloads up to the first end marker; a payload that does not parse yields nothing. */
  function Yielded<E>(meanings: seq<Meaning>, parse: string -> Option<E>): seq<E> {
    if meanings == [] then []
    else
      match meanings[0]
      case End => []
      case Nothing => Yielded(meanings[1..], parse)
      case Data(payload) =>
        (match parse(payload) case Some(event) => [event] case None => []) + Yielded(meanings[1..], parse)
  }

  function EventsOf<E>(text: string, parse: string -> Option<E>): seq<E> {
    Yielded(Meanings(Lines(text)), parse)
  }

  function Joined(chunks: seq<string>): string {
    if chunks == [] then "" else chunks[0] + Joined(chunks[1..])
  }

  // ------------------------------------------------------------- cutting and joining

  /** `text.split('\n\n')`: pieces between non-overlapping blank separators, from the left. */
  function Parts(text: string): (parts: seq<string>)
    ensures parts != []
  {
    if |text| < 2 then [text]
    else if text[0] == '\n' && text[1] == '\n' then [""] + Parts(text[2..])
    else
      var rest := Parts(text[1..]);
      [[text[0]] + rest[0]] + rest[1..]
  }

  lemma PrependedJoin(c: char, lines: seq<string>, more: seq<string>)
    requires lines != []
    ensures Prepended(c, lines + more) == Prepended(c, lines) + more
  {
    if c == '\n' {
      assert [""] + (lines + more) == [""] + lines + more;
    } else {
      assert (lines + more)[1..] == lines[1..] + more;
    }
  }

  lemma LinesHead(c: char, rest: string)
    ensures Lines([c] + rest) == Prepended(c, Lines(rest))
  {
    assert ([c] + rest)[1..] == rest;
  }

  lemma {:induction false} LinesJoin(a: string, b: string)
    ensures Lines(a + "\n" + b) == Lines(a) + Lines(b)
  {
    if a == "" {
      LinesHead('\n', b);
      assert a + "\n" + b == ['\n'] + b;
    } else {
      hide Lines, Prepended;
      var c, rest := a[0], a[1..];
      var tail := rest + "\n" + b;
      LinesJoin(rest, b);
      LinesHead(c, rest);
      LinesHead(c, tail);
      PrependedJoin(c, Lines(rest), Lines(b));
      assert a == [c] + rest;
      assert a + "\n" + b == [c] + tail;
    }
  }

  lemma {:induction false} MeaningsJoin(a: seq<string>, b: seq<string>)
    ensures Meanings(a + b) == Meanings(a) + Meanings(b)
  {
    if a == [] {
      assert a + b == b;
    } else {
      hide LineMeaning;
      assert (a + b)[1..] == a[1..] + b;
      MeaningsJoin(a[1..], b);
    }
  }

  lemma EmptyLineMeansNothing()
    ensures Lines("") == [""] && Meanings([""]) == []
  {
    hide Trim;
    TrimNothing();
    assert LineMeaning("") == Nothing;
    assert Meanings([""][1..]) == [];
  }

  /** A blank separator between two texts adds no meaning of its own. */
  lemma SeparatorMeansNothing(a: string, b: string)
    ensures Meanings(Lines(a + "\n\n" + b)) == Meanings(Lines(a)) + Meanings(Lines(b))
  {
    hide Lines, Meanings;
    EmptyLineMeansNothing();
    assert a + "\n\n" + b == a + "\n" + ("" + "\n" + b);
    LinesJoin(a, "" + "\n" + b);
    LinesJoin("", b);
    MeaningsJoin(Lines(a), Lines("") + Lines(b));
    MeaningsJoin(Lines(""), Lines(b));
  }

  /** The lines of all parts but the last, one part after another. */
  function PartLines(parts: seq<string>): seq<string> {
    if parts == [] then [] else Lines(parts[0]) + PartLines(parts[1..])
  }

  /** The first separator, when there is one, ends the first part. */
  lemma {:induction false} FirstPart(text: string) returns (rest: string)
    ensures var parts := Parts(text);
            if |parts| == 1 then parts[0] == text
            else text == parts[0] + "\n\n" + rest && Parts(rest) == parts[1..] && |rest| < |text|
  {
    rest := "";
    if |text| < 2 {
    } else if text[0] == '\n' && text[1] == '\n' {
      rest := text[2..];
      assert text == [text[0]] + [text[1]] + rest;
    } else {
      rest := FirstPart(text[1..]);
      assert text == [text[0]] + text[1..];
    }
  }

  lemma NoPartLines()
    ensures Meanings(PartLines([])) == []
  {
  }

  /** Cutting at blank separators and keeping the last piece for later loses no meaning, whatever text follows. */
  lemma {:induction false} CuttingKeepsMeaning(buffer: string, later: string)
    ensures var parts := Parts(buffer);
            var now := Meanings(PartLines(parts[..|parts| - 1]));
            Meanings(Lines(buffer + later)) == now + Meanings(Lines(parts[|parts| - 1] + later))
    decreases |buffer|
  {
    hide Parts, Lines, Meanings;
    var parts := Parts(buffer);
    var rest := FirstPart(buffer);
    NoPartLines();
    if |parts| > 1 {
      CuttingKeepsMeaning(rest, later);
      assert buffer + later == parts[0] + "\n\n" + (rest + later);
      SeparatorMeansNothing(parts[0], rest + later);
      var front := parts[..|parts| - 1];
      assert front[1..] == parts[1..][..|parts| - 2];
      MeaningsJoin(Lines(parts[0]), PartLines(front[1..]));
    }
  }

  lemma {:induction false} YieldedJoin<E>(a: seq<Meaning>, b: seq<Meaning>, parse: string -> Option<E>)
    ensures Yielded(a + b, parse) == Yielded(a, parse) + (if End in a then [] else Yielded(b, parse))
  {
    if a == [] {
      assert a + b == b;
    } else {
      assert (a + b)[1..] == a[1..] + b;
      YieldedJoin(a[1..], b, parse);
    }
  }

  /** A buffer of nothing but white space has no meaning. */
  lemma {:induction false} BlankMeansNothing(text: string)
    requires Blank(text)
    ensures Meanings(Lines(text)) == []
    ensures forall i :: 0 <= i < |Lines(text)| ==> Blank(Lines(text)[i])
  {
    hide Trim;
    if text != "" {
      assert Blank(text[1..]) by {
        forall i | 0 <= i < |text[1..]| ensures IsSpace(text[1..][i]) { assert text[1..][i] == text[i + 1]; }
      }
      BlankMeansNothing(text[1..]);
    }
    BlankLinesMeanNothing(Lines(text));
  }

  lemma {:induction false} BlankLinesMeanNothing(lines: seq<string>)
    requires forall i :: 0 <= i < |lines| ==> Blank(lines[i])
    ensures Meanings(lines) == []
  {
    if lines != [] {
      TrimEmpty(lines[0]);
      BlankLinesMeanNothing(lines[1..]);
    }
  }

  // ------------------------------------------------------------- what a text of frames says

  /** A line tells of an event exactly when, trimmed, it is the field name followed by the payload. */
  lemma LineTells(line: string, payload: string)
    ensures LineMeaning(line) == Data(payload) <==> Trim(line) == "data: " + payload && payload != "[DONE]"
    ensures LineMeaning(line) == End <==> Trim(line) == "data: [DONE]"
  {
    hide Trim;
    var trimmed := Trim(line);
    if "data: " <= trimmed {
      assert trimmed == "data: " + trimmed[6..];
    }
    assert ("data: " + payload)[6..] == payload && ("data: " + "[DONE]")[6..] == "[DONE]";
  }

  /** The lines of a text, put together again with line breaks in between. */
  function Glued(lines: seq<string>): string {
    if lines == [] then "" else if |lines| == 1 then lines[0] else lines[0] + "\n" + Glued(lines[1..])
  }

  /** Splitting into lines loses nothing and leaves no line break in a line. */
  lemma {:induction false} LinesGlued(text: string)
    ensures Glued(Lines(text)) == text && forall l :: l in Lines(text) ==> '\n' !in l
  {
    if text != "" {
      var c, lines := text[0], Lines(text[1..]);
      LinesGlued(text[1..]);
      assert text == [c] + text[1..];
      if c == '\n' {
        assert Prepended(c, lines)[1..] == lines;
        assert "" + "\n" + Glued(lines) == "\n" + Glued(lines);
      } else {
        var first := [c] + lines[0];
        assert Prepended(c, lines)[1..] == lines[1..];
        if |lines| > 1 {
          assert [c] + (lines[0] + "\n" + Glued(lines[1..])) == first + "\n" + Glued(lines[1..]);
        }
        assert forall l :: l in lines[1..] ==> l in lines;
      }
    }
  }

  /** What a data line can carry as it is: no line break, and no white space at its ends. */
  predicate Plain(payload: string) {
    payload != "" && '\n' !in payload && !IsSpace(payload[0]) && !IsSpace(payload[|payload| - 1])
  }

  /** Payloads as a server sends them, each on a data line of its own with a blank line after it. */
  function Framed(payloads: seq<string>): string {
    if payloads == [] then "" else "data: " + payloads[0] + "\n\n" + Framed(payloads[1..])
  }

  function Parsed<E>(payloads: seq<string>, parse: string -> Option<E>): seq<E> {
    if payloads == [] then []
    else (if parse(payloads[0]).Some? then [parse(payloads[0]).value] else []) + Parsed(payloads[1..], parse)
  }

  /** The first `n` payloads come before the end marker. */
  ghost predicate UntilDone(payloads: seq<string>, n: nat) {
    && n <= |payloads| && (forall i :: 0 <= i < n ==> payloads[i] != "[DONE]")
    && (n < |payloads| ==> payloads[n] == "[DONE]")
  }

  lemma {:induction false} OneLine(text: string)
    requires '\n' !in text
    ensures Lines(text) == [text]
  {
    if text != "" {
      OneLine(text[1..]);
      assert text == [text[0]] + text[1..];
    }
  }

  /** A data line means its payload. */
  lemma FrameMeans(payload: string)
    requires Plain(payload)
    ensures Meanings(Lines("data: " + payload)) == [if payload == "[DONE]" then End else Data(payload)]
  {
    var line := "data: " + payload;
    TrimKeeps(line);
    LineTells(line, payload);
    OneLine(line);
    hide LineMeaning, Lines;
    assert Meanings([line][1..]) == [];
  }

  /** Of a text of frames exactly the parsed payloads before the end marker are yielded. */
  lemma {:induction false} FramesRead<E>(payloads: seq<string>, n: nat, parse: string -> Option<E>)
    requires (forall p :: p in payloads ==> Plain(p)) && UntilDone(payloads, n)
    ensures EventsOf(Framed(payloads), parse) == Parsed(payloads[..n], parse)
  {
    hide Lines, LineMeaning, Plain;
    if payloads == [] {
      EmptyLineMeansNothing();
    } else {
      var rest := Meanings(Lines(Framed(payloads[1..])));
      SeparatorMeansNothing("data: " + payloads[0], Framed(payloads[1..]));
      FrameMeans(payloads[0]);
      var head := [if payloads[0] == "[DONE]" then End else Data(payloads[0])];
      hide Meanings;
      assert (head + rest)[0] == head[0] && (head + rest)[1..] == rest;
      if n > 0 {
        FramesRead(payloads[1..], n - 1, parse);
        assert payloads[..n][1..] == payloads[1..][..n - 1];
      }
    }
  }

  // ------------------------------------------------------------- the reader

  /** One pass over some lines; stops at the end marker. */
  method ReadLines<E>(lines: seq<string>, parse: string -> Option<E>) returns (events: seq<E>, ended: bool)
    ensures events == Yielded(Meanings(lines), parse) && ended == (End in Meanings(lines))
  {
    hide Trim, Meanings, Yielded;
    events := [];
    NothingYielded(parse);
    assert lines[0..] == lines;
    for i := 0 to |lines|
      invariant Yielded(Meanings(lines), parse) == events + Yielded(Meanings(lines[i..]), parse)
      invariant End in Meanings(lines) <==> End in Meanings(lines[i..])
    {
      NextLine(lines[i..], parse);
      assert lines[i..][1..] == lines[i + 1..];
      var trimmed := Trim(lines[i]);
      if trimmed == "" || trimmed[0] == ':' {
        continue;
      }
      if "data: " <= trimmed {
        var data := trimmed[6..];
        if data == "[DONE]" {
          return events, true;
        }
        var event := parse(data);
        if event.Some? {
          events := events + [event.value];
        }
      }
    }
    ended := false;
  }

  lemma NextLine<E>(lines: seq<string>, parse: string -> Option<E>)
    requires lines != []
    ensures var rest := Meanings(lines[1..]);
            match LineMeaning(lines[0])
            case Nothing => Meanings(lines) == rest
            case End => End in Meanings(lines) && Yielded(Meanings(lines), parse) == []
            case Data(payload) =>
              && (End in Meanings(lines) <==> End in rest)
              && var now := match parse(payload) case Some(event) => [event] case None => [];
                 Yielded(Meanings(lines), parse) == now + Yielded(rest, parse)
  {
    hide LineMeaning;
    var now, rest := LineMeaning(lines[0]), Meanings(lines[1..]);
    if !now.Nothing? {
      assert Meanings(lines) == [now] + rest && ([now] + rest)[1..] == rest;
    }
  }

  /** One pass over the parts that are complete. */
  method ReadParts<E>(parts: seq<string>, parse: string -> Option<E>) returns (events: seq<E>, ended: bool)
    ensures events == Yielded(Meanings(PartLines(parts)), parse) && ended == (End in Meanings(PartLines(parts)))
  {
    hide Lines, Meanings, Yielded;
    events := [];
    NothingYielded(parse);
    assert parts[0..] == parts;
    for i := 0 to |parts|
      invariant Yielded(Meanings(PartLines(parts)), parse) == events + Yielded(Meanings(PartLines(parts[i..])), parse)
      invariant End in Meanings(PartLines(parts)) <==> End in Meanings(PartLines(parts[i..]))
    {
      assert parts[i..][1..] == parts[i + 1..];
      MeaningsJoin(Lines(parts[i]), PartLines(parts[i + 1..]));
      YieldedJoin(Meanings(Lines(parts[i])), Meanings(PartLines(parts[i + 1..])), parse);
      var more, done := ReadLines(Lines(parts[i]), parse);
      events := events + more;
      if done {
        return events, true;
      }
    }
    ended := false;
  }

  lemma NothingYielded<E>(parse: string -> Option<E>)
    ensures Meanings([]) == [] && PartLines([]) == [] && Yielded([], parse) == []
  {
  }

  /** What a reader is for: of a text of frames it yields the parsed payloads before the end marker. */
  ghost predicate ReadsFrames<E>(text: string, parse: string -> Option<E>, events: seq<E>) {
    forall payloads, n ::
      text == Framed(payloads) && (forall p :: p in payloads ==> Plain(p)) && UntilDone(payloads, n) ==>
        events == Parsed(payloads[..n], parse)
  }

  lemma EventsReadFrames<E>(text: string, parse: string -> Option<E>)
    ensures ReadsFrames(text, parse, EventsOf(text, parse))
  {
    hide Framed, Plain, Parsed, EventsOf;
    forall payloads, n |
      text == Framed(payloads) && (forall p :: p in payloads ==> Plain(p)) && UntilDone(payloads, n)
      ensures EventsOf(text, parse) == Parsed(payloads[..n], parse)
    {
      FramesRead(payloads, n, parse);
    }
  }

  /** However the text was cut into chunks, the events are those of the whole text. */
  method ParseSse<E>(chunks: seq<string>, parse: string -> Option<E>) returns (events: seq<E>)
    ensures events == EventsOf(Joined(chunks), parse)
    ensures ReadsFrames(Joined(chunks), parse, events)
  {
    EventsReadFrames(Joined(chunks), parse);
    hide Lines, Meanings, Yielded, Parts, PartLines, Trim;
    var buffer := "";
    events := [];
    assert chunks[0..] == chunks && "" + Joined(chunks) == Joined(chunks);
    for i := 0 to |chunks|
      invariant EventsOf(Joined(chunks), parse) == events + EventsOf(buffer + Joined(chunks[i..]), parse)
    {
      ghost var later := Joined(chunks[i + 1..]);
      assert chunks[i..][1..] == chunks[i + 1..];
      assert buffer + (chunks[i] + later) == (buffer + chunks[i]) + later;
      buffer := buffer + chunks[i];
      var parts := Parts(buffer);
      var ready := parts[..|parts| - 1];
      CuttingKeepsMeaning(buffer, later);
      YieldedJoin(Meanings(PartLines(ready)), Meanings(Lines(parts[|parts| - 1] + later)), parse);
      var more, ended := ReadParts(ready, parse);
      events := events + more;
      if ended {
        return;
      }
      buffer := parts[|parts| - 1];
    }
    assert buffer + "" == buffer;
    if Trim(buffer) != "" {
      var more, _ := ReadLines(Lines(buffer), parse);
      events := events + more;
    } else {
      TrimEmpty(buffer);
      BlankMeansNothing(buffer);
      NothingYielded(parse);
    }
  }
}
