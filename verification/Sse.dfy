// Live progress on the wire: the server's frames against the client's incremental parser
// (internal/api/handlers_stream.go, web/src/api/client.ts).  Text is decoded characters.

module Sse {

  datatype Option<+T> = None | Some(value: T)

  // ---- what the server writes ----------------------------------------------------------

  datatype Frame<E> = Data(ev: E) | KeepAlive

  function Print<E>(f: Frame<E>, encode: E -> string): string {
    match f
    case Data(ev) => "data: " + encode(ev) + "\n\n"
    case KeepAlive => ": keep-alive\n\n"
  }

  function Text<E>(fs: seq<Frame<E>>, encode: E -> string): string {
    if fs == [] then "" else Print(fs[0], encode) + Text(fs[1..], encode)
  }

  function Events<E>(fs: seq<Frame<E>>): seq<E> {
    if fs == [] then [] else (if fs[0].Data? then [fs[0].ev] else []) + Events(fs[1..])
  }

  // ---- what the client makes of text -----------------------------------------------------

  predicate SepAt(s: string, i: nat) { i + 1 < |s| && s[i] == '\n' && s[i + 1] == '\n' }

  /** indexOf("\n\n"). */
  function FirstSep(s: string): (r: Option<nat>)
    ensures r.Some? ==> SepAt(s, r.value) && forall j: nat | j < r.value :: !SepAt(s, j)
    ensures r.None? ==> forall j: nat :: !SepAt(s, j)
  {
    if |s| < 2 then None
    else if SepAt(s, 0) then Some(0)
    else
      var rest := FirstSep(s[1..]);
      assert forall j: nat | j > 0 :: SepAt(s, j) <==> SepAt(s[1..], j - 1);
      if rest.Some? then Some(rest.value + 1) else None
  }

  function LineEnd(s: string): (n: nat)
    ensures n <= |s| && '\n' !in s[..n] && (n < |s| ==> s[n] == '\n')
  {
    if s == "" || s[0] == '\n' then 0 else 1 + LineEnd(s[1..])
  }

  /** split("\n"). */
  function Split(s: string): (lines: seq<string>)
    ensures lines != [] && forall l | l in lines :: '\n' !in l
    decreases |s|
  {
    var n := LineEnd(s);
    if n == |s| then [s] else [s[..n]] + Split(s[n + 1..])
  }

  function Join(lines: seq<string>): string
    requires lines != []
  {
    if |lines| == 1 then lines[0] else lines[0] + "\n" + Join(lines[1..])
  }

  lemma {:induction false} SplitJoins(s: string)
    ensures Join(Split(s)) == s
    decreases |s|
  {
    var n := LineEnd(s);
    if n < |s| {
      var tail := s[n + 1..];
      assert Split(s) == [s[..n]] + Split(tail);
      SplitJoins(tail);
      hide *;
    }
  }

  predicate IsSpace(c: char) {
    c in {'\t', '\n', '\U{b}', '\U{c}', '\r', ' ', '\U{a0}', '\U{1680}', '\U{2028}', '\U{2029}', '\U{202f}',
          '\U{205f}', '\U{3000}', '\U{feff}'}
    || '\U{2000}' <= c <= '\U{200a}'
  }

  function TrimLeft(s: string): string { if s != "" && IsSpace(s[0]) then TrimLeft(s[1..]) else s }

  function TrimRight(s: string): string {
    if s != "" && IsSpace(s[|s| - 1]) then TrimRight(s[..|s| - 1]) else s
  }

  function Trim(s: string): string { TrimRight(TrimLeft(s)) }

  const PREFIX: string := "data:"

  predicate StartsWith(s: string, prefix: string) { |prefix| <= |s| && s[..|prefix|] == prefix }

  function OfLine<E>(line: string, parse: string -> Option<E>): seq<E> {
    if !StartsWith(line, PREFIX) then []
    else
      var json := Trim(line[|PREFIX|..]);
      if json == "" then [] else match parse(json) case None => [] case Some(ev) => [ev]
  }

  function OfLines<E>(lines: seq<string>, parse: string -> Option<E>): seq<E> {
    if lines == [] then [] else OfLines(lines[..|lines| - 1], parse) + OfLine(lines[|lines| - 1], parse)
  }

  /** The events of the complete frames of s, and the text after them. */
  function Parse<E>(s: string, parse: string -> Option<E>): (seq<E>, string)
    decreases |s|
  {
    match FirstSep(s)
    case None => ([], s)
    case Some(i) =>
      var rest := Parse(s[i + 2..], parse);
      (OfLines(Split(s[..i]), parse) + rest.0, rest.1)
  }

  // ---- cutting the text anywhere -----------------------------------------------------------

  lemma ParseStep<E>(s: string, parse: string -> Option<E>)
    ensures FirstSep(s).Some? ==> FirstSep(s).value + 2 <= |s|
    ensures FirstSep(s).None? ==> Parse(s, parse) == ([], s)
    ensures FirstSep(s).Some? ==>
              var i := FirstSep(s).value;
              var rest := Parse(s[i + 2..], parse);
              Parse(s, parse) == (OfLines(Split(s[..i]), parse) + rest.0, rest.1)
  {
  }

  /** Parsing may stop after any prefix and go on with what was left over. */
  lemma {:induction false} ParseResumes<E>(a: string, b: string, parse: string -> Option<E>)
    ensures var p := Parse(a, parse);
            var q := Parse(p.1 + b, parse);
            Parse(a + b, parse) == (p.0 + q.0, q.1)
    decreases |a|
  {
    var sep := FirstSep(a);
    hide *;
    ParseStep(a, parse);
    if sep.None? {
      assert [] + Parse(a + b, parse).0 == Parse(a + b, parse).0;
    } else {
      var i := sep.value;
      FirstSepStays(a, b, i);
      ParseStep(a + b, parse);
      SliceOfSum(a, b, i);
      ParseResumes(a[i + 2..], b, parse);
      var p, lines := Parse(a[i + 2..], parse), OfLines(Split(a[..i]), parse);
      Associates(lines, p.0, Parse(p.1 + b, parse).0);
    }
  }

  lemma Associates<T>(a: seq<T>, b: seq<T>, c: seq<T>)
    ensures a + (b + c) == a + b + c
  {
  }

  lemma SliceOfSum(a: string, b: string, i: nat)
    requires i + 2 <= |a|
    ensures (a + b)[..i] == a[..i] && (a + b)[i + 2..] == a[i + 2..] + b
  {
  }

  lemma FirstSepStays(a: string, b: string, i: nat)
    requires FirstSep(a) == Some(i)
    ensures FirstSep(a + b) == Some(i)
  {
    assert forall j: nat | j <= i :: SepAt(a + b, j) <==> SepAt(a, j);
  }

  /** What goes over the wire, and what one line of it is taken for. */
  lemma WirePlainly<E>(ev: E, encode: E -> string, parse: string -> Option<E>, json: string, line: string)
    ensures Print(Data(ev), encode) == "data: " + encode(ev) + "\n\n" && Print<E>(KeepAlive, encode) == ": keep-alive\n\n"
    ensures OfLine("data:" + json, parse) ==
            if Trim(json) == "" || parse(Trim(json)).None? then [] else [parse(Trim(json)).value]
    ensures !("data:" <= line) ==> OfLine(line, parse) == []
  {
    assert ("data:" + json)[..5] == PREFIX && ("data:" + json)[5..] == json;
  }

  function Flat(chunks: seq<string>): string {
    if chunks == [] then "" else Flat(chunks[..|chunks| - 1]) + chunks[|chunks| - 1]
  }

  /** streamRun's buffer and what it has passed to onEvent. */
  class Client<E> {
    const parse: string -> Option<E>
    var buf: string
    var seen: seq<E>

    constructor (parse: string -> Option<E>)
      ensures this.parse == parse && buf == "" && seen == []
    {
      this.parse, buf, seen := parse, "", [];
    }

    /** One read: whatever frames it completes are delivered, the rest is kept. */
    method Feed(chunk: string)
      modifies this
      ensures var p := Parse(old(buf) + chunk, parse);
              seen == old(seen) + p.0 && buf == p.1
    {
      hide Parse;
      hide Split;
      hide OfLines;
      buf := buf + chunk;
      ghost var all := buf;
      var sep := FirstSep(buf);
      hide FirstSep;
      while sep.Some?
        invariant sep == FirstSep(buf)
        invariant seen + Parse(buf, parse).0 == old(seen) + Parse(all, parse).0
        invariant Parse(buf, parse).1 == Parse(all, parse).1
        decreases |buf|
      {
        ParseStep(buf, parse);
        ghost var was, tail := seen, Parse(buf[sep.value + 2..], parse).0;
        var frame := buf[..sep.value];
        buf := buf[sep.value + 2..];
        Deliver(Split(frame));
        assert seen + tail == was + (OfLines(Split(frame), parse) + tail);
        sep := FirstSep(buf);
      }
      ParseStep(buf, parse);
      assert seen + [] == seen;
    }

    method Deliver(lines: seq<string>)
      modifies this`seen
      ensures seen == old(seen) + OfLines(lines, parse)
    {
      for n := 0 to |lines|
        modifies this`seen
        invariant seen == old(seen) + OfLines(lines[..n], parse)
      {
        assert lines[..n + 1][..n] == lines[..n];
        if StartsWith(lines[n], PREFIX) {
          var json := Trim(lines[n][|PREFIX|..]);
          if json != "" {
            var ev := parse(json);
            if ev.Some? { seen := seen + [ev.value]; }
          }
        }
      }
      assert lines[..|lines|] == lines;
    }

    /** Reading a stream to its end, however it was cut. */
    method Stream(chunks: seq<string>)
      requires buf == "" && seen == []
      modifies this
      ensures (seen, buf) == Parse(Flat(chunks), parse)
    {
      for n := 0 to |chunks|
        invariant (seen, buf) == Parse(Flat(chunks[..n]), parse)
      {
        assert chunks[..n + 1][..n] == chunks[..n];
        ParseResumes(Flat(chunks[..n]), chunks[n], parse);
        Feed(chunks[n]);
      }
      assert chunks[..|chunks|] == chunks;
    }
  }

  // ---- the round trip -------------------------------------------------------------------------

  /** What encoding/json guarantees of an event: one line, no outer space, read back as it was. */
  ghost predicate Faithful<E(!new)>(encode: E -> string, parse: string -> Option<E>) {
    forall ev :: var j := encode(ev); j != "" && '\n' !in j && Trim(j) == j && parse(j) == Some(ev)
  }

  lemma SepAfter(line: string, rest: string)
    requires '\n' !in line
    ensures FirstSep(line + "\n\n" + rest) == Some(|line|)
  {
    var s := line + "\n\n" + rest;
    assert SepAt(s, |line|);
    forall j: nat | j < |line| ensures !SepAt(s, j) {
      assert s[j] == line[j] && line[j] in line;
    }
    var r := FirstSep(s);
    hide FirstSep;
  }

  lemma OneLine(line: string)
    requires '\n' !in line
    ensures Split(line) == [line]
  {
  }

  lemma PrintedFrame<E(!new)>(f: Frame<E>, rest: string, encode: E -> string, parse: string -> Option<E>)
    requires Faithful(encode, parse)
    ensures var p := Parse(rest, parse);
            Parse(Print(f, encode) + rest, parse) == ((if f.Data? then [f.ev] else []) + p.0, p.1)
  {
    var line := match f case Data(ev) => "data: " + encode(ev) case KeepAlive => ": keep-alive";
    assert Print(f, encode) == line + "\n\n";
    SepAfter(line, rest);
    OneLine(line);
    var s := line + "\n\n" + rest;
    assert s[..|line|] == line && s[|line| + 2..] == rest;
    assert OfLines([line], parse) == OfLine(line, parse);
    if f.Data? {
      var j := encode(f.ev);
      assert line[..5] == PREFIX;
      assert line[5..] == " " + j && (" " + j)[1..] == j;
      assert j != "" && Trim(j) == j;
      assert TrimLeft(" " + j) == TrimLeft(j);
      assert OfLine(line, parse) == [f.ev];
    } else {
      assert !StartsWith(line, PREFIX) by { assert line[0] != PREFIX[0]; }
    }
  }

  /** Any frames the server writes, heartbeats among them, read as exactly their events. */
  lemma {:induction false} ParseOfText<E(!new)>(fs: seq<Frame<E>>, encode: E -> string, parse: string -> Option<E>)
    requires Faithful(encode, parse)
    ensures Parse(Text(fs, encode), parse) == (Events(fs), "")
  {
    if fs != [] {
      ParseOfText(fs[1..], encode, parse);
      PrintedFrame(fs[0], Text(fs[1..], encode), encode, parse);
    }
  }

  /** However the text is cut into chunks, a client delivers exactly the events, in order, once each. */
  method RoundTrip<E(!new)>(fs: seq<Frame<E>>, chunks: seq<string>, encode: E -> string, parse: string -> Option<E>)
    returns (delivered: seq<E>)
    requires Faithful(encode, parse) && Flat(chunks) == Text(fs, encode)
    ensures delivered == Events(fs)
  {
    var c := new Client(parse);
    c.Stream(chunks);
    ParseOfText(fs, encode, parse);
    delivered := c.seen;
  }

  /** A stream that breaks off anywhere has delivered a prefix of the events. */
  lemma CutShort<E(!new)>(fs: seq<Frame<E>>, got: string, encode: E -> string, parse: string -> Option<E>)
    requires Faithful(encode, parse) && got <= Text(fs, encode)
    ensures Parse(got, parse).0 <= Events(fs)
  {
    var rest := Text(fs, encode)[|got|..];
    assert got + rest == Text(fs, encode);
    ParseResumes(got, rest, parse);
    ParseOfText(fs, encode, parse);
  }

  // ---- replaying a finished run -------------------------------------------------------------------

  datatype Body = Log(message: string) | Bytes(size: int) | Status(status: string)

  datatype Event = Event(seq_: nat, body: Body)

  function NonEmpty(lines: seq<string>): seq<Body> {
    if lines == [] then []
    else
      NonEmpty(lines[..|lines| - 1]) + if lines[|lines| - 1] == "" then [] else [Log(lines[|lines| - 1])]
  }

  /** Exactly the non-empty lines, in their order. */
  lemma NonEmptyPlainly(before: seq<string>, line: string)
    ensures NonEmpty([]) == []
    ensures NonEmpty(before + [line]) == NonEmpty(before) + if line == "" then [] else [Log(line)]
  {
    assert (before + [line])[..|before|] == before;
  }

  function Bodies(evs: seq<Event>): seq<Body> { seq(|evs|, i requires 0 <= i < |evs| => evs[i].body) }

  predicate Numbered(evs: seq<Event>) { forall i | 0 <= i < |evs| :: evs[i].seq_ == i + 1 }

  /** The stored log's non-empty lines, the artifact's size if there is one, the status; numbered from 1. */
  method Replay(log: string, size: int, status: string) returns (evs: seq<Event>)
    ensures forall i | 0 <= i < |evs| :: evs[i].seq_ == i + 1
    ensures Bodies(evs) == NonEmpty(Split(log)) + (if size > 0 then [Bytes(size)] else []) + [Status(status)]
  {
    evs := [];
    var count := 0;
    if log != "" {
      var lines := Split(log);
      for n := 0 to |lines|
        invariant count == |evs| && Numbered(evs) && Bodies(evs) == NonEmpty(lines[..n])
      {
        assert lines[..n + 1][..n] == lines[..n];
        if lines[n] != "" {
          count := count + 1;
          evs := evs + [Event(count, Log(lines[n]))];
        }
      }
      assert lines[..|lines|] == lines;
    }
    if size > 0 {
      count := count + 1;
      evs := evs + [Event(count, Bytes(size))];
    }
    count := count + 1;
    evs := evs + [Event(count, Status(status))];
  }
}
