// Quoting of remote commands (internal/connector/dockerproxy/docker_ssh_proxy.go) against a reader
// of shell words after sections 2.2 and 2.3 of the POSIX.1 Shell Command Language.

module ShellQuote {

  datatype Option<+T> = None | Some(value: T)

  // ---- the printer -----------------------------------------------------------------------

  predicate SafeRune(c: char) {
    'a' <= c <= 'z' || 'A' <= c <= 'Z' || '0' <= c <= '9'
    || c == '_' || c == '-' || c == '.' || c == '/' || c == ':' || c == '=' || c == ','
  }

  predicate AllSafe(s: string) { forall c | c in s :: SafeRune(c) }

  /** ReplaceAll(s, "'", `'\''`). */
  function Escaped(s: string): string {
    if s == "" then "" else (if s[0] == '\'' then "'\\''" else [s[0]]) + Escaped(s[1..])
  }

  function Quote(s: string): string {
    if s == "" then "''" else if AllSafe(s) then s else "'" + Escaped(s) + "'"
  }

  /** A letter, a digit or one of seven signs. */
  predicate PlainRune(c: char) {
    'a' <= c <= 'z' || 'A' <= c <= 'Z' || '0' <= c <= '9' || c in {'_', '-', '.', '/', ':', '=', ','}
  }

  /** Exactly the non-empty arguments of such characters go without quotes. */
  lemma QuotePlainly(s: string)
    ensures Quote(s) == s <==> s != "" && forall c | c in s :: PlainRune(c)
  {
    assert AllSafe(s) <==> forall c | c in s :: PlainRune(c);
    EscapedIsLonger(s);
    hide Escaped;
    hide AllSafe;
  }

  lemma {:induction false} EscapedIsLonger(s: string)
    ensures |Escaped(s)| >= |s|
  {
    if s != "" { EscapedIsLonger(s[1..]); }
  }

  function Joined(words: seq<string>): string {
    if words == [] then "" else if |words| == 1 then words[0] else words[0] + " " + Joined(words[1..])
  }

  function Quoted(args: seq<string>): seq<string> { seq(|args|, i requires 0 <= i < |args| => Quote(args[i])) }

  method ShellJoin(args: seq<string>) returns (line: string)
    ensures line == Joined(Quoted(args))
    ensures Words(line) == Some(args)
  {
    var quoted: seq<string> := [];
    for i := 0 to |args|
      invariant quoted == Quoted(args[..i])
    {
      quoted := quoted + [Quote(args[i])];
    }
    assert args[..|args|] == args;
    line := Joined(quoted);
    RoundTrip(args);
  }

  // ---- the shell's reader ------------------------------------------------------------------

  /** Between words, in a word, or in a quoted part of one. */
  datatype Mode = Between | Word(w: string) | Single(w: string) | Double(w: string)

  /** Characters that stand for something else, or may, when they are not quoted. */
  predicate Special(c: char) {
    c in {'|', '&', ';', '<', '>', '(', ')', '$', '`', '\n', '*', '?', '[', '#', '~', '%'}
  }

  function Grown(m: Mode): string { if m.Between? then "" else m.w }

  /** The words of s with their quotes removed, or None when s is anything but plain words. */
  function Scan(s: string, m: Mode, done: seq<string>): Option<seq<string>>
    decreases |s|
  {
    if s == "" then
      match m case Between => Some(done) case Word(w) => Some(done + [w]) case _ => None
    else
      var c, rest, w := s[0], s[1..], Grown(m);
      match m
      case Single(_) => Scan(rest, if c == '\'' then Word(w) else Single(w + [c]), done)
      case Double(_) =>
        if c == '"' then Scan(rest, Word(w), done)
        else if c == '$' || c == '`' then None
        else if c == '\\' then
          if rest == "" then None
          else if rest[0] == '\n' then Scan(rest[1..], m, done)
          else if rest[0] in {'$', '`', '"', '\\'} then Scan(rest[1..], Double(w + [rest[0]]), done)
          else Scan(rest[1..], Double(w + [c, rest[0]]), done)
        else Scan(rest, Double(w + [c]), done)
      case _ =>
        if c == '\'' then Scan(rest, Single(w), done)
        else if c == '"' then Scan(rest, Double(w), done)
        else if c == '\\' then
          if rest == "" then None
          else if rest[0] == '\n' then Scan(rest[1..], m, done)
          else Scan(rest[1..], Word(w + [rest[0]]), done)
        else if c == ' ' || c == '\t' then Scan(rest, Between, if m.Word? then done + [w] else done)
        else if Special(c) then None
        else Scan(rest, Word(w + [c]), done)
  }

  function Words(line: string): Option<seq<string>> { Scan(line, Between, []) }

  // ---- reading back what was printed ----------------------------------------------------------

  lemma {:induction false} ScanSafe(a: string, rest: string, m: Mode, done: seq<string>)
    requires AllSafe(a) && !m.Single? && !m.Double? && (a != "" || m.Word?)
    ensures Scan(a + rest, m, done) == Scan(rest, Word(Grown(m) + a), done)
    decreases |a|
  {
    if a == "" {
      assert a + rest == rest && Grown(m) + a == Grown(m);
    } else {
      var w := Grown(m) + [a[0]];
      assert (a + rest)[0] == a[0] && (a + rest)[1..] == a[1..] + rest;
      assert SafeRune(a[0]);
      ScanSafe(a[1..], rest, Word(w), done);
      assert w + a[1..] == Grown(m) + a;
    }
  }

  /** Leave the quotes, an escaped quote mark, enter the quotes again. */
  lemma ScanQuoteMark(tail: string, w: string, done: seq<string>)
    ensures Scan("'\\''" + tail, Single(w), done) == Scan(tail, Single(w + ['\'']), done)
  {
    var s0, s1, s2 := "'\\''" + tail, "\\''" + tail, "'" + tail;
    assert s0[1..] == s1;
    assert Scan(s0, Single(w), done) == Scan(s1, Word(w), done);
    assert s1[1..][0] == '\'' && s1[1..][1..] == s2;
    assert Scan(s1, Word(w), done) == Scan(s2, Word(w + ['\'']), done);
    assert s2[1..] == tail;
    assert Scan(s2, Word(w + ['\'']), done) == Scan(tail, Single(w + ['\'']), done);
  }

  lemma {:induction false} ScanEscaped(a: string, rest: string, w: string, done: seq<string>)
    ensures Scan(Escaped(a) + "'" + rest, Single(w), done) == Scan(rest, Word(w + a), done)
    decreases |a|
  {
    var s := Escaped(a) + "'" + rest;
    if a == "" {
      assert s == "'" + rest && w + a == w;
      assert s[1..] == rest;
    } else {
      var tail := Escaped(a[1..]) + "'" + rest;
      ScanEscaped(a[1..], rest, w + [a[0]], done);
      assert w + [a[0]] + a[1..] == w + a;
      if a[0] == '\'' {
        assert s == "'\\''" + tail;
        ScanQuoteMark(tail, w, done);
      } else {
        assert s == [a[0]] + tail;
        assert s[1..] == tail;
      }
    }
  }

  lemma QuotedReadsBack(a: string, rest: string, done: seq<string>)
    ensures Scan("'" + Escaped(a) + "'" + rest, Between, done) == Scan(rest, Word(a), done)
  {
    ScanEscaped(a, rest, "", done);
    var inside := Escaped(a) + "'" + rest;
    hide Escaped;
    assert "'" + Escaped(a) + "'" + rest == "'" + inside;
    assert ("'" + inside)[1..] == inside;
    assert Scan("'" + inside, Between, done) == Scan(inside, Single(""), done);
    hide Scan;
    assert "" + a == a;
  }

  lemma BareReadsBack(a: string, rest: string, done: seq<string>)
    requires a != "" && AllSafe(a)
    ensures Scan(a + rest, Between, done) == Scan(rest, Word(a), done)
  {
    ScanSafe(a, rest, Between, done);
    hide Scan;
    assert "" + a == a;
  }

  lemma QuoteForms(a: string)
    ensures Quote(a) == if a != "" && AllSafe(a) then a else "'" + Escaped(a) + "'"
  {
  }

  /** A quoted argument reads as one word: itself. */
  lemma QuoteReadsBack(a: string, rest: string, done: seq<string>)
    ensures Scan(Quote(a) + rest, Between, done) == Scan(rest, Word(a), done)
  {
    QuoteForms(a);
    hide *;
    if a != "" && AllSafe(a) {
      BareReadsBack(a, rest, done);
    } else {
      QuotedReadsBack(a, rest, done);
    }
  }

  lemma {:induction false} JoinedReadsBack(args: seq<string>, done: seq<string>)
    ensures Scan(Joined(Quoted(args)), Between, done) == Some(done + args)
    decreases |args|
  {
    if args == [] {
      assert done + args == done;
    } else {
      var a, line := args[0], Joined(Quoted(args));
      assert Quoted(args)[1..] == Quoted(args[1..]);
      if |args| == 1 {
        QuoteReadsBack(a, "", done);
        assert Quote(a) + "" == line && done + [a] == done + args;
      } else {
        var more := Joined(Quoted(args[1..]));
        QuoteReadsBack(a, " " + more, done);
        assert line == Quote(a) + (" " + more);
        assert (" " + more)[1..] == more;
        JoinedReadsBack(args[1..], done + [a]);
        assert done + [a] + args[1..] == done + args;
      }
    }
  }

  /** The shell reads back exactly the arguments, whatever characters are in them. */
  lemma RoundTrip(args: seq<string>)
    ensures Words(Joined(Quoted(args))) == Some(args)
  {
    JoinedReadsBack(args, []);
    assert [] + args == args;
  }

  /** Different argument lists never print alike. */
  lemma JoinIsInjective(a: seq<string>, b: seq<string>)
    ensures Joined(Quoted(a)) == Joined(Quoted(b)) ==> a == b
  {
    RoundTrip(a);
    RoundTrip(b);
  }
}
