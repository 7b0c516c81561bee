/** The Simple Pipe Protocol: the reading side of server/drv_spp.cpp, and the
    encoding that Readme.md asks of a program behind a pipe.

    A pipe is the list of lines the program has written; an answer is some
    lines of text and a terminator line, and a line of text that starts with
    the special character has this character doubled. */
module Spp {
  import opened Results

  // What a call gives its caller: the text of an answer or of an error.
  datatype Outcome = Answer(text: string) | Failure(text: string)

  datatype Decoded = Decoded(outcome: Outcome, rest: seq<string>)

  function EndOfFile(prog: string): Outcome { Failure("SPP: unexpected EOF: " + prog) }

  function NotProtected(ch: char, prog: string): Outcome {
    Failure("SPP: symbol " + [ch] + " in the beginning of a line is not protected: " + prog)
  }

  predicate StartsWith(l: string, ch: char) { l != "" && l[0] == ch }

  // A line joined to the text so far; nothing separates it from an empty text.
  function Joined(ret: string, l: string): string {
    if ret != "" then ret + "\n" + l else l
  }

  // The reading loop, from the text ret on.
  function DecodeFrom(ret: string, lines: seq<string>, ch: char, prog: string): Decoded
    decreases lines
  {
    if lines == [] then Decoded(EndOfFile(prog), [])
    else
      var l, rest := lines[0], lines[1..];
      if !StartsWith(l, ch) then DecodeFrom(Joined(ret, l), rest, ch, prog)
      else if "Error: " <= l[1..] || "Fatal: " <= l[1..] then Decoded(Failure(l[8..]), rest)
      else if l[1..] == "OK" then Decoded(Answer(ret), rest)
      else if StartsWith(l[1..], ch) then DecodeFrom(Joined(ret, l[1..]), rest, ch, prog)
      else Decoded(NotProtected(ch, prog), rest)
  }

  function Decode(lines: seq<string>, ch: char, prog: string): Decoded {
    DecodeFrom("", lines, ch, prog)
  }

  // ---------------------------------------------------------------------
  // Text and its lines.

  function Join(lines: seq<string>): string {
    if lines == [] then "" else if |lines| == 1 then lines[0] else lines[0] + "\n" + Join(lines[1..])
  }

  function SplitLines(text: string): (lines: seq<string>)
    ensures lines != []
  {
    if text == "" then [""]
    else
      var rest := SplitLines(text[1..]);
      if text[0] == '\n' then [""] + rest else [[text[0]] + rest[0]] + rest[1..]
  }

  lemma {:induction false} SplitJoin(text: string)
    ensures Join(SplitLines(text)) == text
  {
    if text != "" {
      var rest := SplitLines(text[1..]);
      SplitJoin(text[1..]);
      if text[0] == '\n' {
        assert ([""] + rest)[1..] == rest;
        assert Join([""] + rest) == "" + "\n" + Join(rest);
      } else {
        var lines := [[text[0]] + rest[0]] + rest[1..];
        assert lines[1..] == rest[1..];
        if |rest| > 1 {
          assert [text[0]] + rest[0] + "\n" + Join(rest[1..]) == [text[0]] + (rest[0] + "\n" + Join(rest[1..]));
        }
      }
    }
  }

  lemma {:induction false} SplitPlain(text: string)
    requires '\n' !in text
    ensures SplitLines(text) == [text]
  {
    if text != "" {
      SplitPlain(text[1..]);
      assert text == [text[0]] + text[1..];
    }
  }

  lemma {:induction false} SplitFirst(text: string)
    ensures '\n' !in SplitLines(text)[0]
    ensures SplitLines(text) == [text] <==> '\n' !in text
    ensures SplitLines(text)[0] == text ==> '\n' !in text
    ensures SplitLines(text)[0] == "" <==> text == "" || text[0] == '\n'
  {
    if text != "" {
      SplitFirst(text[1..]);
      var rest := SplitLines(text[1..]);
      assert text == [text[0]] + text[1..];
      if text[0] != '\n' {
        assert SplitLines(text)[0][1..] == rest[0] && SplitLines(text)[1..] == rest[1..];
        if SplitLines(text) == [text] || SplitLines(text)[0] == text {
          assert rest[0] == text[1..];
        }
        if SplitLines(text) == [text] {
          assert rest == [rest[0]];
        }
      }
    }
  }

  lemma SplitOne(text: string)
    ensures |SplitLines(text)| == 1 <==> '\n' !in text
  {
    SplitFirst(text);
    SplitJoin(text);
  }

  // ---------------------------------------------------------------------
  // The driver.

  // A program behind a pipe: what it was asked and what it has written.
  class Pipe {
    var requests: seq<string>
    var lines: seq<string>

    constructor (lines: seq<string>)
      ensures this.lines == lines && requests == []
    {
      this.lines, requests := lines, [];
    }

    // None is the end of the file.
    method GetLine() returns (l: Option<string>)
      modifies `lines
      ensures old(lines) == [] ==> l == None && lines == []
      ensures old(lines) != [] ==> l == Some(old(lines)[0]) && lines == old(lines)[1..]
    {
      if lines == [] {
        l := None;
      } else {
        l, lines := Some(lines[0]), lines[1..];
      }
    }

    // A message and a newline: as many request lines as the message has.
    // What the program writes in response is a parameter.
    method Put(msg: string, produced: seq<string>)
      modifies this
      ensures requests == old(requests) + SplitLines(msg) && lines == old(lines) + produced
    {
      requests, lines := requests + SplitLines(msg), lines + produced;
    }
  }

  // The header line is a special character, SPP, and a version of 1 or 2.
  predicate Header(l: string, version: string -> Option<int>) {
    |l| >= 5 && l[1..4] == "SPP" && version(l[4..]) in {Some(1), Some(2)}
  }

  class DriverSpp {
    const flt: Pipe
    const prog: string
    const ch: char

    constructor (flt: Pipe, prog: string, ch: char)
      ensures this.flt == flt && this.prog == prog && this.ch == ch
    {
      this.flt, this.prog, this.ch := flt, prog, ch;
    }

    // Opening a pipe: the header line and then one answer, whose text is
    // ignored.  How a version is read from text is a parameter.
    static method Open(flt: Pipe, prog: string, version: string -> Option<int>) returns (d: Result<DriverSpp, string>)
      modifies flt
      ensures flt.requests == old(flt.requests)
      ensures d.Ok? <==> && old(flt.lines) != [] && Header(old(flt.lines)[0], version)
                         && Decode(old(flt.lines)[1..], old(flt.lines)[0][0], prog).outcome.Answer?
      ensures d.Ok? ==> && fresh(d.value) && d.value.flt == flt && d.value.prog == prog
                        && d.value.ch == old(flt.lines)[0][0]
                        && flt.lines == Decode(old(flt.lines)[1..], d.value.ch, prog).rest
      ensures old(flt.lines) != [] && Header(old(flt.lines)[0], version) && d.Err? ==>
                Failure(d.error) == Decode(old(flt.lines)[1..], old(flt.lines)[0][0], prog).outcome
    {
      hide DecodeFrom;
      var first := flt.GetLine();
      var l := if first.Some? then first.value else "";
      if |l| < 5 || l[1] != 'S' || l[2] != 'P' || l[3] != 'P' {
        return Err("spp: " + prog + ": not an SPP program, header expected");
      }
      assert l[1..4] == "SPP";
      var ver := version(l[4..]);
      if ver == None {
        return Err("can't parse value: " + l[4..]);
      }
      if ver != Some(1) && ver != Some(2) {
        return Err("spp: " + prog + ": unsupported SPP version");
      }
      var driver := new DriverSpp(flt, prog, l[0]);
      var greeting := driver.ReadSpp();
      match greeting
      case Failure(text) => d := Err(text);
      case Answer(_) => d := Ok(driver);
    }

    // One answer, up to and including its terminator line.
    method ReadSpp() returns (r: Outcome)
      modifies flt`lines
      ensures Decoded(r, flt.lines) == Decode(old(flt.lines), ch, prog)
    {
      var ret := "";
      while true
        invariant DecodeFrom(ret, flt.lines, ch, prog) == Decode(old(flt.lines), ch, prog)
        decreases |flt.lines|
      {
        var line := flt.GetLine();
        if line.None? { return EndOfFile(prog); }
        var l := line.value;
        ghost var before := ret;
        if |l| > 0 && l[0] == ch {
          if "Error: " <= l[1..] { return Failure(l[8..]); }
          if "Fatal: " <= l[1..] { return Failure(l[8..]); }
          if l[1..] == "OK" { return Answer(ret); }
          if |ret| > 0 { ret := ret + "\n"; }
          if |l| > 1 && l[1] == ch {
            ret := ret + l[1..];
            assert ret == Joined(before, l[1..]);
          } else {
            return NotProtected(ch, prog);
          }
        } else {
          if |ret| > 0 { ret := ret + "\n"; }
          ret := ret + l;
          assert ret == Joined(before, l);
        }
      }
    }

    method Write(msg: string, produced: seq<string>)
      modifies flt
      ensures flt.requests == old(flt.requests) + SplitLines(msg) && flt.lines == old(flt.lines) + produced
    {
      flt.Put(msg, produced);
    }

    // A message, and one reply.
    method Ask(msg: string, produced: seq<string>) returns (r: Outcome)
      modifies flt
      ensures flt.requests == old(flt.requests) + SplitLines(msg)
      ensures Decoded(r, flt.lines) == Decode(old(flt.lines) + produced, ch, prog)
    {
      Write(msg, produced);
      r := ReadSpp();
    }
  }

  // ---------------------------------------------------------------------
  // The writing side, as the protocol asks for it.

  function Protected(ch: char, l: string): string {
    if StartsWith(l, ch) then [ch] + l else l
  }

  function Encode(ch: char, lines: seq<string>): (e: seq<string>)
    ensures |e| == |lines|
    ensures forall i :: 0 <= i < |lines| ==> e[i] == Protected(ch, lines[i])
  {
    seq(|lines|, i requires 0 <= i < |lines| => Protected(ch, lines[i]))
  }

  function OkLine(ch: char): string { [ch] + "OK" }

  function ErrorLine(ch: char, fatal: bool, text: string): string {
    [ch] + (if fatal then "Fatal: " else "Error: ") + text
  }

  // A reply of a program: some lines of text and how it ends.
  datatype Reply = Good(lines: seq<string>) | Bad(lines: seq<string>, fatal: bool, text: string) {
    function End(ch: char): string {
      match this
      case Good(_) => OkLine(ch)
      case Bad(_, fatal, text) => ErrorLine(ch, fatal, text)
    }

    function Emit(ch: char): seq<string> { Encode(ch, lines) + [End(ch)] }

    // The text with its lines joined, or the text of the error.
    function Meaning(): Outcome {
      match this
      case Good(lines) => Answer(Join(DropEmpty(lines)))
      case Bad(_, _, text) => Failure(text)
    }
  }

  // Leading empty lines do not survive the reading loop.
  function DropEmpty(lines: seq<string>): seq<string> {
    if lines != [] && lines[0] == "" then DropEmpty(lines[1..]) else lines
  }

  // The text the loop accumulates from lines that are not terminators.
  function Gather(ret: string, lines: seq<string>): string
    decreases lines
  {
    if lines == [] then ret else Gather(Joined(ret, lines[0]), lines[1..])
  }

  lemma {:induction false} GatherNonempty(ret: string, lines: seq<string>)
    requires ret != ""
    ensures Gather(ret, lines) == if lines == [] then ret else ret + "\n" + Join(lines)
    decreases lines
  {
    if lines != [] {
      GatherNonempty(Joined(ret, lines[0]), lines[1..]);
      if |lines| > 1 {
        assert ret + "\n" + lines[0] + "\n" + Join(lines[1..]) == ret + "\n" + (lines[0] + "\n" + Join(lines[1..]));
      }
    }
  }

  lemma {:induction false} GatherIsJoin(lines: seq<string>)
    ensures Gather("", lines) == Join(DropEmpty(lines))
  {
    if lines != [] {
      if lines[0] == "" {
        GatherIsJoin(lines[1..]);
      } else {
        GatherNonempty(lines[0], lines[1..]);
      }
    }
  }

  lemma {:induction false} DropShrinks(lines: seq<string>)
    ensures |Join(DropEmpty(lines))| <= |Join(lines)|
    ensures |lines| > 1 && lines[0] == "" ==> |Join(DropEmpty(lines))| < |Join(lines)|
  {
    if lines != [] && lines[0] == "" {
      DropShrinks(lines[1..]);
    }
  }

  // A line of text whose doubled form would read as a terminator.
  predicate Clashes(ch: char, l: string) {
    StartsWith(l, ch) && (l == "OK" || "Error: " <= l || "Fatal: " <= l)
  }

  lemma ClashNeedsLetter(ch: char, l: string)
    requires Clashes(ch, l)
    ensures ch in {'O', 'E', 'F'}
  {}

  // The loop goes through protected lines and gathers their text.
  lemma {:induction false} DecodeThrough(ret: string, lines: seq<string>, tail: seq<string>, ch: char, prog: string)
    requires forall i :: 0 <= i < |lines| ==> !Clashes(ch, lines[i])
    ensures DecodeFrom(ret, Encode(ch, lines) + tail, ch, prog) == DecodeFrom(Gather(ret, lines), tail, ch, prog)
    decreases lines
  {
    var all := Encode(ch, lines) + tail;
    if lines == [] {
      assert all == tail;
    } else {
      var l := lines[0];
      assert all[0] == Protected(ch, l);
      assert all[1..] == Encode(ch, lines[1..]) + tail;
      assert ([ch] + l)[1..] == l;
      DecodeThrough(Joined(ret, l), lines[1..], tail, ch, prog);
    }
  }

  lemma DecodeEnd(ret: string, r: Reply, rest: seq<string>, ch: char, prog: string)
    ensures DecodeFrom(ret, [r.End(ch)] + rest, ch, prog) ==
            Decoded(if r.Good? then Answer(ret) else Failure(r.text), rest)
  {}

  // Self-delimitation: whatever follows a reply, one call reads exactly it.
  lemma DecodeReply(r: Reply, rest: seq<string>, ch: char, prog: string)
    requires forall i :: 0 <= i < |r.lines| ==> !Clashes(ch, r.lines[i])
    ensures Decode(r.Emit(ch) + rest, ch, prog) == Decoded(r.Meaning(), rest)
  {
    assert r.Emit(ch) + rest == Encode(ch, r.lines) + ([r.End(ch)] + rest);
    DecodeThrough("", r.lines, [r.End(ch)] + rest, ch, prog);
    DecodeEnd(Gather("", r.lines), r, rest, ch, prog);
    GatherIsJoin(r.lines);
  }

  // ---------------------------------------------------------------------
  // What a reading is, for arbitrary lines.

  // The three terminators, and the lines at which a reading ends: these, and
  // a line whose special character is not doubled.
  predicate IsTerminator(l: string, ch: char) {
    [ch] + "Error: " <= l || [ch] + "Fatal: " <= l || l == [ch] + "OK"
  }

  predicate EndsReading(l: string, ch: char) {
    l != "" && l[0] == ch && (IsTerminator(l, ch) || |l| == 1 || l[1] != ch)
  }

  // A line of text with the doubling undone.
  function Plain(l: string, ch: char): string { if l != "" && l[0] == ch then l[1..] else l }

  function Plains(lines: seq<string>, ch: char): (r: seq<string>)
    ensures |r| == |lines|
    ensures forall i :: 0 <= i < |lines| ==> r[i] == Plain(lines[i], ch)
  {
    seq(|lines|, i requires 0 <= i < |lines| => Plain(lines[i], ch))
  }

  lemma EndingLine(ret: string, l: string, rest: seq<string>, ch: char, prog: string)
    requires EndsReading(l, ch)
    ensures var d := DecodeFrom(ret, [l] + rest, ch, prog);
            && d.rest == rest
            && (l == [ch] + "OK" ==> d.outcome == Answer(ret))
            && ([ch] + "Error: " <= l || [ch] + "Fatal: " <= l ==> d.outcome == Failure(l[8..]))
            && (!IsTerminator(l, ch) ==>
                  d.outcome ==
                  Failure("SPP: symbol " + [ch] + " in the beginning of a line is not protected: " + prog))
  {
    assert ([l] + rest)[1..] == rest;
    assert l == [ch] + l[1..];
    TerminatorTail(l, ch);
  }

  lemma TerminatorTail(l: string, ch: char)
    requires l != "" && l[0] == ch
    ensures [ch] + "Error: " <= l <==> "Error: " <= l[1..]
    ensures [ch] + "Fatal: " <= l <==> "Fatal: " <= l[1..]
    ensures l == [ch] + "OK" <==> l[1..] == "OK"
    ensures l == [ch] + "OK" ==> !("Error: " <= l[1..]) && !("Fatal: " <= l[1..])
  {
    PrefixTail(l, ch, "Error: ");
    PrefixTail(l, ch, "Fatal: ");
    assert l == [ch] + l[1..];
    if l == [ch] + "OK" {
      assert l[1..] == "OK";
    }
  }

  lemma PrefixTail(l: string, ch: char, t: string)
    requires l != "" && l[0] == ch
    ensures [ch] + t <= l <==> t <= l[1..]
  {
    assert l == [ch] + l[1..];
    if [ch] + t <= l {
      assert l[1..][..|t|] == l[..|t| + 1][1..] == ([ch] + t)[1..] == t;
    }
    if t <= l[1..] {
      assert l[..|t| + 1] == [ch] + l[1..][..|t|];
    }
  }

  lemma GoingLine(ret: string, l: string, rest: seq<string>, ch: char, prog: string)
    requires !EndsReading(l, ch)
    ensures DecodeFrom(ret, [l] + rest, ch, prog) == DecodeFrom(Joined(ret, Plain(l, ch)), rest, ch, prog)
  {
    assert ([l] + rest)[1..] == rest;
    if l != "" && l[0] == ch {
      TerminatorTail(l, ch);
    }
  }

  lemma {:induction false} GoingLines(ret: string, lines: seq<string>, rest: seq<string>, ch: char, prog: string)
    requires forall i :: 0 <= i < |lines| ==> !EndsReading(lines[i], ch)
    ensures DecodeFrom(ret, lines + rest, ch, prog) == DecodeFrom(Gather(ret, Plains(lines, ch)), rest, ch, prog)
    decreases lines
  {
    hide EndsReading, Plain;
    if lines == [] {
      assert lines + rest == rest;
    } else {
      assert lines + rest == [lines[0]] + (lines[1..] + rest);
      assert Plains(lines, ch)[1..] == Plains(lines[1..], ch);
      GoingLine(ret, lines[0], lines[1..] + rest, ch, prog);
      GoingLines(Joined(ret, Plain(lines[0], ch)), lines[1..], rest, ch, prog);
      hide DecodeFrom;
    }
  }

  // A reading takes the lines up to the first that ends it.  If this is the
  // OK line it is an answer, of the lines before; if it is an error line, the
  // error; if it is an unprotected line, the error that says so.  Without
  // such a line it is the error of a closed pipe.
  lemma ReadingIs(lines: seq<string>, k: nat, ch: char, prog: string)
    requires k <= |lines| && forall i :: 0 <= i < k ==> !EndsReading(lines[i], ch)
    ensures k == |lines| ==>
              Decode(lines, ch, prog) == Decoded(Failure("SPP: unexpected EOF: " + prog), [])
    ensures k < |lines| && EndsReading(lines[k], ch) ==>
              var d := Decode(lines, ch, prog);
              && d.rest == lines[k + 1..]
              && (d.outcome.Answer? <==> lines[k] == [ch] + "OK")
              && (lines[k] == [ch] + "OK" ==> d.outcome == Answer(Join(DropEmpty(Plains(lines[..k], ch)))))
              && ([ch] + "Error: " <= lines[k] || [ch] + "Fatal: " <= lines[k] ==> d.outcome == Failure(lines[k][8..]))
              && (!IsTerminator(lines[k], ch) ==>
                    d.outcome ==
                    Failure("SPP: symbol " + [ch] + " in the beginning of a line is not protected: " + prog))
  {
    assert lines == lines[..k] + lines[k..];
    GoingLines("", lines[..k], lines[k..], ch, prog);
    GatherIsJoin(Plains(lines[..k], ch));
    if k < |lines| && EndsReading(lines[k], ch) {
      assert lines[k..] == [lines[k]] + lines[k + 1..];
      EndingLine(Gather("", Plains(lines[..k], ch)), lines[k], lines[k + 1..], ch, prog);
      hide DecodeFrom;
    }
  }

  // A header is a character, SPP, and a text that reads as 1 or 2.
  lemma HeaderIff(l: string, version: string -> Option<int>)
    ensures Header(l, version) <==>
            exists ch: char, text: string ::
              l == [ch] + "SPP" + text && text != "" && (version(text) == Some(1) || version(text) == Some(2))
  {
    if Header(l, version) {
      assert l == [l[0]] + "SPP" + l[4..];
    }
    if ch: char, text: string :|
      l == [ch] + "SPP" + text && text != "" && (version(text) == Some(1) || version(text) == Some(2))
    {
      assert l[1..4] == "SPP" && l[4..] == text;
    }
  }

  // Which answers survive: exactly those without a line whose doubled form
  // reads as a terminator.
  lemma RoundTripIff(lines: seq<string>, ch: char, prog: string)
    ensures Decode(Good(lines).Emit(ch), ch, prog) == Decoded(Answer(Join(DropEmpty(lines))), []) <==>
            forall i :: 0 <= i < |lines| ==> !Clashes(ch, lines[i])
  {
    if forall i :: 0 <= i < |lines| ==> !Clashes(ch, lines[i]) {
      DecodeReply(Good(lines), [], ch, prog);
      assert Good(lines).Emit(ch) + [] == Good(lines).Emit(ch);
    } else {
      var rest := ReadPastClash(lines, ch, prog);
      hide DecodeFrom;
    }
  }

  // Which answers come back as they were: a leading empty line is lost too,
  // unless it is the only line.
  lemma UnchangedIff(lines: seq<string>, ch: char, prog: string)
    ensures Decode(Good(lines).Emit(ch), ch, prog) == Decoded(Answer(Join(lines)), []) <==>
            (forall i :: 0 <= i < |lines| ==> !Clashes(ch, lines[i])) && !(|lines| > 1 && lines[0] == "")
  {
    RoundTripIff(lines, ch, prog);
    DropShrinks(lines);
    hide DecodeFrom;
    if exists i :: 0 <= i < |lines| && Clashes(ch, lines[i]) {
      var rest := ReadPastClash(lines, ch, prog);
    }
  }

  lemma LostLine(prog: string)
    ensures Decode(Good(["", "x"]).Emit('#'), '#', prog) == Decoded(Answer("x"), [])
    ensures Join(["", "x"]) == "\nx" != "x"
  {
    DecodeReply(Good(["", "x"]), [], '#', prog);
    assert Good(["", "x"]).Emit('#') + [] == Good(["", "x"]).Emit('#');
    assert DropEmpty(["", "x"]) == ["x"];
  }

  lemma ReadPastClash(lines: seq<string>, ch: char, prog: string) returns (rest: seq<string>)
    requires exists i :: 0 <= i < |lines| && Clashes(ch, lines[i])
    ensures Decode(Good(lines).Emit(ch), ch, prog).rest == rest != []
  {
    hide DecodeFrom, Protected;
    var k := FirstClash(lines, ch);
    rest := Encode(ch, lines[k + 1..]) + [OkLine(ch)];
    assert Protected(ch, lines[k]) == [ch] + lines[k] by { ProtectedStart(ch, lines[k]); }
    var tail := [[ch] + lines[k]] + rest;
    assert Encode(ch, lines) == Encode(ch, lines[..k]) + ([Protected(ch, lines[k])] + Encode(ch, lines[k + 1..]));
    assert Encode(ch, lines[..k]) + tail == Encode(ch, lines) + [OkLine(ch)];
    DecodeThrough("", lines[..k], tail, ch, prog);
    DecodeClash(Gather("", lines[..k]), lines[k], rest, ch, prog);
  }

  lemma ProtectedStart(ch: char, l: string)
    requires StartsWith(l, ch)
    ensures Protected(ch, l) == [ch] + l
  {}

  // A clashing line is read as the end of the reply, well before its end.
  lemma DecodeClash(ret: string, l: string, tail: seq<string>, ch: char, prog: string)
    requires Clashes(ch, l)
    ensures DecodeFrom(ret, [[ch] + l] + tail, ch, prog).rest == tail
  {}

  lemma {:induction false} FirstClash(lines: seq<string>, ch: char) returns (k: nat)
    requires exists i :: 0 <= i < |lines| && Clashes(ch, lines[i])
    ensures k < |lines| && Clashes(ch, lines[k])
    ensures forall i :: 0 <= i < k ==> !Clashes(ch, lines[i])
  {
    k := 0;
    while !Clashes(ch, lines[k])
      invariant k < |lines| && forall i :: 0 <= i < k ==> !Clashes(ch, lines[i])
      invariant exists i :: k <= i < |lines| && Clashes(ch, lines[i])
      decreases |lines| - k
    {
      k := k + 1;
    }
  }

  // Some header line and greeting let a driver open with this special
  // character.
  ghost predicate CanOpen(ch: char, prog: string, version: string -> Option<int>) {
    && (exists l :: '\n' !in l && Header(l, version) && l[0] == ch)
    && (exists lines :: (forall i :: 0 <= i < |lines| ==> '\n' !in lines[i])
                        && Decode(lines, ch, prog).outcome.Answer?)
  }

  ghost predicate SuitsAll(ch: char, prog: string) {
    forall lines :: (forall i :: 0 <= i < |lines| ==> '\n' !in lines[i]) ==>
      Decode(Good(lines).Emit(ch), ch, prog) == Decoded(Answer(Join(DropEmpty(lines))), [])
  }

  // The side condition of the protocol: a special character can be used, and
  // suits every answer, exactly when it is not the newline and none of the
  // letters that start a terminator.
  lemma FitCharacters(ch: char, prog: string, version: string -> Option<int>)
    requires version("001") == Some(1)
    ensures CanOpen(ch, prog, version) && SuitsAll(ch, prog) <==> ch !in {'\n', 'O', 'E', 'F'}
  {
    hide DecodeFrom;
    if ch != '\n' {
      HeaderOpens(ch, prog, version);
    }
    if ch !in {'O', 'E', 'F'} {
      forall lines: seq<string>
        ensures Decode(Good(lines).Emit(ch), ch, prog) == Decoded(Answer(Join(DropEmpty(lines))), [])
      {
        forall i | 0 <= i < |lines|
          ensures !Clashes(ch, lines[i])
        {
          if Clashes(ch, lines[i]) {
            ClashNeedsLetter(ch, lines[i]);
          }
        }
        RoundTripIff(lines, ch, prog);
      }
    } else {
      var bad := if ch == 'O' then ["OK"] else if ch == 'E' then ["Error: "] else ["Fatal: "];
      assert Clashes(ch, bad[0]) && '\n' !in bad[0];
      RoundTripIff(bad, ch, prog);
    }
  }

  lemma HeaderOpens(ch: char, prog: string, version: string -> Option<int>)
    requires version("001") == Some(1) && ch != '\n'
    ensures CanOpen(ch, prog, version)
  {
    DecodeEnd("", Good([]), [], ch, prog);
    var greeting := [OkLine(ch)] + [];
    assert greeting == [OkLine(ch)] && '\n' !in OkLine(ch);
    assert Decode(greeting, ch, prog).outcome.Answer?;
    hide DecodeFrom;
    var l := [ch] + "SPP001";
    assert l[1..4] == "SPP" && l[4..] == "001";
    assert '\n' !in l && Header(l, version) && l[0] == ch;
  }

  // ---------------------------------------------------------------------
  // Streams of replies.

  ghost predicate Fit(r: Reply, ch: char) {
    forall i :: 0 <= i < |r.lines| ==> !Clashes(ch, r.lines[i])
  }

  function Stream(rs: seq<Reply>, ch: char): seq<string> {
    if rs == [] then [] else rs[0].Emit(ch) + Stream(rs[1..], ch)
  }

  // The outcomes of n calls in a row.
  function DecodeMany(lines: seq<string>, n: nat, ch: char, prog: string): seq<Outcome>
    decreases n
  {
    if n == 0 then []
    else
      var d := Decode(lines, ch, prog);
      [d.outcome] + DecodeMany(d.rest, n - 1, ch, prog)
  }

  function Meanings(rs: seq<Reply>): seq<Outcome> {
    seq(|rs|, i requires 0 <= i < |rs| => rs[i].Meaning())
  }

  // Calls on a stream of replies read these replies, one each, in order.
  lemma {:induction false} StreamRead(rs: seq<Reply>, ch: char, prog: string)
    requires forall i :: 0 <= i < |rs| ==> Fit(rs[i], ch)
    ensures DecodeMany(Stream(rs, ch), |rs|, ch, prog) == Meanings(rs)
  {
    if rs != [] {
      DecodeReply(rs[0], Stream(rs[1..], ch), ch, prog);
      StreamRead(rs[1..], ch, prog);
      assert Meanings(rs) == [rs[0].Meaning()] + Meanings(rs[1..]);
    }
  }

  // A reply cut before its terminator is never taken for an answer.
  lemma TruncatedReply(r: Reply, k: nat, ch: char, prog: string)
    requires Fit(r, ch) && k < |r.Emit(ch)|
    ensures Decode(r.Emit(ch)[..k], ch, prog) == Decoded(EndOfFile(prog), [])
  {
    assert r.Emit(ch)[..k] == Encode(ch, r.lines[..k]) + [];
    DecodeThrough("", r.lines[..k], [], ch, prog);
  }

  // A stream cut anywhere: the replies that are complete are read, and the
  // next call meets the end of the file.
  lemma {:induction false} TruncatedStream(rs: seq<Reply>, k: nat, ch: char, prog: string) returns (j: nat)
    requires forall i :: 0 <= i < |rs| ==> Fit(rs[i], ch)
    requires k < |Stream(rs, ch)|
    ensures j < |rs| && |Stream(rs[..j], ch)| <= k < |Stream(rs[..j + 1], ch)|
    ensures DecodeMany(Stream(rs, ch)[..k], j + 1, ch, prog) == Meanings(rs[..j]) + [EndOfFile(prog)]
  {
    var first := rs[0].Emit(ch);
    var all := Stream(rs, ch);
    if k < |first| {
      j := 0;
      assert all[..k] == first[..k];
      TruncatedReply(rs[0], k, ch, prog);
      assert rs[..1][1..] == [];
      var d := Decode(all[..k], ch, prog);
      assert DecodeMany(all[..k], 1, ch, prog) == [d.outcome] + DecodeMany(d.rest, 0, ch, prog);
    } else {
      var m := TruncatedStream(rs[1..], k - |first|, ch, prog);
      j := m + 1;
      var cut := Stream(rs[1..], ch)[..k - |first|];
      assert all[..k] == first + cut;
      DecodeReply(rs[0], cut, ch, prog);
      assert rs[..j][1..] == rs[1..][..m] && rs[..j + 1][1..] == rs[1..][..m + 1];
      assert Meanings(rs[..j]) == [rs[0].Meaning()] + Meanings(rs[1..][..m]);
      assert [rs[0].Meaning()] + (Meanings(rs[1..][..m]) + [EndOfFile(prog)]) == Meanings(rs[..j]) + [EndOfFile(prog)];
    }
  }

  // ---------------------------------------------------------------------
  // One message after the other.

  lemma {:induction false} StreamAppend(ps: seq<Reply>, qs: seq<Reply>, ch: char)
    ensures Stream(ps + qs, ch) == Stream(ps, ch) + Stream(qs, ch)
  {
    if ps == [] {
      assert ps + qs == qs;
    } else {
      assert (ps + qs)[1..] == ps[1..] + qs;
      StreamAppend(ps[1..], qs, ch);
    }
  }

  lemma StreamEmpty(rs: seq<Reply>, ch: char)
    ensures Stream(rs, ch) == [] <==> rs == []
  {}

  // A program that makes one reply to every request line, in a pipe where
  // some replies have not been read: a message gets the oldest reply that is
  // waiting, and leaves the pipe empty exactly if it was empty and the
  // message is one line.  A message of more lines leaves its other replies
  // to the next callers.
  lemma AskAligned(left: seq<Reply>, msg: string, rs: seq<Reply>, ch: char, prog: string)
    requires |rs| == |SplitLines(msg)|
    requires forall i :: 0 <= i < |left + rs| ==> Fit((left + rs)[i], ch)
    ensures var d := Decode(Stream(left, ch) + Stream(rs, ch), ch, prog);
            && d == Decoded((left + rs)[0].Meaning(), Stream((left + rs)[1..], ch))
            && (d.rest == [] <==> left == [] && '\n' !in msg)
  {
    var all := left + rs;
    StreamAppend(left, rs, ch);
    DecodeReply(all[0], Stream(all[1..], ch), ch, prog);
    StreamEmpty(all[1..], ch);
    SplitOne(msg);
    hide DecodeFrom, SplitLines;
  }
}
