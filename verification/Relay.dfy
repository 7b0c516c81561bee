/** Chains of servers: a device behind device_c use_dev (server/device_c.cpp)
    that an SPP driver of the next server reads back.

    The emitter writes the text of an answer as it is, without doubling its
    special character, so not every answer gets through.  The lemmas say
    exactly which do, for one hop and for chains of any depth. */
module Relay {
  import opened Results
  import opened Spp

  const MARK: char := '#'

  // ---------------------------------------------------------------------
  // The emitter.

  // What it writes for the server's response to one request.
  function Emitted(o: Outcome): seq<string> {
    match o
    case Answer(text) => SplitLines(text) + [[MARK] + "OK"]
    case Failure(text) => if text == "" then [] else SplitLines([MARK] + "Error: " + text)
  }

  // What it writes when it starts.
  function Greeting(server: string, dev: string): seq<string> {
    ["#SPP001"] + SplitLines("Server: " + server) + SplitLines("Device: " + dev) + ["#OK"]
  }

  // The blocks of a session: one for every request up to the first empty one.
  function Served(requests: seq<seq<string>>, responses: seq<Outcome>): seq<string>
    requires |responses| == |requests|
  {
    if requests == [] || requests[0] == [] then []
    else Emitted(responses[0]) + Served(requests[1..], responses[1..])
  }

  // The whole session.  The server's responses are parameters: start for
  // opening the device, and one for every request.
  method UseDev(server: string, dev: string, start: Outcome, requests: seq<seq<string>>, responses: seq<Outcome>)
    returns (out: seq<string>)
    requires |responses| == |requests|
    ensures start.Failure? ==> out == Greeting(server, dev)[..|Greeting(server, dev)| - 1] + Emitted(start)
    ensures start.Answer? ==> out == Greeting(server, dev) + Served(requests, responses)
  {
    hide SplitLines;
    out := ["#SPP001"];
    out := out + SplitLines("Server: " + server);
    out := out + SplitLines("Device: " + dev);
    assert out + ["#OK"] == Greeting(server, dev);
    assert [MARK] + "Error: " == "#Error: " && [MARK] + "OK" == "#OK";
    if start.Failure? {
      if start.text != "" { out := out + SplitLines("#Error: " + start.text); }
      return;
    }
    out := out + ["#OK"];
    var i := 0;
    while i < |requests|
      invariant 0 <= i <= |requests|
      invariant out + Served(requests[i..], responses[i..]) == Greeting(server, dev) + Served(requests, responses)
    {
      var pars := requests[i];
      if |pars| == 0 { break; }
      ghost var before := out;
      match responses[i] {
        case Answer(text) =>
          out := out + SplitLines(text);
          out := out + ["#OK"];
        case Failure(text) =>
          if text != "" { out := out + SplitLines("#Error: " + text); }
      }
      assert out == before + Emitted(responses[i]);
      assert requests[i..][1..] == requests[i + 1..] && responses[i..][1..] == responses[i + 1..];
      i := i + 1;
    }
    assert Served(requests[i..], responses[i..]) == [];
  }

  // What is written, as text.
  lemma EmittedText(text: string)
    ensures Join(Emitted(Answer(text))) == text + "\n#OK"
    ensures text != "" ==> Join(Emitted(Failure(text))) == "#Error: " + text
    ensures Emitted(Failure("")) == []
  {
    SplitJoin(text);
    JoinMore(SplitLines(text), "#OK");
    assert [MARK] + "OK" == "#OK" && [MARK] + "Error: " == "#Error: ";
    SplitJoin("#Error: " + text);
    hide SplitLines, Join;
  }

  lemma {:induction false} JoinMore(lines: seq<string>, l: string)
    requires lines != []
    ensures Join(lines + [l]) == Join(lines) + "\n" + l
  {
    if |lines| == 1 {
      assert (lines + [l])[1..] == [l];
    } else {
      assert (lines + [l])[1..] == lines[1..] + [l];
      JoinMore(lines[1..], l);
      assert lines[0] + "\n" + (Join(lines[1..]) + "\n" + l) == lines[0] + "\n" + Join(lines[1..]) + "\n" + l;
    }
  }

  lemma GreetingText(server: string, dev: string)
    ensures Join(Greeting(server, dev)) == "#SPP001\nServer: " + server + "\nDevice: " + dev + "\n#OK"
  {
    var a, b := SplitLines("Server: " + server), SplitLines("Device: " + dev);
    SplitJoin("Server: " + server);
    SplitJoin("Device: " + dev);
    JoinAppend(["#SPP001"], a);
    JoinAppend(["#SPP001"] + a, b);
    JoinMore(["#SPP001"] + a + b, "#OK");
    assert Join(["#SPP001"]) == "#SPP001";
    hide SplitLines, Join;
    Spelled(server, dev);
  }

  lemma Spelled(server: string, dev: string)
    ensures "#SPP001" + "\n" + ("Server: " + server) + "\n" + ("Device: " + dev) + "\n" + "#OK" ==
            "#SPP001\nServer: " + server + "\nDevice: " + dev + "\n#OK"
  {
    assert "#SPP001" + "\n" + ("Server: " + server) == "#SPP001\nServer: " + server;
    var t := "#SPP001\nServer: " + server;
    assert t + "\n" + ("Device: " + dev) == t + "\nDevice: " + dev;
    var u := t + "\nDevice: " + dev;
    assert u + "\n" + "#OK" == u + "\n#OK";
  }

  lemma {:induction false} JoinAppend(p: seq<string>, q: seq<string>)
    requires p != [] && q != []
    ensures Join(p + q) == Join(p) + "\n" + Join(q)
    decreases |q|
  {
    var n := |q| - 1;
    if n == 0 {
      assert q == [q[0]];
      JoinMore(p, q[0]);
    } else {
      assert q == q[..n] + [q[n]] && p + q == (p + q[..n]) + [q[n]];
      JoinAppend(p, q[..n]);
      JoinMore(p + q[..n], q[n]);
      JoinMore(q[..n], q[n]);
      hide Join;
    }
  }

  // The first empty request ends the session, and the requests before it are
  // served in order.
  lemma {:induction false} ServedUpTo(requests: seq<seq<string>>, responses: seq<Outcome>, k: nat)
    requires |responses| == |requests| && k <= |requests|
    requires forall i :: 0 <= i < k ==> requests[i] != []
    requires k == |requests| || requests[k] == []
    ensures Served(requests, responses) == Blocks(responses[..k])
    decreases requests
  {
    if k > 0 {
      ServedUpTo(requests[1..], responses[1..], k - 1);
      assert responses[..k][1..] == responses[1..][..k - 1];
    }
  }

  function Blocks(responses: seq<Outcome>): seq<string> {
    if responses == [] then [] else Emitted(responses[0]) + Blocks(responses[1..])
  }

  // The greeting opens the driver of the next server, with nothing left over.
  lemma GreetingOpens(server: string, dev: string, prog: string, version: string -> Option<int>)
    requires '\n' !in server && '\n' !in dev && version("001") == Some(1)
    ensures Header(Greeting(server, dev)[0], version) && Greeting(server, dev)[0][0] == MARK
    ensures Decode(Greeting(server, dev)[1..], MARK, prog).outcome.Answer?
    ensures Decode(Greeting(server, dev)[1..], MARK, prog).rest == []
  {
    assert "#SPP001"[4..] == "001" && "#SPP001"[1..4] == "SPP";
    SplitPlain("Server: " + server);
    SplitPlain("Device: " + dev);
    var lines := ["Server: " + server, "Device: " + dev];
    assert lines[0][0] == 'S' && lines[1][0] == 'D';
    assert Encode(MARK, lines) == lines;
    assert OkLine(MARK) == "#OK";
    assert Greeting(server, dev)[1..] == Good(lines).Emit(MARK) + [];
    DecodeReply(Good(lines), [], MARK, prog);
  }

  // ---------------------------------------------------------------------
  // One hop.

  // One line of text that says something.
  type Message = t: string | t != "" && '\n' !in t witness "timeout"

  // The driver of the next server: its program, and what it reports when the
  // program, still running, does not finish its reply in time.
  datatype Reader = Reader(prog: string, late: Message)

  // A line at which a reader stops, with an answer or an error.
  predicate Stops(l: string) { StartsWith(l, MARK) && !StartsWith(l[1..], MARK) }

  predicate Unfinished(lines: seq<string>) { forall i :: 0 <= i < |lines| ==> !Stops(lines[i]) }

  // Reading from a program that goes on running: in place of the end of the
  // file there is a timeout.
  function ReadOpen(lines: seq<string>, d: Reader): Decoded {
    if Unfinished(lines) then Decoded(Failure(d.late), []) else Decode(lines, MARK, d.prog)
  }

  // What the driver makes of the emitted block.
  function Hop(o: Outcome, d: Reader): Decoded { ReadOpen(Emitted(o), d) }

  // No line of an answer starts with the special character and the text does
  // not start with a newline; an error is one line of text.
  predicate Relayable(o: Outcome) {
    match o
    case Answer(text) =>
      && !StartsWith(text, '\n')
      && forall i :: 0 <= i < |SplitLines(text)| ==> !StartsWith(SplitLines(text)[i], MARK)
    case Failure(text) => text != "" && '\n' !in text
  }

  // What is left after the first line at which a reader stops.
  function AfterStop(lines: seq<string>): seq<string> {
    if lines == [] then [] else if Stops(lines[0]) then lines[1..] else AfterStop(lines[1..])
  }

  // A reader goes on to the first stop, and to the end if there is none.
  lemma {:induction false} ReadsToStop(ret: string, lines: seq<string>, prog: string)
    ensures DecodeFrom(ret, lines, MARK, prog).rest == AfterStop(lines)
    ensures Unfinished(lines) ==> DecodeFrom(ret, lines, MARK, prog) == Decoded(EndOfFile(prog), [])
    decreases lines
  {
    if lines != [] {
      var l := lines[0];
      if !Stops(l) {
        assert StartsWith(l, MARK) ==> l[1..][0] == MARK;
        ReadsToStop(Joined(ret, if StartsWith(l, MARK) then l[1..] else l), lines[1..], prog);
      }
    }
  }

  lemma EmittedStops(o: Outcome)
    ensures Unfinished(Emitted(o)) <==> o == Failure("")
  {
    match o
    case Answer(text) => assert Stops(Emitted(o)[|Emitted(o)| - 1]);
    case Failure(text) =>
      if text != "" {
        SplitPrefix([MARK] + "Error: ", text);
        assert Stops(Emitted(o)[0]);
      }
  }

  // Length of text gathered line by line: grows with the text it starts from.
  lemma {:induction false} GatherGrows(r: string, t: string, lines: seq<string>)
    requires |r| < |t|
    ensures |Gather(r, lines)| < |Gather(t, lines)|
    decreases lines
  {
    if lines != [] {
      GatherGrows(Joined(r, lines[0]), Joined(t, lines[0]), lines[1..]);
    }
  }

  lemma {:induction false} GatherExtends(r: string, lines: seq<string>)
    ensures |r| <= |Gather(r, lines)|
    decreases lines
  {
    if lines != [] {
      GatherExtends(Joined(r, lines[0]), lines[1..]);
    }
  }

  ghost predicate SomeMarked(lines: seq<string>) {
    exists i :: 0 <= i < |lines| && StartsWith(lines[i], MARK)
  }

  // A line with the special character costs something: the block becomes an
  // error, or an answer that is shorter than its lines.
  lemma {:induction false} MarkedShrinks(ret: string, lines: seq<string>, prog: string)
    requires SomeMarked(lines)
    ensures match DecodeFrom(ret, lines + ["#OK"], MARK, prog).outcome
            case Answer(u) => |u| < |Gather(ret, lines)|
            case Failure(_) => true
    decreases lines
  {
    var l, more := lines[0], lines[1..];
    assert (lines + ["#OK"])[1..] == more + ["#OK"];
    if !StartsWith(l, MARK) {
      assert SomeMarked(more) by {
        var i :| 0 <= i < |lines| && StartsWith(lines[i], MARK);
        assert more[i - 1] == lines[i];
      }
      MarkedShrinks(Joined(ret, l), more, prog);
    } else if "Error: " <= l[1..] || "Fatal: " <= l[1..] {
    } else if l[1..] == "OK" {
      GatherExtends(Joined(ret, l), more);
    } else if StartsWith(l[1..], MARK) {
      GatherGrows(Joined(ret, l[1..]), Joined(ret, l), more);
      if SomeMarked(more) {
        MarkedShrinks(Joined(ret, l[1..]), more, prog);
      } else {
        PlainRead(Joined(ret, l[1..]), more, [], prog);
        assert more + (["#OK"] + []) == more + ["#OK"];
      }
    }
  }

  lemma PlainRead(ret: string, lines: seq<string>, rest: seq<string>, prog: string)
    requires !SomeMarked(lines)
    ensures DecodeFrom(ret, lines + (["#OK"] + rest), MARK, prog) == Decoded(Answer(Gather(ret, lines)), rest)
  {
    assert forall i :: 0 <= i < |lines| ==> !StartsWith(lines[i], MARK);
    assert Encode(MARK, lines) == lines;
    DecodeThrough(ret, lines, ["#OK"] + rest, MARK, prog);
    assert OkLine(MARK) == "#OK";
    DecodeEnd(Gather(ret, lines), Good(lines), rest, MARK, prog);
  }

  lemma LeadingNewline(text: string)
    ensures StartsWith(text, '\n') <==> |SplitLines(text)| > 1 && SplitLines(text)[0] == ""
  {}

  // The text of an answer after a hop: unchanged exactly when it is relayable,
  // and never longer.
  lemma HopAnswer(text: string, d: Reader)
    ensures Relayable(Answer(text)) ==> Hop(Answer(text), d) == Decoded(Answer(text), [])
    ensures !Relayable(Answer(text)) ==>
              match Hop(Answer(text), d).outcome
              case Answer(u) => |u| < |text|
              case Failure(_) => true
  {
    var lines := SplitLines(text);
    EmittedStops(Answer(text));
    assert [MARK] + "OK" == "#OK";
    SplitJoin(text);
    LeadingNewline(text);
    GatherIsJoin(lines);
    DropShrinks(lines);
    if SomeMarked(lines) {
      MarkedShrinks("", lines, d.prog);
    } else {
      PlainRead("", lines, [], d.prog);
      assert lines + (["#OK"] + []) == lines + ["#OK"];
      if lines[0] == "" && |lines| == 1 {
        assert text == "";
      }
    }
  }

  lemma StopsIs(l: string)
    ensures Stops(l) <==> EndsReading(l, MARK)
  {}

  // An answer comes out as an answer exactly if the first line of its block at
  // which a reader stops is the OK line; and then as the lines before, with
  // doubled special characters undone.
  lemma HopAnswerIff(text: string, k: nat, d: Reader)
    requires var block := SplitLines(text) + ["#OK"];
             k < |block| && Stops(block[k]) && forall i :: 0 <= i < k ==> !Stops(block[i])
    ensures var block := SplitLines(text) + ["#OK"];
            && (Hop(Answer(text), d).outcome.Answer? <==> block[k] == "#OK")
            && (block[k] == "#OK" ==>
                  Hop(Answer(text), d).outcome == Answer(Join(DropEmpty(Plains(block[..k], MARK)))))
            && Hop(Answer(text), d).rest == block[k + 1..]
  {
    var block := SplitLines(text) + ["#OK"];
    assert [MARK] + "OK" == "#OK";
    EmittedStops(Answer(text));
    forall i | 0 <= i <= k
      ensures Stops(block[i]) <==> EndsReading(block[i], MARK)
    {
      StopsIs(block[i]);
    }
    ReadingIs(block, k, MARK, d.prog);
    hide DecodeFrom, EndsReading, Stops, SplitLines;
  }

  // The text of an error after a hop: its first line, or the report of a
  // timeout if there is none, because then nothing is written.
  lemma HopFailure(text: string, d: Reader)
    ensures Hop(Failure(text), d).outcome ==
            Failure(if text == "" then d.late else SplitLines(text)[0])
    ensures Hop(Failure(text), d).rest == if text == "" then [] else SplitLines(text)[1..]
  {
    EmittedStops(Failure(text));
    if text != "" {
      SplitPrefix([MARK] + "Error: ", text);
      var first := SplitLines(text)[0];
      var tail := SplitLines(text)[1..];
      assert [MARK] + "Error: " + first == ErrorLine(MARK, false, first);
      DecodeEnd("", Bad([], false, first), tail, MARK, d.prog);
      hide DecodeFrom, SplitLines, Unfinished;
    }
  }

  lemma {:induction false} SplitPrefix(p: string, text: string)
    requires '\n' !in p
    ensures SplitLines(p + text) == [p + SplitLines(text)[0]] + SplitLines(text)[1..]
  {
    if p == "" {
      assert p + text == text;
      assert p + SplitLines(text)[0] == SplitLines(text)[0];
    } else {
      assert (p + text)[1..] == p[1..] + text;
      SplitPrefix(p[1..], text);
      assert [p[0]] + (p[1..] + SplitLines(text)[0]) == p + SplitLines(text)[0];
    }
  }

  // One hop is faithful, to the text and to the end of the block, exactly for
  // what is relayable.
  lemma HopIff(o: Outcome, d: Reader)
    ensures Hop(o, d) == Decoded(o, []) <==> Relayable(o)
  {
    match o
    case Answer(text) => HopAnswer(text, d);
    case Failure(text) =>
      HopFailure(text, d);
      SplitFirst(text);
  }

  // A relayable block is read as it was meant, whatever follows it.
  lemma BlockRead(o: Outcome, rest: seq<string>, prog: string)
    requires Relayable(o)
    ensures Decode(Emitted(o) + rest, MARK, prog) == Decoded(o, rest)
  {
    match o
    case Answer(text) =>
      var lines := SplitLines(text);
      assert [MARK] + "OK" == "#OK";
      assert Emitted(o) + rest == lines + (["#OK"] + rest);
      PlainRead("", lines, rest, prog);
      SplitJoin(text);
      LeadingNewline(text);
      GatherIsJoin(lines);
      if lines[0] == "" && |lines| == 1 {
        assert text == "";
      }
    case Failure(text) =>
      SplitPrefix([MARK] + "Error: ", text);
      SplitPlain(text);
      assert [MARK] + "Error: " + text == ErrorLine(MARK, false, text);
      DecodeEnd("", Bad([], false, text), rest, MARK, prog);
  }

  // A session of relayable responses: every request reads its own response.
  lemma {:induction false} SessionRead(requests: seq<seq<string>>, responses: seq<Outcome>, prog: string)
    requires |responses| == |requests|
    requires forall i :: 0 <= i < |requests| ==> requests[i] != [] && Relayable(responses[i])
    ensures DecodeMany(Served(requests, responses), |responses|, MARK, prog) == responses
    decreases requests
  {
    if requests != [] {
      BlockRead(responses[0], Served(requests[1..], responses[1..]), prog);
      SessionRead(requests[1..], responses[1..], prog);
      assert responses == [responses[0]] + responses[1..];
    }
  }

  // ---- Exactly which sessions.

  // A running session: a request, its block, one reading, and so on.  left is
  // what earlier readings have not taken.
  function Readings(left: seq<string>, responses: seq<Outcome>, d: Reader): seq<Outcome>
    decreases responses
  {
    if responses == [] then []
    else
      var r := ReadOpen(left + Emitted(responses[0]), d);
      [r.outcome] + Readings(r.rest, responses[1..], d)
  }

  // The pipe is empty before every request, and at the end.
  ghost predicate StaysAligned(left: seq<string>, responses: seq<Outcome>, d: Reader)
    decreases responses
  {
    && left == []
    && (responses != [] ==> StaysAligned(ReadOpen(left + Emitted(responses[0]), d).rest, responses[1..], d))
  }

  // No line of the answer stops the reader early; an error has one line, or
  // nothing to say.
  predicate Aligned(o: Outcome) {
    match o
    case Answer(text) => Unfinished(SplitLines(text))
    case Failure(text) => '\n' !in text
  }

  lemma {:induction false} StopsEarly(lines: seq<string>, last: string)
    requires Stops(last)
    ensures AfterStop(lines + [last]) == [] <==> Unfinished(lines)
  {
    if lines == [] {
      assert lines + [last] == [last];
    } else {
      assert (lines + [last])[1..] == lines[1..] + [last];
      StopsEarly(lines[1..], last);
      if !Stops(lines[0]) && Unfinished(lines[1..]) {
        forall i | 0 <= i < |lines|
          ensures !Stops(lines[i])
        {
          if i > 0 {
            assert lines[i] == lines[1..][i - 1];
          }
        }
      }
    }
  }

  // One reading takes the whole block exactly if it is aligned.
  lemma AlignedIff(o: Outcome, d: Reader)
    ensures Hop(o, d).rest == [] <==> Aligned(o)
  {
    EmittedStops(o);
    match o
    case Answer(text) =>
      ReadsToStop("", Emitted(o), d.prog);
      assert Stops([MARK] + "OK");
      StopsEarly(SplitLines(text), [MARK] + "OK");
    case Failure(text) =>
      HopFailure(text, d);
      SplitOne(text);
  }

  // A session leaves nothing unread after any request exactly if all its
  // responses are aligned.
  lemma {:induction false} SessionAlignedIff(responses: seq<Outcome>, d: Reader)
    ensures StaysAligned([], responses, d) <==> forall i :: 0 <= i < |responses| ==> Aligned(responses[i])
  {
    if responses != [] {
      var o, more := responses[0], responses[1..];
      AlignedIff(o, d);
      assert [] + Emitted(o) == Emitted(o);
      SessionAlignedIff(more, d);
      assert forall i :: 0 < i < |responses| ==> responses[i] == more[i - 1];
      hide Aligned, ReadOpen, Emitted;
    }
  }

  // Every request of a session reads its own response, text and all, exactly
  // if all its responses are relayable.
  lemma {:induction false} SessionIff(responses: seq<Outcome>, d: Reader)
    ensures Readings([], responses, d) == responses <==>
            forall i :: 0 <= i < |responses| ==> Relayable(responses[i])
  {
    if responses != [] {
      var o, more := responses[0], responses[1..];
      HopIff(o, d);
      OutcomeDiffers(o, d);
      assert [] + Emitted(o) == Emitted(o);
      SessionIff(more, d);
      assert responses == [o] + more;
      assert forall i :: 0 < i < |responses| ==> responses[i] == more[i - 1];
      assert Readings([], responses, d)[0] == Hop(o, d).outcome;
      assert Readings([], responses, d)[1..] == Readings(Hop(o, d).rest, more, d);
      hide Relayable, Hop, Emitted, Readings;
    }
  }

  lemma OutcomeDiffers(o: Outcome, d: Reader)
    ensures Hop(o, d).outcome == o <==> Relayable(o)
  {
    match o
    case Answer(text) => HopAnswer(text, d);
    case Failure(text) =>
      HopFailure(text, d);
      SplitFirst(text);
  }

  // ---------------------------------------------------------------------
  // Chains.

  // An outcome after a chain of servers, given by the drivers.
  function Chain(o: Outcome, ds: seq<Reader>): Outcome
    decreases ds
  {
    if ds == [] then o else Chain(Hop(o, ds[0]).outcome, ds[1..])
  }

  lemma {:induction false} ChainKeeps(o: Outcome, ds: seq<Reader>)
    requires Relayable(o)
    ensures Chain(o, ds) == o
    decreases ds
  {
    if ds != [] {
      HopIff(o, ds[0]);
      ChainKeeps(o, ds[1..]);
    }
  }

  // What o can never turn into again once it has changed.
  ghost predicate Past(o: Outcome, now: Outcome) {
    match o
    case Answer(text) => now.Failure? || |now.text| < |text|
    case Failure(text) =>
      && now.Failure?
      && now.text != text
      && (text == "" ==> now.text != "" && now.text[0] != '\n')
      && (text != "" ==> '\n' !in now.text || now.text[0] != '\n')
      && (text != "" && text[0] != '\n' ==> now.text != "" && '\n' !in now.text)
  }

  lemma PastStays(o: Outcome, now: Outcome, d: Reader)
    requires !Relayable(o) && Past(o, now)
    ensures Past(o, Hop(now, d).outcome)
  {
    match now
    case Answer(text) => HopAnswer(text, d);
    case Failure(text) =>
      HopFailure(text, d);
      SplitFirst(text);
  }

  lemma PastStarts(o: Outcome, d: Reader)
    requires !Relayable(o)
    ensures Past(o, Hop(o, d).outcome)
  {
    match o
    case Answer(text) => HopAnswer(text, d);
    case Failure(text) =>
      HopFailure(text, d);
      SplitFirst(text);
  }

  lemma {:induction false} PastForever(o: Outcome, now: Outcome, ds: seq<Reader>)
    requires !Relayable(o) && Past(o, now)
    ensures Past(o, Chain(now, ds))
    decreases ds
  {
    if ds != [] {
      PastStays(o, now, ds[0]);
      PastForever(o, Hop(now, ds[0]).outcome, ds[1..]);
    }
  }

  // A chain of any depth hands on an answer or an error unchanged exactly
  // when it is relayable; what one hop damages no later hop repairs.
  lemma ChainIff(o: Outcome, ds: seq<Reader>)
    requires ds != []
    ensures Chain(o, ds) == o <==> Relayable(o)
  {
    if Relayable(o) {
      ChainKeeps(o, ds);
    } else {
      PastStarts(o, ds[0]);
      PastForever(o, Hop(o, ds[0]).outcome, ds[1..]);
    }
  }

  // An error never turns into an answer.
  lemma {:induction false} ErrorsStayErrors(text: string, ds: seq<Reader>)
    ensures Chain(Failure(text), ds).Failure?
    decreases ds
  {
    if ds != [] {
      HopFailure(text, ds[0]);
      ErrorsStayErrors(Hop(Failure(text), ds[0]).outcome.text, ds[1..]);
    }
  }
}
