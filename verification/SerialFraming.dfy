/** Replies on a serial line, marked by an acknowledge or a refusal string at
    their end (server/drv_serial.cpp, server/drv_utils.cpp).

    The kernel hands the bytes of a reply over in chunks of its own choice;
    the lemmas say exactly when this choice makes no difference. */
module SerialFraming {
  import opened Results

  // One read of the port.
  datatype Event =
    | Chunk(data: string)
    | NoData          // a non-blocking read that finds nothing
    | Timeout
    | Failed(error: string)

  datatype ReadError = ReadFailed(text: string) | ReadTimeout | Nack(text: string)

  // The options -ack, -nack and -trim.
  datatype Config = Config(ack: string, nack: string, trim: string)

  // ---------------------------------------------------------------------
  // Trimming.

  predicate EndsWith(s: string, t: string) {
    t != "" && |s| >= |t| && s[|s| - |t|..] == t
  }

  function Cut(s: string, t: string): string {
    if EndsWith(s, t) then s[..|s| - |t|] else s
  }

  // Removes one trailing copy of trim, if there is one.
  method TrimStr(str: string, trim: string) returns (cut: string, done: bool)
    ensures cut == Cut(str, trim) && done == EndsWith(str, trim)
    ensures done ==> cut + trim == str
  {
    if |trim| > 0 && |str| >= |trim| && str[|str| - |trim|..] == trim {
      return str[..|str| - |trim|], true;
    }
    return str, false;
  }

  lemma CutAppended(body: string, t: string)
    requires t != ""
    ensures EndsWith(body + t, t) && Cut(body + t, t) == body
  {
    assert (body + t)[|body|..] == t && (body + t)[..|body|] == body;
  }

  // ---------------------------------------------------------------------
  // The reading loop.

  type Verdict = Result<string, ReadError>

  // A complete reply: acknowledged, or refused.
  predicate Terminated(r: string, c: Config) { EndsWith(r, c.ack) || EndsWith(r, c.nack) }

  function Judge(r: string, c: Config): Verdict {
    if EndsWith(r, c.ack) then Ok(Cut(Cut(r, c.ack), c.trim)) else Err(Nack(Cut(Cut(r, c.nack), c.trim)))
  }

  // The result of reading from text ret on, and the events left unread.  A
  // line that never says anything again times out.
  function ReadFrom(ret: string, events: seq<Event>, c: Config): (Verdict, seq<Event>)
    decreases events
  {
    if events == [] then (Err(ReadTimeout), [])
    else
      var rest := events[1..];
      match events[0]
      case NoData => (Ok(Cut(ret, c.trim)), rest)
      case Failed(error) => (Err(ReadFailed(error)), rest)
      case Timeout => (Err(ReadTimeout), rest)
      case Chunk(data) =>
        var r := ret + data;
        if c.ack == "" then (Ok(Cut(r, c.trim)), rest)
        else if Terminated(r, c) then (Judge(r, c), rest)
        else ReadFrom(r, rest, c)
  }

  class SerialPort {
    var events: seq<Event>

    constructor (events: seq<Event>)
      ensures this.events == events
    {
      this.events := events;
    }

    method SysRead() returns (e: Event)
      modifies this
      ensures old(events) == [] ==> e == Timeout && events == []
      ensures old(events) != [] ==> e == old(events)[0] && events == old(events)[1..]
    {
      if events == [] {
        e := Timeout;
      } else {
        e, events := events[0], events[1..];
      }
    }
  }

  class DriverSerial {
    const fd: SerialPort
    const config: Config

    constructor (fd: SerialPort, config: Config)
      ensures this.fd == fd && this.config == config
    {
      this.fd, this.config := fd, config;
    }

    method Read() returns (r: Verdict)
      modifies fd
      ensures (r, fd.events) == ReadFrom("", old(fd.events), config)
    {
      var ret := "";
      var fail := false;
      while true
        invariant !fail && ReadFrom(ret, fd.events, config) == ReadFrom("", old(fd.events), config)
        decreases |fd.events|
      {
        ghost var before := ret;
        var event := fd.SysRead();
        if event.NoData? { break; }
        if event.Failed? { return Err(ReadFailed(event.error)); }
        if event.Timeout? { return Err(ReadTimeout); }
        ret := ret + event.data;
        if |config.ack| == 0 { break; }
        var done: bool;
        ret, done := TrimStr(ret, config.ack);
        if done { break; }
        ret, done := TrimStr(ret, config.nack);
        if done {
          fail := true;
          break;
        }
      }
      var trimmed: bool;
      ret, trimmed := TrimStr(ret, config.trim);
      if fail { return Err(Nack(ret)); }
      r := Ok(ret);
    }
  }

  // ---------------------------------------------------------------------
  // Independence of the chunks.

  function Flat(chunks: seq<string>): string {
    if chunks == [] then "" else chunks[0] + Flat(chunks[1..])
  }

  function Chunks(chunks: seq<string>): seq<Event> {
    seq(|chunks|, i requires 0 <= i < |chunks| => Chunk(chunks[i]))
  }

  // A way in which the kernel may hand over a text.
  ghost predicate Splits(chunks: seq<string>, text: string) {
    Flat(chunks) == text && forall i :: 0 <= i < |chunks| ==> chunks[i] != ""
  }

  // No part of the reply short of the whole looks complete.
  ghost predicate EndsOnce(r: string, c: Config) {
    forall k :: 0 < k < |r| ==> !Terminated(r[..k], c)
  }

  lemma {:induction false} ReadThrough(ret: string, chunks: seq<string>, tail: seq<Event>, c: Config)
    requires c.ack != "" && Splits(chunks, Flat(chunks)) && chunks != []
    requires Terminated(ret + Flat(chunks), c) && EndsOnce(ret + Flat(chunks), c)
    ensures ReadFrom(ret, Chunks(chunks) + tail, c) == (Judge(ret + Flat(chunks), c), tail)
    decreases chunks
  {
    var r, more := ret + chunks[0], chunks[1..];
    var whole := ret + Flat(chunks);
    assert r + Flat(more) == whole;
    assert (Chunks(chunks) + tail)[1..] == Chunks(more) + tail;
    if more == [] {
      assert r == whole;
      assert Chunks(more) + tail == tail;
    } else {
      assert more[0] != "" && |Flat(more)| > 0;
      assert whole[..|r|] == r;
      assert Splits(more, Flat(more));
      ReadThrough(r, more, tail, c);
    }
  }

  // A reply of which only the whole looks complete is read to its end, with
  // the same verdict, however it is split.
  lemma ChunkIndependence(r: string, chunks: seq<string>, tail: seq<Event>, c: Config)
    requires c.ack != "" && Terminated(r, c) && EndsOnce(r, c) && Splits(chunks, r)
    ensures ReadFrom("", Chunks(chunks) + tail, c) == (Judge(r, c), tail)
  {
    assert "" + Flat(chunks) == r;
    ReadThrough("", chunks, tail, c);
  }

  // A part that looks complete ends the reading if a chunk ends there.
  lemma EarlyStop(r: string, k: nat, c: Config)
    requires c.ack != "" && 0 < k < |r| && Terminated(r[..k], c)
    ensures Splits([r[..k], r[k..]], r)
    ensures ReadFrom("", Chunks([r[..k], r[k..]]) + [], c) == (Judge(r[..k], c), [Chunk(r[k..])])
  {
    var chunks := [r[..k], r[k..]];
    assert chunks[1..] == [r[k..]] && Flat([r[k..]]) == r[k..] + "" == r[k..];
    assert "" + r[..k] == r[..k];
    var events := Chunks(chunks) + [];
    assert events[0] == Chunk(r[..k]) && events[1..] == [Chunk(r[k..])];
  }

  ghost predicate SplitDoesNotMatter(r: string, c: Config) {
    forall chunks: seq<string>, tail: seq<Event> :: Splits(chunks, r) ==>
      ReadFrom("", Chunks(chunks) + tail, c) == (Judge(r, c), tail)
  }

  // Every split of a complete reply is read to its end, with the same
  // verdict, exactly when no proper part of the reply looks complete.
  lemma ChunkingIff(r: string, c: Config)
    requires c.ack != "" && Terminated(r, c)
    ensures SplitDoesNotMatter(r, c) <==> EndsOnce(r, c)
  {
    if EndsOnce(r, c) {
      AllSplits(r, c);
      hide *;
    } else {
      var k :| 0 < k < |r| && Terminated(r[..k], c);
      hide *;
      EarlyStop(r, k, c);
      assert [Chunk(r[k..])] != [];
      SplitMatters(r, [r[..k], r[k..]], [], c);
    }
  }

  lemma AllSplits(r: string, c: Config)
    requires c.ack != "" && Terminated(r, c) && EndsOnce(r, c)
    ensures SplitDoesNotMatter(r, c)
  {
    hide EndsOnce, Terminated, Judge, ReadFrom, Splits;
    forall chunks: seq<string>, tail: seq<Event> | Splits(chunks, r)
      ensures ReadFrom("", Chunks(chunks) + tail, c) == (Judge(r, c), tail)
    {
      ChunkIndependence(r, chunks, tail, c);
    }
  }

  lemma SplitMatters(r: string, chunks: seq<string>, tail: seq<Event>, c: Config)
    requires Splits(chunks, r) && ReadFrom("", Chunks(chunks) + tail, c) != (Judge(r, c), tail)
    ensures !SplitDoesNotMatter(r, c)
  {
    hide Judge, ReadFrom, Splits;
  }

  // An acknowledged reply gives its body, however it is split; at most one
  // trailing trim string goes.
  lemma AcknowledgedRead(body: string, chunks: seq<string>, tail: seq<Event>, c: Config)
    requires c.ack != "" && Splits(chunks, body + c.ack) && EndsOnce(body + c.ack, c)
    ensures ReadFrom("", Chunks(chunks) + tail, c) == (Ok(Cut(body, c.trim)), tail)
  {
    CutAppended(body, c.ack);
    ChunkIndependence(body + c.ack, chunks, tail, c);
  }

  // A refused reply gives an error with its body, however it is split.
  lemma RefusedRead(body: string, chunks: seq<string>, tail: seq<Event>, c: Config)
    requires c.ack != "" && c.nack != "" && !EndsWith(body + c.nack, c.ack)
    requires Splits(chunks, body + c.nack) && EndsOnce(body + c.nack, c)
    ensures ReadFrom("", Chunks(chunks) + tail, c) == (Err(Nack(Cut(body, c.trim))), tail)
  {
    CutAppended(body, c.nack);
    ChunkIndependence(body + c.nack, chunks, tail, c);
  }

  // ---------------------------------------------------------------------
  // The other ends of a reading.

  // Without an acknowledge string one read is the whole reply.
  lemma OneRead(data: string, tail: seq<Event>, c: Config)
    requires c.ack == ""
    ensures ReadFrom("", [Chunk(data)] + tail, c) == (Ok(Cut(data, c.trim)), tail)
  {
    assert ([Chunk(data)] + tail)[1..] == tail && "" + data == data;
  }

  // No part of the chunks, read in order, looks complete.
  ghost predicate NeverComplete(ret: string, chunks: seq<string>, c: Config) {
    forall k :: 0 < k <= |chunks| ==> !Terminated(ret + Flat(chunks[..k]), c)
  }

  lemma {:induction false} ReadUnfinished(ret: string, chunks: seq<string>, tail: seq<Event>, c: Config)
    requires (c.ack != "" || chunks == []) && NeverComplete(ret, chunks, c)
    ensures ReadFrom(ret, Chunks(chunks) + tail, c) == ReadFrom(ret + Flat(chunks), tail, c)
    decreases chunks
  {
    if chunks == [] {
      assert Chunks(chunks) + tail == tail && ret + "" == ret;
    } else {
      var r, more := ret + chunks[0], chunks[1..];
      assert (Chunks(chunks) + tail)[1..] == Chunks(more) + tail;
      forall k | 0 < k <= |more|
        ensures !Terminated(r + Flat(more[..k]), c)
      {
        assert chunks[..k + 1][1..] == more[..k];
        assert ret + Flat(chunks[..k + 1]) == r + Flat(more[..k]);
      }
      assert chunks[..1][1..] == [] && ret + Flat(chunks[..1]) == r;
      ReadUnfinished(r, more, tail, c);
      assert r + Flat(more) == ret + Flat(chunks);
    }
  }

  // A reply of which no part looks complete is never an answer when the line
  // falls silent or fails; a port that does not block gives what there is.
  lemma UnfinishedRead(chunks: seq<string>, end: Event, tail: seq<Event>, c: Config)
    requires (c.ack != "" || chunks == []) && NeverComplete("", chunks, c) && !end.Chunk?
    ensures var r := ReadFrom("", Chunks(chunks) + ([end] + tail), c);
            && r.1 == tail
            && (end.Timeout? ==> r.0 == Err(ReadTimeout))
            && (end.Failed? ==> r.0 == Err(ReadFailed(end.error)))
            && (end.NoData? ==> r.0 == Ok(Cut(Flat(chunks), c.trim)))
    ensures ReadFrom("", Chunks(chunks), c) == (Err(ReadTimeout), [])
  {
    ReadUnfinished("", chunks, [end] + tail, c);
    ReadUnfinished("", chunks, [], c);
    assert ([end] + tail)[1..] == tail && "" + Flat(chunks) == Flat(chunks);
    assert Chunks(chunks) + [] == Chunks(chunks);
  }

  // What it is to end with a string, and what a cut removes.
  lemma EndsWithIff(s: string, t: string)
    ensures EndsWith(s, t) <==> t != "" && exists body :: s == body + t
    ensures EndsWith(s, t) ==> s == Cut(s, t) + t
    ensures !EndsWith(s, t) ==> Cut(s, t) == s
  {
    if EndsWith(s, t) {
      assert s == s[..|s| - |t|] + t;
    } else if t != "" && exists body :: s == body + t {
      var body :| s == body + t;
      CutAppended(body, t);
    }
  }

  // ---------------------------------------------------------------------
  // When an answer is read at all.

  datatype ReadCond = Always | Never | QMark | QMark1W

  function Find(msg: string, c: char): (i: Option<nat>)
    ensures i.None? ==> c !in msg
    ensures i.Some? ==> i.value < |msg| && msg[i.value] == c && c !in msg[..i.value]
  {
    if msg == "" then None
    else if msg[0] == c then Some(0)
    else
      match Find(msg[1..], c)
      case None => assert msg == [msg[0]] + msg[1..]; None
      case Some(i) => assert msg[..i + 1] == [msg[0]] + msg[1..][..i]; Some(i + 1)
  }

  // Not found counts as larger than every position.
  predicate Before(i: Option<nat>, j: Option<nat>) {
    i.Some? && (j.None? || i.value < j.value)
  }

  predicate CheckReadCond(msg: string, cond: ReadCond) {
    match cond
    case Always => true
    case Never => false
    case QMark => Find(msg, '?').Some?
    case QMark1W => Before(Find(msg, '?'), Find(msg, ' '))
  }

  // The part of a message before its first space.
  function FirstWord(msg: string): string {
    if msg == "" || msg[0] == ' ' then "" else [msg[0]] + FirstWord(msg[1..])
  }

  lemma {:induction false} ReadCondMeaning(msg: string)
    ensures CheckReadCond(msg, Always) && !CheckReadCond(msg, Never)
    ensures CheckReadCond(msg, QMark) <==> '?' in msg
    ensures CheckReadCond(msg, QMark1W) <==> '?' in FirstWord(msg)
  {
    if msg != "" && msg[0] != ' ' && msg[0] != '?' {
      ReadCondMeaning(msg[1..]);
      assert msg == [msg[0]] + msg[1..];
    }
  }
}
