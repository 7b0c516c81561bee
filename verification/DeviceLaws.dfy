/** What one request does to a device and what it answers, in terms of the
    state before it (server/device.cpp).  None of the statements goes through
    the steps of DeviceModel. */
module DeviceLaws {
  import opened Connections
  import opened Results
  import opened DeviceModel

  // A connection gets in if it is in, or if the device is not locked and has
  // a driver or can be given one.
  predicate GetsIn(s: State, c: Conn, opening: Option<string>) {
    c in s.users || (!s.locked && (s.open || opening.None?))
  }

  // Why it does not.
  function Refusal(s: State, c: Conn, opening: Option<string>): DeviceError
    requires !GetsIn(s, c, opening)
  {
    if s.locked then DeviceLocked else OpenFailed(opening.value)
  }

  lemma UseLaw(s: State, c: Conn, opening: Option<string>)
    requires Inv(s)
    ensures var t := Next(s, Use(c, opening));
            && t.sent == []
            && (GetsIn(s, c, opening) ==>
                  t.answer == Ok("") && t.state == State(s.users + {c}, s.locked, true, s.logs))
            && (!GetsIn(s, c, opening) ==> t.answer == Err(Refusal(s, c, opening)) && t.state == s)
  {
    if c in s.users {
      assert s.users + {c} == s.users;
    }
  }

  // A let-in request sends its message once and gives the driver's answer or
  // error back, and both are appended to every log; any other has no effect.
  lemma AskLaw(s: State, c: Conn, msg: string, opening: Option<string>, reply: Result<string, string>)
    requires Inv(s)
    ensures var t := Next(s, Ask(c, msg, opening, reply));
            && (GetsIn(s, c, opening) ==>
                  && t.sent == [(c, msg)]
                  && (forall text :: t.answer == Ok(text) <==> reply == Ok(text))
                  && (forall text :: t.answer == Err(DriverFailed(text)) <==> reply == Err(text))
                  && t.state.users == s.users + {c} && t.state.locked == s.locked && t.state.open
                  && t.state.logs.Keys == s.logs.Keys)
            && (!GetsIn(s, c, opening) ==>
                  t.sent == [] && t.state == s && t.answer == Err(Refusal(s, c, opening)))
  {
    UseLaw(s, c, opening);
    hide UseStep, Logged, Inv;
    var logs := UseStep(s, c, opening).state.logs;
    LoggedKeys(logs, SentEntry(msg));
    LoggedKeys(Logged(logs, SentEntry(msg)), ReplyEntry(reply));
  }

  lemma LoggedKeys(logs: map<Conn, seq<string>>, entry: string)
    ensures Logged(logs, entry).Keys == logs.Keys
  {}

  // The two lines of a log, and the 1024 that are kept.
  lemma AskLogs(s: State, c: Conn, msg: string, opening: Option<string>, reply: Result<string, string>, d: Conn)
    requires Inv(s) && GetsIn(s, c, opening) && d in s.logs
    ensures var t := Next(s, Ask(c, msg, opening, reply)).state;
            var answer := match reply case Ok(text) => "<< " + text + "\n" case Err(text) => "EE " + text + "\n";
            var whole := s.logs[d] + [">> " + msg + "\n", answer];
            && d in t.logs
            && t.logs[d] == if |whole| <= 1024 then whole else whole[|whole| - 1024..]
  {
    UseLaw(s, c, opening);
    hide UseStep, Inv;
    LoggedTwice(s.logs, SentEntry(msg), ReplyEntry(reply), d, s.logs[d]);
    hide Logged;
  }

  lemma LockLaw(s: State, c: Conn, opening: Option<string>)
    requires Inv(s)
    ensures var t := Next(s, Lock(c, opening));
            && t.sent == []
            && (!GetsIn(s, c, opening) ==> t.answer == Err(Refusal(s, c, opening)) && t.state == s)
            && (GetsIn(s, c, opening) && s.users <= {c} ==>
                  t.answer == Ok("") && t.state == State({c}, true, true, s.logs))
            && (GetsIn(s, c, opening) && !(s.users <= {c}) ==>
                  t.answer == Err(DeviceInUse) && t.state == State(s.users + {c}, s.locked, true, s.logs))
  {
    UseLaw(s, c, opening);
    hide UseStep;
    if GetsIn(s, c, opening) {
      var u := s.users + {c};
      if |u| == 1 {
        OnlyUser(u, c);
      }
      if s.users <= {c} {
        assert u == {c};
      }
    }
  }

  // An unlock of a device that is not locked succeeds, whoever asks.
  lemma UnlockLaw(s: State, c: Conn)
    ensures var t := Next(s, Unlock(c));
            && t.sent == []
            && (!s.locked || c in s.users ==> t.answer == Ok("") && t.state == State(s.users, false, s.open, s.logs))
            && (s.locked && c !in s.users ==> t.answer == Err(LockedByAnother) && t.state == s)
  {}

  lemma ReleaseLaw(s: State, c: Conn)
    ensures var t := Next(s, Release(c));
            && t.sent == [] && t.answer == Ok("")
            && t.state == State(s.users - {c}, s.locked && c !in s.users, s.open, s.logs - {c})
  {
    if c !in s.users {
      assert s.users - {c} == s.users;
    }
  }

  lemma CloseLaw(s: State)
    ensures Next(s, Close) == Step(State({}, false, false, map[]), Ok(""), [])
  {}

  // The log requests change the log of their connection only.
  lemma LogLaws(s: State, c: Conn)
    ensures Next(s, LogStart(c)) == Step(s.(logs := s.logs[c := []]), Ok(""), [])
    ensures Next(s, LogFinish(c)) == Step(s.(logs := s.logs - {c}), Ok(""), [])
    ensures c !in s.logs ==> Next(s, LogGet(c)) == Step(s, Err(LoggingOff), [])
    ensures c in s.logs && s.logs[c] == [] ==> Next(s, LogGet(c)).answer == Ok("")
    ensures c in s.logs && s.logs[c] != [] ==>
              var n, q := |s.logs[c]| - 1, s.logs[c];
              Next(s, LogGet(c)).answer.Ok? &&
              Next(s, LogGet(c)).answer.value == Next(s.(logs := map[c := q[..n]]), LogGet(c)).answer.value + q[n]
    ensures c in s.logs ==> Next(s, LogGet(c)).state == s.(logs := s.logs[c := []])
  {
    if c in s.logs && s.logs[c] != [] {
      var n, q := |s.logs[c]| - 1, s.logs[c];
      ConcatAppend(q[..n], [q[n]]);
      assert q == q[..n] + [q[n]] && Concat([q[n]]) == q[n];
    }
  }
}
