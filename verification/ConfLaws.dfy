/** What a device list configures, and which fault of a bad one is reported
    (server/dev_manager.cpp, read_conf). */
module ConfLaws {
  import opened Results
  import opened ConfModel

  // The arguments of a line: of the values given to a parameter, the last.
  lemma {:induction false} PutLast(args: map<string, string>, words: Words, i: nat)
    requires |words| % 2 == 0 && PutAll(args, words).Ok? && i < |words| / 2
    requires forall j :: i < j < |words| / 2 ==> words[2 * j] != words[2 * i]
    ensures words[2 * i] != "" && words[2 * i][1..] in PutAll(args, words).value
    ensures PutAll(args, words).value[words[2 * i][1..]] == words[2 * i + 1]
    decreases words
  {
    var more, args' := words[2..], args[words[0][1..] := words[1]];
    assert forall j :: 0 <= j < |more| / 2 ==> more[2 * j] == words[2 * (j + 1)];
    if i == 0 {
      assert words[2 * 0] == words[0] == "-" + words[0][1..];
      forall j | 0 <= j < |more| / 2
        ensures more[2 * j] != "-" + words[0][1..]
      {
        assert words[2 * (j + 1)] != words[2 * 0];
      }
      PutNone(args', more, words[0][1..]);
    } else {
      assert more[2 * (i - 1)] == words[2 * i] && more[2 * (i - 1) + 1] == words[2 * i + 1];
      forall j | i - 1 < j < |more| / 2
        ensures more[2 * j] != more[2 * (i - 1)]
      {
        assert words[2 * (j + 1)] != words[2 * i];
      }
      PutLast(args', more, i - 1);
    }
  }

  // And no others.
  lemma {:induction false} PutNone(args: map<string, string>, words: Words, k: string)
    requires |words| % 2 == 0 && PutAll(args, words).Ok?
    requires forall i :: 0 <= i < |words| / 2 ==> words[2 * i] != "-" + k
    ensures k in PutAll(args, words).value <==> k in args
    ensures k in args ==> PutAll(args, words).value[k] == args[k]
    decreases words
  {
    if words != [] {
      var more := words[2..];
      assert words[2 * 0] == words[0] == "-" + words[0][1..];
      forall i | 0 <= i < |more| / 2
        ensures more[2 * i] != "-" + k
      {
        assert words[2 * (i + 1)] != "-" + k;
      }
      PutNone(args[words[0][1..] := words[1]], more, k);
    }
  }

  // What a good line configures: the driver is the second word; a parameter
  // has the value after its last mention, its dash taken off; and what is not
  // mentioned is not there.
  lemma ParsedConf(vs: Words, i: nat, k: string)
    requires vs != [] && ParseLine(vs).Ok?
    ensures |vs| >= 2 && |vs| % 2 == 0
    ensures ParseLine(vs).value.drv == vs[1]
    ensures 1 <= i < |vs| / 2 && vs[2 * i] == "-" + k && (forall j :: i < j < |vs| / 2 ==> vs[2 * j] != vs[2 * i]) ==>
              k in ParseLine(vs).value.args && ParseLine(vs).value.args[k] == vs[2 * i + 1]
    ensures (forall j :: 1 <= j < |vs| / 2 ==> vs[2 * j] != "-" + k) ==> k !in ParseLine(vs).value.args
  {
    var words := vs[2..];
    hide PutAll;
    assert forall j :: 0 <= j < |words| / 2 ==> words[2 * j] == vs[2 * (j + 1)];
    if 1 <= i < |vs| / 2 && vs[2 * i] == "-" + k && (forall j :: i < j < |vs| / 2 ==> vs[2 * j] != vs[2 * i]) {
      assert words[2 * (i - 1)] == vs[2 * i] && words[2 * (i - 1) + 1] == vs[2 * i + 1] && ("-" + k)[1..] == k;
      forall j | i - 1 < j < |words| / 2
        ensures words[2 * j] != words[2 * (i - 1)]
      {
        assert vs[2 * (j + 1)] != vs[2 * i];
      }
      PutLast(map[], words, i - 1);
    }
    if forall j :: 1 <= j < |vs| / 2 ==> vs[2 * j] != "-" + k {
      forall j | 0 <= j < |words| / 2
        ensures words[2 * j] != "-" + k
      {
        assert vs[2 * (j + 1)] != "-" + k;
      }
      PutNone(map[], words, k);
    }
  }

  // Which names and parameters are good.
  lemma GoodNameIff(name: string)
    ensures GoodName(name) <==>
            && name != "" && ' ' !in name && '\n' !in name && '\t' !in name
            && '/' !in name && '\\' !in name && '\0' !in name
  {
    if !GoodName(name) && name != "" {
      var i :| 0 <= i < |name| && name[i] in BAD_SYMBOLS;
      assert name[i] in name;
    }
  }

  lemma GoodParameterIff(word: string)
    ensures GoodParameter(word) <==> exists k :: k != "" && word == "-" + k
  {
    if GoodParameter(word) {
      assert word == "-" + word[1..];
    }
  }

  // Which fault of a bad line is reported: the first in this order.
  lemma ParseLineFault(vs: Words)
    requires vs != [] && ParseLine(vs).Err?
    ensures var e := ParseLine(vs).error;
            && (e == TooFewWords <==> |vs| == 1)
            && (e == EmptyName <==> |vs| > 1 && vs[0] == "")
            && (e == BadSymbol(vs[0]) <==> |vs| > 1 && vs[0] != "" && !GoodName(vs[0]))
            && (e == OddParameters <==> |vs| > 1 && GoodName(vs[0]) && |vs| % 2 == 1)
            && (|vs| > 1 && GoodName(vs[0]) && |vs| % 2 == 0 ==>
                  exists i :: 1 <= i < |vs| / 2 && !GoodParameter(vs[2 * i]) && e == BadParameter(vs[2 * i])
                              && forall j :: 1 <= j < i ==> GoodParameter(vs[2 * j]))
  {
    if |vs| > 1 && GoodName(vs[0]) && |vs| % 2 == 0 {
      var i := PutAllFault(map[], vs[2..]);
      assert forall j :: 0 <= j < |vs[2..]| / 2 ==> vs[2..][2 * j] == vs[2 * (j + 1)];
      forall j | 1 <= j < i + 1
        ensures GoodParameter(vs[2 * j])
      {
        assert GoodParameter(vs[2..][2 * (j - 1)]);
      }
      assert !GoodParameter(vs[2 * (i + 1)]);
    }
  }

  lemma {:induction false} PutAllFault(args: map<string, string>, words: Words) returns (i: nat)
    requires |words| % 2 == 0 && PutAll(args, words).Err?
    ensures i < |words| / 2 && !GoodParameter(words[2 * i]) && PutAll(args, words).error == BadParameter(words[2 * i])
    ensures forall j :: 0 <= j < i ==> GoodParameter(words[2 * j])
    decreases words
  {
    if GoodParameter(words[0]) {
      var m := PutAllFault(args[words[0][1..] := words[1]], words[2..]);
      i := m + 1;
      assert forall j :: 0 <= j < |words[2..]| / 2 ==> words[2..][2 * j] == words[2 * (j + 1)];
      forall j | 0 <= j < i
        ensures GoodParameter(words[2 * j])
      {
        if j == 0 {
          assert words[2 * 0] == words[0];
        } else {
          assert GoodParameter(words[2..][2 * (j - 1)]);
        }
      }
    } else {
      i := 0;
      assert words[2 * 0] == words[0];
    }
  }

  // ---------------------------------------------------------------------
  // Faults of a file.

  lemma {:induction false} BodyOfBody(body: seq<Words>)
    requires forall i :: 0 <= i < |body| ==> body[i] != []
    ensures Body(body) == body
  {
    if body != [] {
      BodyOfBody(body[1..]);
      assert body == [body[0]] + body[1..];
    }
  }

  // The first line that cannot be added to the lines before it.
  lemma {:induction false} FirstFault(table: Table, lines: seq<Words>) returns (k: nat)
    requires AddLines(table, lines).Err?
    ensures k < |Body(lines)| && AddLines(table, Body(lines)[..k]).Ok?
    ensures AddLine(AddLines(table, Body(lines)[..k]).value, Body(lines)[k]) == Err(AddLines(table, lines).error)
    decreases lines
  {
    hide AddLine;
    var body := Body(lines);
    var more := AddLine(table, lines[0]);
    if more.Err? {
      k := 0;
      assert body[..0] == [];
    } else {
      var m := FirstFault(more.value, lines[1..]);
      k := m + 1;
      assert body[..k][0] == lines[0] && body[..k][1..] == Body(lines[1..])[..m];
      assert body[k] == Body(lines[1..])[m];
    }
  }

  // Line k has this fault: its own, or the name of an earlier line.
  ghost predicate FaultAt(body: seq<Words>, k: nat, e: ConfError)
    requires forall i :: 0 <= i < |body| ==> body[i] != []
  {
    && k < |body|
    && Acceptable(map[], body[..k])
    && (ParseLine(body[k]) == Err(e)
        || (ParseLine(body[k]).Ok? && e == Duplicate(body[k][0]) && exists j :: 0 <= j < k && body[j][0] == body[k][0]))
  }

  // A refused file cannot be opened, or it has a first line that is faulty
  // by itself or names a device again, and this is what is reported.
  lemma FileFault(file: Option<seq<Words>>)
    requires ReadFile(file).Err?
    ensures file == None ==> ReadFile(file) == Err(CannotOpen)
    ensures file.Some? ==> exists k :: FaultAt(Body(file.value), k, ReadFile(file).error)
  {
    if file.Some? {
      var body, e := Body(file.value), ReadFile(file).error;
      var k := FirstFault(map[], file.value);
      BodyOfBody(body[..k]);
      AddLinesIff(map[], body[..k]);
      var t := AddLines(map[], body[..k]).value;
      if ParseLine(body[k]).Ok? {
        assert body[k][0] in t;
        var j :| 0 <= j < k && body[..k][j][0] == body[k][0];
        assert body[j] == body[..k][j];
      }
      hide ParseLine, AddLines, Acceptable, Extends;
      assert FaultAt(body, k, e);
    }
  }
}
