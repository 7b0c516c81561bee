/** The device list file, as the lists of words of its lines
    (server/dev_manager.cpp, read_conf).  How lines are split into words is not
    part of this model; an empty list marks the end of the file. */
module ConfModel {
  import opened Results

  type Words = seq<string>

  datatype Conf = Conf(drv: string, args: map<string, string>)

  datatype ConfError =
    | CannotOpen
    | TooFewWords
    | EmptyName
    | BadSymbol(name: string)
    | OddParameters
    | BadParameter(word: string)
    | Duplicate(name: string)

  // A C string ends at a zero character, so this one is refused too.
  const BAD_SYMBOLS: set<char> := {' ', '\n', '\t', '/', '\\', '\0'}

  predicate GoodName(name: string) {
    name != "" && forall i :: 0 <= i < |name| ==> name[i] !in BAD_SYMBOLS
  }

  predicate GoodParameter(word: string) { |word| >= 2 && word[0] == '-' }

  // Pairs of a parameter and a value, put in one after the other.
  function PutAll(args: map<string, string>, words: Words): Result<map<string, string>, ConfError>
    requires |words| % 2 == 0
    decreases words
  {
    if words == [] then Ok(args)
    else if !GoodParameter(words[0]) then Err(BadParameter(words[0]))
    else PutAll(args[words[0][1..] := words[1]], words[2..])
  }

  function ParseLine(vs: Words): Result<Conf, ConfError>
    requires vs != []
  {
    if |vs| < 2 then Err(TooFewWords)
    else if vs[0] == "" then Err(EmptyName)
    else if !GoodName(vs[0]) then Err(BadSymbol(vs[0]))
    else if |vs| % 2 != 0 then Err(OddParameters)
    else
      match PutAll(map[], vs[2..])
      case Err(e) => Err(e)
      case Ok(args) => Ok(Conf(vs[1], args))
  }

  type Table = map<string, Conf>

  function AddLine(table: Table, vs: Words): Result<Table, ConfError>
    requires vs != []
  {
    match ParseLine(vs)
    case Err(e) => Err(e)
    case Ok(conf) => if vs[0] in table then Err(Duplicate(vs[0])) else Ok(table[vs[0] := conf])
  }

  function AddLines(table: Table, lines: seq<Words>): Result<Table, ConfError>
    decreases lines
  {
    if lines == [] || lines[0] == [] then Ok(table)
    else
      match AddLine(table, lines[0])
      case Err(e) => Err(e)
      case Ok(more) => AddLines(more, lines[1..])
  }

  // The whole file; None is a file that cannot be opened.
  function ReadFile(file: Option<seq<Words>>): Result<Table, ConfError> {
    match file
    case None => Err(CannotOpen)
    case Some(lines) => AddLines(map[], lines)
  }

  // ---------------------------------------------------------------------

  // The lines that are looked at.
  function Body(lines: seq<Words>): (body: seq<Words>)
    ensures body <= lines
    ensures forall i :: 0 <= i < |body| ==> body[i] != []
  {
    if lines == [] || lines[0] == [] then [] else [lines[0]] + Body(lines[1..])
  }

  // What a line must look like, without the order of the checks.
  ghost predicate GoodLine(vs: Words) {
    && |vs| >= 2 && |vs| % 2 == 0 && GoodName(vs[0])
    && forall i :: 1 <= i < |vs| / 2 ==> GoodParameter(vs[2 * i])
  }

  // Good lines that name devices of their own, none of them in the table.
  ghost predicate Acceptable(table: Table, body: seq<Words>)
    requires forall i :: 0 <= i < |body| ==> body[i] != []
  {
    && (forall i :: 0 <= i < |body| ==> GoodLine(body[i]))
    && (forall i :: 0 <= i < |body| ==> body[i][0] !in table)
    && (forall i, j :: 0 <= i < j < |body| ==> body[i][0] != body[j][0])
  }

  // t is the table with the devices of the lines, and no others, added.
  ghost predicate Extends(t: Table, table: Table, body: seq<Words>)
    requires forall i :: 0 <= i < |body| ==> body[i] != []
  {
    && (forall n :: n in t <==> n in table || exists i :: 0 <= i < |body| && body[i][0] == n)
    && (forall n :: n in table ==> n in t && t[n] == table[n])
    && (forall i :: 0 <= i < |body| ==> body[i][0] in t && ParseLine(body[i]) == Ok(t[body[i][0]]))
  }

  lemma {:induction false} PutAllIff(args: map<string, string>, words: Words)
    requires |words| % 2 == 0
    ensures PutAll(args, words).Ok? <==> forall i :: 0 <= i < |words| / 2 ==> GoodParameter(words[2 * i])
    decreases words
  {
    if words != [] && GoodParameter(words[0]) {
      var args' := args[words[0][1..] := words[1]];
      PutAllIff(args', words[2..]);
      assert forall i :: 0 <= i < |words[2..]| / 2 ==> words[2..][2 * i] == words[2 * (i + 1)];
      if PutAll(args', words[2..]).Ok? {
        forall i | 0 <= i < |words| / 2
          ensures GoodParameter(words[2 * i])
        {
          if i > 0 {
            assert GoodParameter(words[2..][2 * (i - 1)]);
          }
        }
      }
    } else if words != [] {
      assert words[2 * 0] == words[0];
    }
  }

  lemma ParseLineIff(vs: Words)
    requires vs != []
    ensures ParseLine(vs).Ok? <==> GoodLine(vs)
    ensures ParseLine(vs).Ok? ==> ParseLine(vs).value.drv == vs[1]
  {
    if |vs| >= 2 && |vs| % 2 == 0 {
      PutAllIff(map[], vs[2..]);
      assert forall i :: 0 <= i < |vs[2..]| / 2 ==> vs[2..][2 * i] == vs[2 * (i + 1)];
      if GoodLine(vs) {
        forall i | 0 <= i < |vs[2..]| / 2
          ensures GoodParameter(vs[2..][2 * i])
        {
          assert GoodParameter(vs[2 * (i + 1)]);
        }
      } else if forall i :: 0 <= i < |vs[2..]| / 2 ==> GoodParameter(vs[2..][2 * i]) {
        forall i | 1 <= i < |vs| / 2
          ensures GoodParameter(vs[2 * i])
        {
          assert GoodParameter(vs[2..][2 * (i - 1)]);
        }
      }
    }
  }

  lemma AcceptableCons(table: Table, vs: Words, conf: Conf, rest: seq<Words>)
    requires vs != [] && vs[0] !in table && GoodLine(vs)
    requires forall i :: 0 <= i < |rest| ==> rest[i] != []
    ensures Acceptable(table, [vs] + rest) <==> Acceptable(table[vs[0] := conf], rest)
  {
    hide GoodLine;
    var body := [vs] + rest;
    if Acceptable(table, body) {
      assert body[0] == vs;
      forall i | 0 <= i < |rest|
        ensures GoodLine(rest[i]) && rest[i][0] !in table && rest[i][0] != vs[0]
      {
        assert rest[i] == body[i + 1];
      }
      forall i, j | 0 <= i < j < |rest|
        ensures rest[i][0] != rest[j][0]
      {
        assert rest[i] == body[i + 1] && rest[j] == body[j + 1];
      }
    }
    if Acceptable(table[vs[0] := conf], rest) {
      forall i | 0 <= i < |body|
        ensures GoodLine(body[i]) && body[i][0] !in table
      {
        if i > 0 {
          assert body[i] == rest[i - 1];
        }
      }
      forall i, j | 0 <= i < j < |body|
        ensures body[i][0] != body[j][0]
      {
        assert body[j] == rest[j - 1];
        if i > 0 {
          assert body[i] == rest[i - 1];
        }
      }
    }
  }

  lemma ExtendsCons(t: Table, table: Table, vs: Words, conf: Conf, rest: seq<Words>)
    requires vs != [] && vs[0] !in table && ParseLine(vs) == Ok(conf)
    requires forall i :: 0 <= i < |rest| ==> rest[i] != []
    requires Extends(t, table[vs[0] := conf], rest)
    ensures Extends(t, table, [vs] + rest)
  {
    hide ParseLine;
    var body, more := [vs] + rest, table[vs[0] := conf];
    assert body[0] == vs;
    forall n
      ensures n in t <==> n in table || exists i :: 0 <= i < |body| && body[i][0] == n
    {
      if n in more && n !in table {
        assert body[0][0] == n;
      } else if i :| 0 <= i < |rest| && rest[i][0] == n {
        assert body[i + 1][0] == n;
      }
      if i :| 0 <= i < |body| && body[i][0] == n {
        if i > 0 {
          assert rest[i - 1][0] == n;
        }
      }
    }
    forall i | 0 <= i < |body|
      ensures body[i][0] in t && ParseLine(body[i]) == Ok(t[body[i][0]])
    {
      if i > 0 {
        assert body[i] == rest[i - 1];
      }
    }
  }

  lemma {:induction false} AddLinesIff(table: Table, lines: seq<Words>)
    ensures AddLines(table, lines).Ok? <==> Acceptable(table, Body(lines))
    ensures AddLines(table, lines).Ok? ==> Extends(AddLines(table, lines).value, table, Body(lines))
    decreases lines
  {
    var body := Body(lines);
    if body != [] {
      var vs, rest := lines[0], Body(lines[1..]);
      ParseLineIff(vs);
      hide ParseLine, GoodLine;
      assert body == [vs] + rest && body[0] == vs;
      var more := AddLine(table, vs);
      if more.Ok? {
        AddLinesIff(more.value, lines[1..]);
        var conf := ParseLine(vs).value;
        AcceptableCons(table, vs, conf, rest);
        if AddLines(table, lines).Ok? {
          ExtendsCons(AddLines(table, lines).value, table, vs, conf, rest);
        }
      }
    }
  }

  // A file is accepted exactly when it can be opened and its lines are good
  // and name different devices; the table then holds exactly these devices.
  lemma FileAcceptedIff(file: Option<seq<Words>>)
    ensures ReadFile(file).Ok? <==> file.Some? && Acceptable(map[], Body(file.value))
    ensures ReadFile(file).Ok? ==> Extends(ReadFile(file).value, map[], Body(file.value))
  {
    if file.Some? {
      AddLinesIff(map[], file.value);
    }
  }
}
