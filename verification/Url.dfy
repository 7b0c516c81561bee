/** Request paths: built by the client (server/device_c.cpp) and taken apart by
    the server (server/dev_manager.cpp), after the escaping of the transport
    has been undone. */
module Url {
  import opened Results

  // An action, a device and a message.
  datatype Path = Path(act: string, arg: string, msg: string)

  // The client leaves an empty device and an empty message out.
  function Build(p: Path): string {
    "/" + p.act + (if p.arg != "" then "/" + p.arg else "") + (if p.msg != "" then "/" + p.msg else "")
  }

  // Position of the first slash at or after start.
  function FindSlash(url: string, start: nat): (p: Option<nat>)
    requires start <= |url|
    ensures p.None? ==> forall i :: start <= i < |url| ==> url[i] != '/'
    ensures p.Some? ==> start <= p.value < |url| && url[p.value] == '/'
    ensures p.Some? ==> forall i :: start <= i < p.value ==> url[i] != '/'
    decreases |url| - start
  {
    if start == |url| then None
    else if url[start] == '/' then Some(start)
    else FindSlash(url, start + 1)
  }

  function AfterLeadingSlash(url: string): string {
    if url != "" && url[0] == '/' then url[1..] else url
  }

  // At most n splits at the first slash of what is left.
  function SplitUpTo(text: string, n: nat): (parts: seq<string>)
    ensures 1 <= |parts| <= n + 1
    decreases n
  {
    var p := FindSlash(text, 0);
    if n == 0 || p.None? then [text] else [text[..p.value]] + SplitUpTo(text[p.value + 1..], n - 1)
  }

  // Three parts; those that are missing are empty.
  function Parse(url: string): Path {
    var parts := SplitUpTo(AfterLeadingSlash(url), 2);
    Path(parts[0], if |parts| > 1 then parts[1] else "", if |parts| > 2 then parts[2] else "")
  }

  method ParseUrl(url: string) returns (ret: seq<string>)
    ensures |ret| == 3 && Path(ret[0], ret[1], ret[2]) == Parse(url)
  {
    hide FindSlash, Found, Parse;
    ret := ["", "", ""];
    var p1, i := 0, 0;
    if |url| > 0 && url[0] == '/' { p1 := p1 + 1; }
    FoundNone(url);
    while i < 2
      invariant 0 <= i <= 2 && 0 <= p1 <= |url|
      invariant Found(url, ret, i, p1, 2 - i)
    {
      var p2 := FindSlash(url, p1);
      FoundNext(url, ret, i, p1);
      if p2.None? { break; }
      ret := ret[i := url[p1..p2.value]];
      p1 := p2.value + 1;
      i := i + 1;
    }
    FoundLast(url, ret, i, p1);
    ret := ret[i := url[p1..]];
  }

  // The first i parts are in place, and what follows is to be split n times.
  ghost predicate Found(url: string, ret: seq<string>, i: nat, p1: nat, n: nat) {
    && |ret| == 3 && i <= 2 && p1 <= |url|
    && (forall j :: i <= j < 3 ==> ret[j] == "")
    && SplitUpTo(AfterLeadingSlash(url), 2) == ret[..i] + SplitUpTo(url[p1..], n)
  }

  lemma FoundNone(url: string)
    ensures Found(url, ["", "", ""], 0, if |url| > 0 && url[0] == '/' then 1 else 0, 2)
  {
    hide SplitUpTo;
  }

  // One turn of the loop.
  lemma FoundNext(url: string, ret: seq<string>, i: nat, p1: nat)
    requires i < 2 && p1 <= |url| && Found(url, ret, i, p1, 2 - i)
    ensures |ret| == 3
    ensures match FindSlash(url, p1)
            case None => Found(url, ret, i, p1, 0)
            case Some(p2) => Found(url, ret[i := url[p1..p2]], i + 1, p2 + 1, 2 - (i + 1))
  {
    hide FindSlash, SplitUpTo, AfterLeadingSlash;
    SplitNext(ret[..i], url, p1, 2 - i);
    if FindSlash(url, p1).Some? {
      PartSet(ret, i, url[p1..FindSlash(url, p1).value]);
    }
  }

  lemma FoundLast(url: string, ret: seq<string>, i: nat, p1: nat)
    requires i <= 2 && p1 <= |url| && Found(url, ret, i, p1, 0)
    ensures |ret| == 3
    ensures var t := ret[i := url[p1..]]; Path(t[0], t[1], t[2]) == Parse(url)
  {
    hide FindSlash, SplitUpTo, AfterLeadingSlash;
    SplitNone(url[p1..]);
    PartSet(ret, i, url[p1..]);
    ParseIs(url, ret[i := url[p1..]], i);
  }

  lemma ParseIs(url: string, ret: seq<string>, i: nat)
    requires |ret| == 3 && i <= 2 && SplitUpTo(AfterLeadingSlash(url), 2) == ret[..i + 1]
    requires forall j :: i < j < 3 ==> ret[j] == ""
    ensures Path(ret[0], ret[1], ret[2]) == Parse(url)
  {
    hide FindSlash, SplitUpTo, AfterLeadingSlash;
  }

  lemma PartSet(ret: seq<string>, i: nat, part: string)
    requires i < |ret|
    ensures ret[i := part][..i + 1] == ret[..i] + [part]
  {}

  lemma SplitNone(text: string)
    ensures SplitUpTo(text, 0) == [text]
  {}

  // One turn of the loop takes one part off what is left.
  lemma SplitNext(found: seq<string>, url: string, start: nat, n: nat)
    requires start <= |url| && n > 0
    ensures found + SplitUpTo(url[start..], n) ==
            match FindSlash(url, start)
            case None => found + SplitUpTo(url[start..], 0)
            case Some(p) => found + [url[start..p]] + SplitUpTo(url[p + 1..], n - 1)
  {
    hide FindSlash;
    SameSlash(url, start, url[start..], 0);
  }

  // The search depends on what is left only.
  lemma {:induction false} SameSlash(u: string, i: nat, v: string, j: nat)
    requires i <= |u| && j <= |v| && u[i..] == v[j..]
    ensures match FindSlash(u, i)
            case None => FindSlash(v, j) == None
            case Some(p) =>
              && FindSlash(v, j) == Some(p - i + j)
              && u[i..p] == v[j..p - i + j] && u[p + 1..] == v[p - i + j + 1..]
    decreases |u| - i
  {}

  // The first two parts hold no slash, and the parts put together with
  // slashes give the path back, except for a leading slash and for trailing
  // slashes that separate empty parts.
  lemma ParseMeaning(url: string)
    ensures var p, rest := Parse(url), AfterLeadingSlash(url);
            && '/' !in p.act && '/' !in p.arg
            && ((rest == p.act && p.arg == "" && p.msg == "")
                || (rest == p.act + "/" + p.arg && p.msg == "")
                || rest == p.act + "/" + p.arg + "/" + p.msg)
  {
    hide FindSlash, AfterLeadingSlash, SplitUpTo;
    var p, rest := Parse(url), AfterLeadingSlash(url);
    SplitMeaning(rest, 2);
    var parts := SplitUpTo(rest, 2);
    if |parts| > 1 {
      var more: string :| rest == parts[0] + "/" + more && SplitUpTo(more, 1) == parts[1..];
      SplitMeaning(more, 1);
      if |parts| > 2 {
        SplitNone(parts[2]);
        var last: string :| more == parts[1] + "/" + last && SplitUpTo(last, 0) == parts[2..];
        SplitNone(last);
        assert p.act + "/" + (p.arg + "/" + p.msg) == p.act + "/" + p.arg + "/" + p.msg;
      }
    }
  }

  // The first part holds no slash if there is another, and the others are the
  // split of what follows it.
  lemma SplitMeaning(text: string, n: nat)
    requires n > 0
    ensures var parts := SplitUpTo(text, n);
            && '/' !in parts[0]
            && (|parts| == 1 ==> parts[0] == text)
            && (|parts| > 1 ==>
                  exists more: string :: text == parts[0] + "/" + more && SplitUpTo(more, n - 1) == parts[1..])
  {
    var p := FindSlash(text, 0);
    hide FindSlash;
    if p.Some? {
      var more := text[p.value + 1..];
      assert text == text[..p.value] + "/" + more;
      assert SplitUpTo(text, n) == [text[..p.value]] + SplitUpTo(more, n - 1);
    }
  }

  lemma {:induction false} FirstSlash(part: string, more: string, url: string, start: nat)
    requires start <= |url| && url[start..] == part + more && '/' !in part
    requires more == "" || more[0] == '/'
    ensures FindSlash(url, start) == if more == "" then None else Some(start + |part|)
    decreases part
  {
    if part != "" {
      assert url[start] == part[0];
      assert url[start + 1..] == part[1..] + more;
      FirstSlash(part[1..], more, url, start + 1);
    } else if more != "" {
      assert url[start] == more[0];
    } else {
      assert |url| == start;
    }
  }

  lemma SplitAtSlash(part: string, more: string, n: nat)
    requires '/' !in part
    ensures SplitUpTo(part, n) == [part]
    ensures n > 0 ==> SplitUpTo(part + ("/" + more), n) == [part] + SplitUpTo(more, n - 1)
  {
    hide FindSlash;
    assert part + "" == part;
    FirstSlash(part, "", part, 0);
    var whole := part + ("/" + more);
    FirstSlash(part, "/" + more, whole, 0);
    assert whole[..|part|] == part && whole[|part| + 1..] == more;
  }

  // A device and a message, each with its slash if it is not empty.
  function Tail(p: Path): string {
    (if p.arg != "" then "/" + p.arg else "") + (if p.msg != "" then "/" + p.msg else "")
  }

  lemma BuildRest(p: Path)
    ensures AfterLeadingSlash(Build(p)) == p.act + Tail(p)
  {
    assert Build(p) == "/" + (p.act + Tail(p));
  }

  // Up to three parts put together are split into the same parts.
  lemma SplitJoined(a: string, b: string, c: string)
    requires '/' !in a && '/' !in b
    ensures SplitUpTo(a, 2) == [a]
    ensures SplitUpTo(a + ("/" + b), 2) == [a, b]
    ensures SplitUpTo(a + ("/" + (b + ("/" + c))), 2) == [a, b, c]
  {
    hide *;
    SplitAtSlash(a, b, 2);
    SplitAtSlash(a, b + ("/" + c), 2);
    SplitAtSlash(b, c, 1);
    SplitNone(c);
    assert [a] + [b] == [a, b] && [a] + ([b] + [c]) == [a, b, c];
  }

  lemma TailCases(p: Path)
    ensures p.arg == "" && p.msg == "" ==> p.act + Tail(p) == p.act
    ensures p.arg != "" && p.msg == "" ==> Tail(p) == "/" + p.arg
    ensures p.arg != "" && p.msg != "" ==> Tail(p) == "/" + (p.arg + ("/" + p.msg))
    ensures p.arg == "" && p.msg != "" ==> Tail(p) == "/" + p.msg
  {}

  lemma ParseParts(p: Path)
    requires '/' !in p.act && '/' !in p.arg && (p.msg != "" ==> p.arg != "")
    ensures Parse(Build(p)) == p
  {
    hide SplitUpTo, AfterLeadingSlash, Build, Tail;
    BuildRest(p);
    TailCases(p);
    SplitJoined(p.act, p.arg, p.msg);
  }

  lemma ParseNoDevice(p: Path)
    requires '/' !in p.act && p.arg == "" && p.msg != ""
    ensures Parse(Build(p)) != p
  {}

  // Parsing what the client builds gives the parts back exactly when neither
  // the action nor the device holds a slash, and a message comes with a
  // device.  The message may hold slashes.
  lemma BuildParseIff(p: Path)
    ensures Parse(Build(p)) == p <==> '/' !in p.act && '/' !in p.arg && (p.msg != "" ==> p.arg != "")
  {
    ParseMeaning(Build(p));
    hide Build, Parse;
    if '/' !in p.act && '/' !in p.arg {
      if p.msg != "" && p.arg == "" {
        ParseNoDevice(p);
      } else {
        ParseParts(p);
      }
    }
  }
}
