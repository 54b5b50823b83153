/** The parser for ModemManager's key-value output (`mmcli -K`) of
    vcuui/mm.py (class `MmResult`): one `key : value` pair per line, and
    typed lookups of the values. Running mmcli is left out: its output is a
    parameter. */
module Mm {
  import opened Common

  /** `_parseline`: the first whitespace-separated token is the key and the
      third the value; a missing token is Python's None. */
  function ParseLine(line: string): (Option<string>, Option<string>) {
    var t := SplitWs(line);
    (if |t| >= 1 then Some(t[0]) else None, if |t| >= 3 then Some(t[2]) else None)
  }

  lemma SplitWsSpaced(s: string)
    ensures SplitWs(" " + s) == SplitWs(s)
  {
    assert (" " + s)[0] == ' ' && (" " + s)[1..] == s;
  }

  /** A word after a blank is the next token. */
  lemma SplitWsSpacedWord(w: string, s: string)
    requires w != [] && NoSpace(w) && (s == [] || IsSpace(s[0]))
    ensures SplitWs(" " + (w + s)) == [w] + SplitWs(s)
  {
    SplitWsSpaced(w + s);
    SplitWsWord(w, s);
  }

  lemma TokensOfKeyValue(k: string, v: string, rest: string)
    requires k != [] && NoSpace(k) && v != [] && NoSpace(v)
    requires rest == [] || IsSpace(rest[0])
    ensures SplitWs(k + (" " + (":" + (" " + (v + rest))))) == [k, ":", v] + SplitWs(rest)
  {
    var r := SplitWs(rest);
    var t1 := " " + (v + rest);
    SplitWsSpacedWord(v, rest);
    var t2 := " " + (":" + t1);
    assert NoSpace(":") && IsSpace(t1[0]);
    SplitWsSpacedWord(":", t1);
    SplitWsWord(k, t2);
    ConsThree(k, ":", v, r);
  }

  lemma ConsThree(a: string, b: string, c: string, r: seq<string>)
    ensures [a] + ([b] + ([c] + r)) == [a, b, c] + r
  {
  }

  lemma KeyValueText(k: string, v: string, rest: string)
    ensures k + " : " + v + rest == k + (" " + (":" + (" " + (v + rest))))
  {
  }

  /** A line `<key> : <value>` gives its key and value, and only the first
      word of the value is kept. */
  lemma ParseLineKeyValue(k: string, v: string, rest: string)
    requires k != [] && NoSpace(k) && v != [] && NoSpace(v)
    requires rest == [] || IsSpace(rest[0])
    ensures ParseLine(k + " : " + v + rest) == (Some(k), Some(v))
  {
    KeyValueText(k, v, rest);
    TokensOfKeyValue(k, v, rest);
  }

  /** A key without a value, and a key glued to its value, have no value. */
  lemma ParseLineWithoutValue(k: string)
    requires k != [] && NoSpace(k)
    ensures ParseLine(k + " :") == (Some(k), None)
    ensures ParseLine(k) == (Some(k), None)
  {
    assert SplitWs(" :") == [":"] by {
      assert NoSpace(":");
      SplitWsWord(":", []);
      assert ":" + [] == ":";
      SplitWsSpaced(":");
    }
    assert SplitWs(k + " :") == [k, ":"] by {
      SplitWsWord(k, " :");
    }
    assert SplitWs(k) == [k] by {
      SplitWsWord(k, []);
      assert k + [] == k;
    }
  }

  /** The module's own tests of `_parseline`. */
  lemma ParseLineExamples()
    ensures ParseLine("key : 1") == (Some("key"), Some("1"))
    ensures ParseLine("key :") == (Some("key"), None)
    ensures ParseLine("key:1") == (Some("key:1"), None)
  {
    assert NoSpace("key") && NoSpace("1") && NoSpace("key:1");
    ParseLineKeyValue("key", "1", "");
    assert "key" + " : " + "1" + "" == "key : 1";
    ParseLineWithoutValue("key");
    assert "key" + " :" == "key :";
    ParseLineWithoutValue("key:1");
  }

  lemma ParseLineKeepsOneWord()
    ensures ParseLine("key : any text") == (Some("key"), Some("any"))
  {
    assert NoSpace("key") && NoSpace("any") && IsSpace(" text"[0]);
    ParseLineKeyValue("key", "any", " text");
    assert "key" + " : " + "any" + " text" == "key : any text";
  }

  /** `_to_dict`: every line's pair, later lines overwriting earlier ones. */
  function ToDict(lines: seq<string>): map<Option<string>, Option<string>> {
    if lines == [] then map[]
    else
      var kv := ParseLine(lines[|lines| - 1]);
      ToDict(lines[..|lines| - 1])[kv.0 := kv.1]
  }

  method BuildDict(lines: seq<string>) returns (res: map<Option<string>, Option<string>>)
    ensures res == ToDict(lines)
  {
    res := map[];
    for i := 0 to |lines|
      invariant res == ToDict(lines[..i])
    {
      assert lines[..i + 1][..i] == lines[..i];
      var kv := ParseLine(lines[i]);
      res := res[kv.0 := kv.1];
    }
    assert lines[..|lines|] == lines;
  }

  /** Line `i` is the last line with key `k`. */
  predicate LastWith(lines: seq<string>, k: Option<string>, i: int)
    requires 0 <= i < |lines|
  {
    ParseLine(lines[i]).0 == k && forall j :: i < j < |lines| ==> ParseLine(lines[j]).0 != k
  }

  /** A key is in the dictionary exactly when some line has it. */
  lemma {:induction false} ToDictKeys(lines: seq<string>, k: Option<string>)
    ensures k in ToDict(lines) <==> exists i :: 0 <= i < |lines| && ParseLine(lines[i]).0 == k
  {
    if lines != [] {
      var n := |lines|;
      var p := lines[..n - 1];
      var last := ParseLine(lines[n - 1]).0;
      ToDictKeys(p, k);
      assert k in ToDict(lines) <==> k == last || k in ToDict(p);
      if k in ToDict(p) {
        var i :| 0 <= i < |p| && ParseLine(p[i]).0 == k;
        assert lines[i] == p[i];
      } else if k != last {
        forall i | 0 <= i < n ensures ParseLine(lines[i]).0 != k {
          if i < n - 1 {
            assert lines[i] == p[i];
          }
        }
      }
    }
  }

  /** The value of a key is the one of the last line that has it. */
  lemma {:induction false} ToDictLastWins(lines: seq<string>, k: Option<string>)
    ensures k in ToDict(lines) ==>
      exists i :: 0 <= i < |lines| && LastWith(lines, k, i) && ToDict(lines)[k] == ParseLine(lines[i]).1
  {
    if lines != [] {
      var n := |lines|;
      var p := lines[..n - 1];
      if ParseLine(lines[n - 1]).0 == k {
        assert LastWith(lines, k, n - 1);
      } else if k in ToDict(p) {
        ToDictLastWins(p, k);
        var i :| 0 <= i < |p| && LastWith(p, k, i) && ToDict(p)[k] == ParseLine(p[i]).1;
        assert lines[i] == p[i];
        assert LastWith(lines, k, i);
      }
    }
  }

  /** The parsed output of one mmcli call. */
  datatype MmResult = MmResult(items: map<Option<string>, Option<string>>)

  /** `MmResult(stdout)`: the output split into lines, then parsed. */
  method FromStdout(stdout: string) returns (r: MmResult)
    ensures r.items == ToDict(Split(stdout, '\n'))
  {
    var lines := Split(stdout, '\n');
    var items := BuildDict(lines);
    r := MmResult(items);
  }

  predicate Exists(r: MmResult, name: string) {
    Some(name) in r.items
  }

  /** `text`: the value, None when the name is absent or has no value. */
  function Text(r: MmResult, name: string): Option<string> {
    if Exists(r, name) then r.items[Some(name)] else None
  }

  /** `id`: the integer after the last '/' of the value (the whole value
      when it has no '/'), None when the name is absent, has no value, or
      the text is not a number. */
  function Id(r: MmResult, name: string): Option<int> {
    if !Exists(r, name) then None
    else
      var line := r.items[Some(name)];
      if line.None? || line.value == "" then None
      else ParseInt(AfterLast(line.value, '/'), 10)
  }

  /** `dec`: a signed decimal; a value that is None raises TypeError, since
      only ValueError is caught. */
  function Dec(r: MmResult, name: string): Raising<Option<int>> {
    if !Exists(r, name) then Returned(None)
    else
      var val := r.items[Some(name)];
      if val.None? then Raised("TypeError") else Returned(ParseInt(val.value, 10))
  }

  /** `hex`: a signed base-16 number, with the same TypeError. */
  function Hex(r: MmResult, name: string): Raising<Option<int>> {
    if !Exists(r, name) then Returned(None)
    else
      var val := r.items[Some(name)];
      if val.None? then Raised("TypeError") else Returned(ParseInt(val.value, 16))
  }

  /** Every lookup gives None for a name that is not there. */
  lemma AbsentIsNone(r: MmResult, name: string)
    requires !Exists(r, name)
    ensures Text(r, name) == None && Id(r, name) == None
    ensures Dec(r, name) == Returned(None) && Hex(r, name) == Returned(None)
  {
  }

  lemma NoSlashInNumber(n: nat)
    ensures '/' !in ShowNat(n)
  {
  }

  /** An object path ending in `/<n>` gives the id n; a path ending in '/'
      gives None; a value without '/' is parsed whole. */
  lemma IdOfPath(r: MmResult, name: string, path: string, n: nat)
    requires Exists(r, name)
    ensures r.items[Some(name)] == Some(path + "/" + ShowNat(n)) ==> Id(r, name) == Some(n)
    ensures r.items[Some(name)] == Some(path + "/") ==> Id(r, name) == None
    ensures r.items[Some(name)] == Some(ShowNat(n)) ==> Id(r, name) == Some(n)
  {
    NoSlashInNumber(n);
    AfterLastOf(path, '/', ShowNat(n));
    AfterLastOf(path, '/', "");
    assert path + "/" + "" == path + "/";
    AfterLastNone(ShowNat(n), '/');
    ParseShowNat(n);
  }

  /** A result holding the one name `name`. */
  lemma OneEntry(name: string, val: Option<string>)
    ensures var r := MmResult(map[Some(name) := val]);
      && Exists(r, name) && r.items[Some(name)] == val
      && Dec(r, name) == (if val.None? then Raised("TypeError") else Returned(ParseInt(val.value, 10)))
      && Hex(r, name) == (if val.None? then Raised("TypeError") else Returned(ParseInt(val.value, 16)))
  {
  }

  /** The module's own tests of `id`, for any object-path prefix (the tests
      use `/org/freedesktop/ModemManager1/Modem`). */
  lemma IdExamples(prefix: string)
    ensures Id(MmResult(map[Some("m") := None]), "m") == None
    ensures Id(MmResult(map[Some("m") := Some(prefix + "/")]), "m") == None
    ensures Id(MmResult(map[Some("m") := Some(prefix + "/abc")]), "m") == None
    ensures Id(MmResult(map[Some("m") := Some(prefix + "/1")]), "m") == Some(1)
  {
    OneEntry("m", None);
    OneEntry("m", Some(prefix + "/"));
    IdOfPath(MmResult(map[Some("m") := Some(prefix + "/")]), "m", prefix, 0);
    IdNotNumber(prefix);
    IdOne(prefix);
  }

  lemma IdOne(prefix: string)
    ensures Id(MmResult(map[Some("m") := Some(prefix + "/1")]), "m") == Some(1)
  {
    var v := prefix + "/1";
    assert v == prefix + ['/'] + "1";
    AfterLastOf(prefix, '/', "1");
    ParseOne();
    OneEntry("m", Some(v));
  }

  lemma ParseOne()
    ensures ParseInt("1", 10) == Some(1)
  {
    DigitsSnoc("", '1', 10);
    assert "" + ['1'] == "1";
    ParsePositive("1");
  }

  lemma IdNotNumber(prefix: string)
    ensures Id(MmResult(map[Some("m") := Some(prefix + "/abc")]), "m") == None
  {
    var v := prefix + "/abc";
    assert v == prefix + ['/'] + "abc";
    AfterLastOf(prefix, '/', "abc");
    NotNumbers();
    assert ParseInt(AfterLast(v, '/'), 10) == None;
    OneEntry("m", Some(v));
  }

  lemma Digits12345()
    ensures AllDigits("12345", 10) && DigitsValue("12345", 10) == 12345
  {
    DigitsSnoc("", '1', 10);
    assert "" + ['1'] == "1";
    DigitsSnoc("1", '2', 10);
    assert "1" + ['2'] == "12";
    DigitsSnoc("12", '3', 10);
    assert "12" + ['3'] == "123";
    DigitsSnoc("123", '4', 10);
    assert "123" + ['4'] == "1234";
    DigitsSnoc("1234", '5', 10);
    assert "1234" + ['5'] == "12345";
  }

  lemma Dec12345()
    ensures ParseInt("12345", 10) == Some(12345)
    ensures ParseInt("-12345", 10) == Some(-12345)
  {
    Digits12345();
    ParsePositive("12345");
    ParseNegative("12345");
    assert "-" + "12345" == "-12345";
  }

  lemma Digits100()
    ensures AllDigits("100", 16) && DigitsValue("100", 16) == 256
  {
    DigitsSnoc("", '1', 16);
    assert "" + ['1'] == "1";
    DigitsSnoc("1", '0', 16);
    assert "1" + ['0'] == "10";
    DigitsSnoc("10", '0', 16);
    assert "10" + ['0'] == "100";
  }

  lemma Hex100()
    ensures ParseInt("-100", 16) == Some(-256)
  {
    Digits100();
    assert "-100"[1..] == "100";
  }

  lemma Hex1234()
    ensures AllDigits("1234", 16) && DigitsValue("1234", 16) == 0x1234
  {
    DigitsSnoc("", '1', 16);
    assert "" + ['1'] == "1";
    DigitsSnoc("1", '2', 16);
    assert "1" + ['2'] == "12";
    DigitsSnoc("12", '3', 16);
    assert "12" + ['3'] == "123";
    DigitsSnoc("123", '4', 16);
    assert "123" + ['4'] == "1234";
  }

  lemma Digits1234abcd()
    ensures AllDigits("1234abcd", 16) && DigitsValue("1234abcd", 16) == 0x1234abcd
  {
    Hex1234();
    DigitsSnoc("1234", 'a', 16);
    assert "1234" + ['a'] == "1234a";
    DigitsSnoc("1234a", 'b', 16);
    assert "1234a" + ['b'] == "1234ab";
    DigitsSnoc("1234ab", 'c', 16);
    assert "1234ab" + ['c'] == "1234abc";
    DigitsSnoc("1234abc", 'd', 16);
    assert "1234abc" + ['d'] == "1234abcd";
  }

  lemma HexWord()
    ensures ParseInt("1234abcd", 16) == Some(0x1234abcd)
  {
    Digits1234abcd();
    assert "1234abcd"[0] == '1';
  }

  lemma NotNumbers()
    ensures ParseInt("abcdef", 10) == None && ParseInt("gugus", 16) == None && ParseInt("abc", 10) == None
  {
    assert DigitValue("abcdef"[0]) >= 10;
    assert DigitValue("gugus"[0]) >= 16;
    assert DigitValue("abc"[0]) >= 10;
  }

  /** The module's own tests of `dec` and `hex`. */
  lemma DecExamples()
    ensures Dec(MmResult(map[Some("key") := Some("abcdef")]), "key") == Returned(None)
    ensures Dec(MmResult(map[Some("key") := Some("12345")]), "key") == Returned(Some(12345))
    ensures Dec(MmResult(map[Some("key") := Some("-12345")]), "key") == Returned(Some(-12345))
  {
    OneEntry("key", Some("abcdef"));
    OneEntry("key", Some("12345"));
    OneEntry("key", Some("-12345"));
    NotNumbers();
    Dec12345();
  }

  lemma HexExamples()
    ensures Hex(MmResult(map[Some("key") := Some("gugus")]), "key") == Returned(None)
    ensures Hex(MmResult(map[Some("key") := Some("-100")]), "key") == Returned(Some(-256))
    ensures Hex(MmResult(map[Some("key") := Some("1234abcd")]), "key") == Returned(Some(0x1234abcd))
  {
    OneEntry("key", Some("gugus"));
    OneEntry("key", Some("-100"));
    OneEntry("key", Some("1234abcd"));
    NotNumbers();
    Hex100();
    HexWord();
  }
}
