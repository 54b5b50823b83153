/** The older ModemManager helpers of the top-level mm.py: a line parser,
    the object-path id, the modem id search over `mmcli -L -K` and the
    first-match lookups of `Modem` and `Bearer`. The mmcli output is a
    parameter, already split into lines. */
module LegacyMm {
  import opened Common
  import Mm

  /** `MM.parseline`: with fewer than two tokens the pair ('', ''); with two
      or more the first and the third token, so a line of exactly two
      tokens raises IndexError. */
  function ParseLine(line: string): Raising<(string, string)> {
    var t := SplitWs(line);
    if |t| >= 2 then
      if |t| >= 3 then Returned((t[0], t[2])) else Raised("IndexError")
    else Returned(("", ""))
  }

  /** Where both parsers return, they agree on every line of three or more
      tokens; on shorter lines the old one gives empty strings or raises,
      where the newer one gives None. */
  lemma ParseLineAgainstNewer(line: string)
    ensures |SplitWs(line)| >= 3 ==>
      && Mm.ParseLine(line).0.Some? && Mm.ParseLine(line).1.Some?
      && ParseLine(line) == Returned((Mm.ParseLine(line).0.value, Mm.ParseLine(line).1.value))
    ensures |SplitWs(line)| == 2 <==> ParseLine(line) == Raised("IndexError")
    ensures |SplitWs(line)| == 2 ==> Mm.ParseLine(line).0.Some? && Mm.ParseLine(line).1 == None
    ensures |SplitWs(line)| < 2 <==> ParseLine(line) == Returned(("", ""))
    ensures |SplitWs(line)| < 2 ==> Mm.ParseLine(line).1 == None
  {
    var t := SplitWs(line);
    if |t| >= 2 {
      assert t[0] != [];
    }
  }

  /** A `key : value` line parses, and a line holding only `key :` raises. */
  lemma ParseLineExamples(k: string, v: string)
    requires k != [] && NoSpace(k) && v != [] && NoSpace(v)
    ensures ParseLine(k + " : " + v) == Returned((k, v))
    ensures ParseLine(k + " :") == Raised("IndexError")
    ensures ParseLine("") == Returned(("", ""))
  {
    Mm.ParseLineKeyValue(k, v, "");
    assert k + " : " + v + "" == k + " : " + v;
    Mm.TokensOfKeyValue(k, v, "");
    Mm.KeyValueText(k, v, "");
    Mm.ParseLineWithoutValue(k);
    ParseLineAgainstNewer(k + " : " + v);
    KeyColonTokens(k);
  }

  lemma KeyColonTokens(k: string)
    requires k != [] && NoSpace(k)
    ensures SplitWs(k + " :") == [k, ":"]
  {
    assert SplitWs(" :") == [":"] by {
      assert NoSpace(":");
      SplitWsWord(":", []);
      assert ":" + [] == ":";
      Mm.SplitWsSpaced(":");
    }
    SplitWsWord(k, " :");
  }

  /** `MM.last_id`: int() of the text after the last '/'; text that is not
      a number raises ValueError. */
  function LastId(line: string): Raising<int> {
    match ParseInt(AfterLast(line, '/'), 10)
    case Some(n) => Returned(n)
    case None => Raised("ValueError")
  }

  /** An object path ending in `/<n>`, or the number alone, gives n; a path
      ending in '/' raises, where the newer `id` gives None. */
  lemma LastIdOfPath(path: string, n: nat)
    ensures LastId(path + "/" + ShowNat(n)) == Returned(n)
    ensures LastId(ShowNat(n)) == Returned(n)
    ensures LastId(path + "/") == Raised("ValueError")
  {
    Mm.NoSlashInNumber(n);
    AfterLastOf(path, '/', ShowNat(n));
    AfterLastOf(path, '/', "");
    assert path + "/" + "" == path + "/";
    AfterLastNone(ShowNat(n), '/');
    ParseShowNat(n);
  }

  /** Whenever `last_id` returns, the newer `id` finds the same number. */
  lemma LastIdAgainstNewer(r: Mm.MmResult, name: string, n: int)
    requires Mm.Exists(r, name) && r.items[Some(name)].Some? && r.items[Some(name)].value != []
    requires LastId(r.items[Some(name)].value) == Returned(n)
    ensures Mm.Id(r, name) == Some(n)
  {
  }

  // ---------------------------------------------------------------------
  // MM._id: the first line naming the first modem
  // ---------------------------------------------------------------------

  const ModemListKey := "modem-list.value[1]"

  /** The index of the first line containing `ModemListKey`. */
  function FirstModemLine(lines: seq<string>): (r: Option<nat>)
    ensures r.Some? ==> r.value < |lines| && Contains(lines[r.value], ModemListKey)
    ensures r.Some? ==> forall j :: 0 <= j < r.value ==> !Contains(lines[j], ModemListKey)
    ensures r.None? ==> forall j :: 0 <= j < |lines| ==> !Contains(lines[j], ModemListKey)
  {
    if lines == [] then None
    else if Contains(lines[0], ModemListKey) then Some(0)
    else match FirstModemLine(lines[1..])
      case Some(i) => Some(i + 1)
      case None => None
  }

  /** The modem id `MM._id` returns: None when no line names a modem. */
  function ModemIdOf(lines: seq<string>): Raising<Option<int>> {
    match FirstModemLine(lines)
    case None => Returned(None)
    case Some(i) =>
      match LastId(lines[i])
      case Returned(n) => Returned(Some(n))
      case Raised(e) => Raised(e)
  }

  /** `MM._id`: scans the lines and returns at the first one naming a modem. */
  method ModemId(lines: seq<string>) returns (r: Raising<Option<int>>)
    ensures r == ModemIdOf(lines)
  {
    var i := 0;
    while i < |lines|
      invariant 0 <= i <= |lines|
      invariant forall j :: 0 <= j < i ==> !Contains(lines[j], ModemListKey)
    {
      if Contains(lines[i], ModemListKey) {
        FirstModemLineAt(lines, i);
        var id := LastId(lines[i]);
        match id {
          case Returned(n) => r := Returned(Some(n));
          case Raised(e) => r := Raised(e);
        }
        return;
      }
      i := i + 1;
    }
    FirstModemLineAt(lines, i);
    r := Returned(None);
  }

  /** A line containing the key, preceded by none, is the first one. */
  lemma {:induction false} FirstModemLineAt(lines: seq<string>, i: nat)
    requires i <= |lines|
    requires forall j :: 0 <= j < i ==> !Contains(lines[j], ModemListKey)
    ensures i < |lines| && Contains(lines[i], ModemListKey) ==> FirstModemLine(lines) == Some(i)
    ensures i == |lines| ==> FirstModemLine(lines) == None
    decreases i
  {
    if i > 0 {
      FirstModemLineAt(lines[1..], i - 1);
    } else if i == |lines| {
      assert lines == [];
    }
  }

  /** A listing line `<key> : <path>/<n>` makes the modem id n. */
  lemma ModemIdOfListing(before: seq<string>, line: string, path: string, n: nat)
    requires forall j :: 0 <= j < |before| ==> !Contains(before[j], ModemListKey)
    requires Contains(line, ModemListKey) && line == path + "/" + ShowNat(n)
    ensures ModemIdOf(before + [line]) == Returned(Some(n))
  {
    var lines := before + [line];
    assert forall j :: 0 <= j < |before| ==> lines[j] == before[j];
    FirstModemLineAt(lines, |before|);
    LastIdOfPath(path, n);
  }

  // ---------------------------------------------------------------------
  // Modem.state, Modem.signal, Bearer.ip: the first line with a key
  // ---------------------------------------------------------------------

  const StateKey := "modem.generic.state"
  const SignalKey := "modem.generic.signal-quality.value"
  const BearerKey := "modem.generic.bearers.value[1]"
  const UptimeKey := "bearer.stats.duration"
  const IpKey := "bearer.ipv4-config.address"

  /** The value of the first line whose key is `key`. Every line before it
      is parsed too, so a line of two tokens there raises IndexError. */
  function FirstValue(lines: seq<string>, key: string): Raising<Option<string>> {
    if lines == [] then Returned(None)
    else
      match ParseLine(lines[0])
      case Raised(e) => Raised(e)
      case Returned(kv) => if kv.0 == key then Returned(Some(kv.1)) else FirstValue(lines[1..], key)
  }

  /** The lines before `i` all parse and none has the key. */
  predicate PassedBy(lines: seq<string>, key: string, i: int)
    requires 0 <= i <= |lines|
  {
    forall j :: 0 <= j < i ==> ParseLine(lines[j]).Returned? && ParseLine(lines[j]).value.0 != key
  }

  /** The lookup finds nothing exactly when every line parses and none has
      the key; it finds `v` exactly at a line `key ... v` that all lines
      before it pass by; it raises exactly at a line that raises with all
      lines before it passed by. */
  lemma {:induction false} FirstValueSpec(lines: seq<string>, key: string)
    ensures FirstValue(lines, key) == Returned(None) <==> PassedBy(lines, key, |lines|)
    ensures FirstValue(lines, key).Returned? && FirstValue(lines, key).value.Some? ==>
      exists i :: 0 <= i < |lines| && PassedBy(lines, key, i)
        && ParseLine(lines[i]) == Returned((key, FirstValue(lines, key).value.value))
    ensures FirstValue(lines, key).Raised? ==>
      exists i :: 0 <= i < |lines| && PassedBy(lines, key, i) && ParseLine(lines[i]).Raised?
  {
    if lines != [] {
      var tl := lines[1..];
      FirstValueSpec(tl, key);
      assert forall j :: 0 <= j < |tl| ==> tl[j] == lines[j + 1];
      match ParseLine(lines[0]) {
        case Raised(e) =>
          assert PassedBy(lines, key, 0);
        case Returned(kv) =>
          if kv.0 == key {
            assert PassedBy(lines, key, 0);
          } else {
            PassedByShift(lines, key);
            var r := FirstValue(tl, key);
            if r.Returned? && r.value.Some? {
              var i :| 0 <= i < |tl| && PassedBy(tl, key, i) && ParseLine(tl[i]) == Returned((key, r.value.value));
              assert PassedBy(lines, key, i + 1);
            }
            if r.Raised? {
              var i :| 0 <= i < |tl| && PassedBy(tl, key, i) && ParseLine(tl[i]).Raised?;
              assert PassedBy(lines, key, i + 1);
            }
          }
      }
    }
  }

  /** Passing by the first line and then `i` more lines of the rest. */
  lemma PassedByShift(lines: seq<string>, key: string)
    requires lines != [] && ParseLine(lines[0]).Returned? && ParseLine(lines[0]).value.0 != key
    ensures forall i :: 0 <= i <= |lines| - 1 ==> (PassedBy(lines[1..], key, i) <==> PassedBy(lines, key, i + 1))
  {
    var tl := lines[1..];
    forall i | 0 <= i <= |tl|
      ensures PassedBy(tl, key, i) <==> PassedBy(lines, key, i + 1)
    {
      if PassedBy(tl, key, i) {
        forall j | 0 <= j < i + 1
          ensures ParseLine(lines[j]).Returned? && ParseLine(lines[j]).value.0 != key
        {
          if j > 0 {
            assert lines[j] == tl[j - 1];
          }
        }
      }
      if PassedBy(lines, key, i + 1) {
        forall j | 0 <= j < i
          ensures ParseLine(tl[j]).Returned? && ParseLine(tl[j]).value.0 != key
        {
          assert tl[j] == lines[j + 1];
        }
      }
    }
  }

  /** The loop of `Modem.state`, `Modem.signal` and `Bearer.ip`: returns at
      the first line with the key; an exception of `parseline` propagates. */
  method Lookup(lines: seq<string>, key: string) returns (r: Raising<Option<string>>)
    ensures r == FirstValue(lines, key)
  {
    var i := 0;
    while i < |lines|
      invariant 0 <= i <= |lines|
      invariant FirstValue(lines[i..], key) == FirstValue(lines, key)
    {
      var kv := ParseLine(lines[i]);
      assert lines[i..][0] == lines[i] && lines[i..][1..] == lines[i + 1..];
      match kv {
        case Raised(e) =>
          r := Raised(e);
          return;
        case Returned(p) =>
          if p.0 == key {
            r := Returned(Some(p.1));
            return;
          }
      }
      i := i + 1;
    }
    r := Returned(None);
  }

  /** `Bearer.uptime`: int() of the first duration value; a value that is
      not a number raises ValueError. */
  function UptimeOf(lines: seq<string>): Raising<Option<int>> {
    match FirstValue(lines, UptimeKey)
    case Raised(e) => Raised(e)
    case Returned(None) => Returned(None)
    case Returned(Some(v)) =>
      match ParseInt(v, 10)
      case Some(n) => Returned(Some(n))
      case None => Raised("ValueError")
  }

  /** A duration written as a number of seconds is read back as that number. */
  lemma UptimeOfNumber(lines: seq<string>, n: nat)
    requires FirstValue(lines, UptimeKey) == Returned(Some(ShowNat(n)))
    ensures UptimeOf(lines) == Returned(Some(n))
  {
    ParseShowNat(n);
  }

  /** `Modem.bearer`: the id of the first bearer path, None without one. */
  function BearerIdOf(lines: seq<string>): Raising<Option<int>> {
    match FirstValue(lines, BearerKey)
    case Raised(e) => Raised(e)
    case Returned(None) => Returned(None)
    case Returned(Some(v)) =>
      match LastId(v)
      case Returned(n) => Returned(Some(n))
      case Raised(e) => Raised(e)
  }

  /** A bearer path `<path>/<n>` gives the bearer n. */
  lemma BearerIdOfPath(lines: seq<string>, path: string, n: nat)
    requires FirstValue(lines, BearerKey) == Returned(Some(path + "/" + ShowNat(n)))
    ensures BearerIdOf(lines) == Returned(Some(n))
  {
    LastIdOfPath(path, n);
  }
}
