/** Values and text primitives that the gateway's Python code takes from the
    language itself: optional results, bytes, the dictionaries it passes
    between threads, `str.split`, `str.rfind`, `str.strip` and `int()`. */
module Common {

  datatype Option<+T> = None | Some(value: T)

  /** The result of a Python expression that may raise: its value, or the
      name of the exception. */
  datatype Raising<+T> = Returned(value: T) | Raised(error: string)

  type Byte = b: int | 0 <= b < 256

  /** A record as the gateway publishes it: the JSON-like values of Python. */
  datatype Value =
    | VNone
    | VBool(b: bool)
    | VInt(i: int)
    | VReal(r: real)
    | VStr(s: string)
    | VList(items: seq<Value>)
    | VMap(fields: map<string, Value>)

  /** Python truthiness of a value (`if value:`). */
  predicate Truthy(v: Value) {
    match v
    case VNone => false
    case VBool(b) => b
    case VInt(i) => i != 0
    case VReal(r) => r != 0.0
    case VStr(s) => s != ""
    case VList(items) => items != []
    case VMap(fields) => fields != map[]
  }

  /** Python `key in value` for a dictionary value; false for anything else. */
  predicate HasKey(v: Value, key: string) {
    v.VMap? && key in v.fields
  }

  // ---------------------------------------------------------------------
  // Whitespace, str.split() and str.strip()
  // ---------------------------------------------------------------------

  /** The six ASCII whitespace characters space, tab, newline, carriage
      return, vertical tab and form feed. Python's `str.split()` and
      `str.strip()` also drop the separators \x1c to \x1f and the Unicode
      spaces, which this predicate does not include. */
  predicate IsSpace(c: char) {
    c == ' ' || c == '\t' || c == '\n' || c == '\r' || c == '\U{000B}' || c == '\U{000C}'
  }

  predicate NoSpace(s: string) {
    forall i :: 0 <= i < |s| ==> !IsSpace(s[i])
  }

  /** Length of the longest whitespace-free prefix of `s`. */
  function WordLen(s: string): (n: nat)
    ensures n <= |s|
    ensures forall i :: 0 <= i < n ==> !IsSpace(s[i])
    ensures n < |s| ==> IsSpace(s[n])
  {
    if s == [] || IsSpace(s[0]) then 0 else 1 + WordLen(s[1..])
  }

  /** Python `s.split()`: the maximal runs of non-whitespace characters. */
  function SplitWs(s: string): (r: seq<string>)
    ensures forall i :: 0 <= i < |r| ==> r[i] != [] && NoSpace(r[i])
    decreases |s|
  {
    if s == [] then []
    else if IsSpace(s[0]) then SplitWs(s[1..])
    else
      var n := WordLen(s);
      [s[..n]] + SplitWs(s[n..])
  }

  function Concat(parts: seq<string>): string {
    if parts == [] then [] else parts[0] + Concat(parts[1..])
  }

  function RemoveSpaces(s: string): (r: string)
    ensures NoSpace(r)
  {
    if s == [] then []
    else if IsSpace(s[0]) then RemoveSpaces(s[1..])
    else [s[0]] + RemoveSpaces(s[1..])
  }

  lemma {:induction false} RemoveSpacesAppend(a: string, b: string)
    ensures RemoveSpaces(a + b) == RemoveSpaces(a) + RemoveSpaces(b)
  {
    if a == [] {
      assert a + b == b;
    } else {
      assert (a + b)[0] == a[0];
      assert (a + b)[1..] == a[1..] + b;
      RemoveSpacesAppend(a[1..], b);
    }
  }

  lemma {:induction false} RemoveSpacesOfWord(s: string)
    requires NoSpace(s)
    ensures RemoveSpaces(s) == s
  {
    if s != [] {
      RemoveSpacesOfWord(s[1..]);
    }
  }

  /** `str.split()` loses only the whitespace: its tokens, glued together,
      are the input with every whitespace character removed. */
  lemma {:induction false} SplitWsKeepsText(s: string)
    ensures Concat(SplitWs(s)) == RemoveSpaces(s)
    decreases |s|
  {
    if s == [] {
    } else if IsSpace(s[0]) {
      SplitWsKeepsText(s[1..]);
    } else {
      var n := WordLen(s);
      SplitWsKeepsText(s[n..]);
      assert s == s[..n] + s[n..];
      RemoveSpacesAppend(s[..n], s[n..]);
      RemoveSpacesOfWord(s[..n]);
      assert SplitWs(s) == [s[..n]] + SplitWs(s[n..]);
      assert ([s[..n]] + SplitWs(s[n..]))[1..] == SplitWs(s[n..]);
    }
  }

  lemma {:induction false} WordLenOfWord(w: string, s: string)
    requires NoSpace(w) && (s == [] || IsSpace(s[0]))
    ensures WordLen(w + s) == |w|
    decreases |w|
  {
    if w == [] {
      assert w + s == s;
    } else {
      assert (w + s)[1..] == w[1..] + s;
      WordLenOfWord(w[1..], s);
    }
  }

  /** A word followed by whitespace, or by nothing, is the first token of
      `str.split()`. */
  lemma SplitWsWord(w: string, s: string)
    requires w != [] && NoSpace(w) && (s == [] || IsSpace(s[0]))
    ensures SplitWs(w + s) == [w] + SplitWs(s)
  {
    WordLenOfWord(w, s);
    assert (w + s)[..|w|] == w && (w + s)[|w|..] == s;
  }

  function LStrip(s: string): (r: string)
    ensures |r| <= |s| && r == s[|s| - |r|..]
    ensures r == [] || !IsSpace(r[0])
  {
    if s != [] && IsSpace(s[0]) then LStrip(s[1..]) else s
  }

  function RStrip(s: string): (r: string)
    ensures r <= s
    ensures r == [] || !IsSpace(r[|r| - 1])
  {
    if s != [] && IsSpace(s[|s| - 1]) then RStrip(s[..|s| - 1]) else s
  }

  /** Python `s.strip()`. */
  function Strip(s: string): string {
    LStrip(RStrip(s))
  }

  // ---------------------------------------------------------------------
  // str.split(sep) and its inverse sep.join(parts)
  // ---------------------------------------------------------------------

  /** Python `s.split(sep)` for a one-character separator. */
  function Split(s: string, sep: char): (r: seq<string>)
    ensures |r| >= 1
    ensures forall i :: 0 <= i < |r| ==> sep !in r[i]
  {
    if s == [] then [[]]
    else
      var rest := Split(s[1..], sep);
      if s[0] == sep then [[]] + rest
      else [[s[0]] + rest[0]] + rest[1..]
  }

  /** Python `sep.join(parts)`. */
  function Join(sep: string, parts: seq<string>): string {
    if parts == [] then []
    else if |parts| == 1 then parts[0]
    else parts[0] + sep + Join(sep, parts[1..])
  }

  /** Splitting and joining with the same separator gives the text back. */
  lemma {:induction false} JoinSplit(s: string, sep: char)
    ensures Join([sep], Split(s, sep)) == s
  {
    if s != [] {
      var rest := Split(s[1..], sep);
      JoinSplit(s[1..], sep);
      if s[0] == sep {
        assert ([[]] + rest)[1..] == rest;
      } else {
        var r := [[s[0]] + rest[0]] + rest[1..];
        if |rest| == 1 {
          assert r == [[s[0]] + rest[0]];
        } else {
          assert r[1..] == rest[1..];
          assert Join([sep], rest) == rest[0] + [sep] + Join([sep], rest[1..]);
        }
      }
    }
  }

  /** Joining separator-free parts and splitting again gives the parts back. */
  lemma {:induction false} SplitJoin(parts: seq<string>, sep: char)
    requires |parts| >= 1
    requires forall i :: 0 <= i < |parts| ==> sep !in parts[i]
    ensures Split(Join([sep], parts), sep) == parts
    decreases |parts|, |parts[0]|
  {
    if parts[0] == [] {
      if |parts| == 1 {
      } else {
        var tail := Join([sep], parts[1..]);
        assert Join([sep], parts) == [sep] + tail;
        assert ([sep] + tail)[1..] == tail;
        SplitJoin(parts[1..], sep);
        assert [[]] + parts[1..] == parts;
      }
    } else {
      var c := parts[0][0];
      var shorter := [parts[0][1..]] + parts[1..];
      assert c != sep by { assert parts[0][0] in parts[0]; }
      DropFirstNoSep(parts, sep);
      SplitJoin(shorter, sep);
      JoinDropFirst(parts, sep);
      var j := Join([sep], parts);
      assert j[1..] == Join([sep], shorter);
      assert [c] + shorter[0] == parts[0];
      assert [[c] + shorter[0]] + shorter[1..] == parts;
    }
  }

  lemma DropFirstNoSep(parts: seq<string>, sep: char)
    requires |parts| >= 1 && parts[0] != []
    requires forall i :: 0 <= i < |parts| ==> sep !in parts[i]
    ensures var shorter := [parts[0][1..]] + parts[1..];
      forall i :: 0 <= i < |shorter| ==> sep !in shorter[i]
  {
    var shorter := [parts[0][1..]] + parts[1..];
    forall i | 0 <= i < |shorter| ensures sep !in shorter[i] {
      if i == 0 {
        assert forall x :: x in parts[0][1..] ==> x in parts[0];
      } else {
        assert shorter[i] == parts[i];
      }
    }
  }

  lemma JoinDropFirst(parts: seq<string>, sep: char)
    requires |parts| >= 1 && parts[0] != []
    ensures Join([sep], parts) == [parts[0][0]] + Join([sep], [parts[0][1..]] + parts[1..])
  {
    var shorter := [parts[0][1..]] + parts[1..];
    var h := parts[0];
    assert h == [h[0]] + h[1..];
    if |parts| > 1 {
      var t := Join([sep], parts[1..]);
      assert shorter[1..] == parts[1..];
      assert Join([sep], shorter) == h[1..] + [sep] + t;
      ConsAssoc(h[0], h[1..], [sep], t);
    }
  }

  lemma ConsAssoc(x: char, y: string, z: string, w: string)
    ensures (([x] + y) + z) + w == [x] + ((y + z) + w)
  {
  }


  // ---------------------------------------------------------------------
  // str.rfind and the text after the last separator
  // ---------------------------------------------------------------------

  /** Python `s.rfind(c)`: the last index holding `c`, or -1. */
  function RFind(s: string, c: char): (i: int)
    ensures -1 <= i < |s|
    ensures i >= 0 ==> s[i] == c
    ensures forall j :: i < j < |s| ==> s[j] != c
  {
    if s == [] then -1
    else if s[|s| - 1] == c then |s| - 1
    else RFind(s[..|s| - 1], c)
  }

  /** Python `s[s.rfind(c) + 1:]`: the whole text when `c` does not occur. */
  function AfterLast(s: string, c: char): (r: string)
    ensures c !in r
    ensures |r| <= |s| && s[|s| - |r|..] == r
    ensures |r| < |s| ==> s[|s| - |r| - 1] == c
  {
    s[RFind(s, c) + 1..]
  }

  /** The text after the last `c` is everything after a `c` that is
      followed by no other `c`. */
  lemma AfterLastOf(p: string, c: char, d: string)
    requires c !in d
    ensures AfterLast(p + [c] + d, c) == d
  {
    var s := p + [c] + d;
    var i := RFind(s, c);
    assert s[|p|] == c;
    assert forall j :: |p| < j < |s| ==> s[j] == d[j - |p| - 1];
    assert i == |p|;
    assert s[i + 1..] == d;
  }

  lemma AfterLastNone(s: string, c: char)
    requires c !in s
    ensures AfterLast(s, c) == s
  {
  }

  /** Python `sub in s` for strings. */
  predicate Contains(s: string, sub: string)
    decreases |s|
  {
    sub <= s || (s != [] && Contains(s[1..], sub))
  }

  lemma {:induction false} ContainsAt(s: string, sub: string, i: nat)
    requires i + |sub| <= |s| && s[i..i + |sub|] == sub
    ensures Contains(s, sub)
    decreases i
  {
    if i > 0 {
      assert s[1..][i - 1..i - 1 + |sub|] == s[i..i + |sub|];
      ContainsAt(s[1..], sub, i - 1);
    }
  }

  // ---------------------------------------------------------------------
  // int(): optional sign and digits
  // ---------------------------------------------------------------------

  /** The value of a digit character in bases up to 36, or 36 for any other character. */
  function DigitValue(c: char): (d: nat)
    ensures d <= 36
  {
    if '0' <= c <= '9' then (c - '0') as nat
    else if 'a' <= c <= 'z' then (c - 'a') as nat + 10
    else if 'A' <= c <= 'Z' then (c - 'A') as nat + 10
    else 36
  }

  predicate AllDigits(s: string, base: nat) {
    forall i :: 0 <= i < |s| ==> DigitValue(s[i]) < base
  }

  /** The number a digit string denotes, most significant digit first. */
  function DigitsValue(s: string, base: nat): nat
    requires AllDigits(s, base)
  {
    if s == [] then 0
    else
      AllDigitsPrefix(s, |s| - 1, base);
      Shifted(DigitsValue(s[..|s| - 1], base), base, DigitValue(s[|s| - 1]))
  }

  /** One more digit d after the value v in the given base. */
  function Shifted(v: nat, base: nat, d: nat): nat {
    v * base + d
  }

  lemma AllDigitsPrefix(s: string, n: nat, base: nat)
    requires AllDigits(s, base) && n <= |s|
    ensures AllDigits(s[..n], base)
  {
    forall i | 0 <= i < n ensures DigitValue(s[..n][i]) < base {
      assert s[..n][i] == s[i];
    }
  }

  /** Python `int(s, base)` for an optional sign followed by digits; a base-16
      number may carry a `0x` prefix after the sign. None stands for ValueError. */
  function ParseInt(s: string, base: nat): (r: Option<int>)
    requires 2 <= base <= 36
    ensures s == [] ==> r.None?
    ensures r.Some? && s[0] != '-' ==> r.value >= 0
  {
    var negative := s != [] && s[0] == '-';
    var unsigned := if s != [] && (s[0] == '-' || s[0] == '+') then s[1..] else s;
    var digits :=
      if base == 16 && |unsigned| >= 2 && unsigned[0] == '0' && (unsigned[1] == 'x' || unsigned[1] == 'X')
      then unsigned[2..] else unsigned;
    if digits != [] && AllDigits(digits, base) then
      Some(if negative then -(DigitsValue(digits, base) as int) else DigitsValue(digits, base))
    else None
  }

  /** Appending a digit multiplies by the base and adds the digit. */
  lemma DigitsSnoc(s: string, c: char, base: nat)
    requires AllDigits(s, base) && DigitValue(c) < base
    ensures AllDigits(s + [c], base)
    ensures DigitsValue(s + [c], base) == DigitsValue(s, base) * base + DigitValue(c)
  {
    assert (s + [c])[..|s|] == s;
  }

  function DigitChar(d: nat): (c: char)
    requires d < 10
    ensures DigitValue(c) == d
  {
    ['0', '1', '2', '3', '4', '5', '6', '7', '8', '9'][d]
  }

  /** Python `str(n)` for a natural number. */
  function ShowNat(n: nat): (s: string)
    ensures s != [] && AllDigits(s, 10)
    ensures forall i :: 0 <= i < |s| ==> '0' <= s[i] <= '9'
  {
    if n < 10 then [DigitChar(n)] else ShowNat(n / 10) + [DigitChar(n % 10)]
  }

  /** Python `str(i)` for an integer. */
  function ShowInt(i: int): (s: string)
    ensures s != []
  {
    if i < 0 then "-" + ShowNat(-i) else ShowNat(i)
  }

  lemma {:induction false} ShowNatValue(n: nat)
    ensures DigitsValue(ShowNat(n), 10) == n
  {
    if n >= 10 {
      var s := ShowNat(n / 10) + [DigitChar(n % 10)];
      assert s[..|s| - 1] == ShowNat(n / 10);
      ShowNatValue(n / 10);
    }
  }

  /** `int(str(i)) == i`: rendering an integer and parsing it back is the identity. */
  lemma ParseDecimalDigits(s: string)
    requires s != [] && forall i :: 0 <= i < |s| ==> '0' <= s[i] <= '9'
    ensures AllDigits(s, 10)
    ensures ParseInt(s, 10) == Some(DigitsValue(s, 10) as int)
    ensures ParseInt("-" + s, 10) == Some(-(DigitsValue(s, 10) as int))
  {
    DecimalDigits(s);
    ParsePositive(s);
    ParseNegative(s);
  }

  lemma DecimalDigits(s: string)
    requires forall i :: 0 <= i < |s| ==> '0' <= s[i] <= '9'
    ensures AllDigits(s, 10)
  {
    forall i | 0 <= i < |s| ensures DigitValue(s[i]) < 10 {
      assert '0' <= s[i] <= '9';
    }
  }

  lemma ParsePositive(s: string)
    requires s != [] && '0' <= s[0] <= '9' && AllDigits(s, 10)
    ensures ParseInt(s, 10) == Some(DigitsValue(s, 10) as int)
  {
    assert s[0] != '-' && s[0] != '+';
  }

  lemma ParseNegative(s: string)
    requires s != [] && AllDigits(s, 10)
    ensures ParseInt("-" + s, 10) == Some(-(DigitsValue(s, 10) as int))
  {
    var t := "-" + s;
    assert t[0] == '-';
    assert t[1..] == s;
  }

  lemma ParseShowInt(i: int)
    ensures ParseInt(ShowInt(i), 10) == Some(i)
  {
    var s := ShowInt(i);
    if i < 0 {
      var n: nat := -i;
      assert s == "-" + ShowNat(n);
      ParseShowNeg(n);
    } else {
      assert s == ShowNat(i);
      ParseShowNat(i);
    }
  }

  lemma ParseShowNat(n: nat)
    ensures ParseInt(ShowNat(n), 10) == Some(n)
  {
    ShowNatValue(n);
    ParsePositive(ShowNat(n));
  }

  lemma ParseShowNeg(n: nat)
    ensures ParseInt("-" + ShowNat(n), 10) == Some(-(n as int))
  {
    ShowNatValue(n);
    ParseNegative(ShowNat(n));
  }

  /** Python `int(v)` of a value: an integer is kept, a bool gives 0 or 1, a
      float is truncated toward zero, a text is read by `int(s)` (ValueError
      when it is no number); None, lists and dictionaries raise TypeError. */
  function IntOfValue(v: Value): Raising<int> {
    match v
    case VInt(i) => Returned(i)
    case VBool(b) => Returned(if b then 1 else 0)
    case VReal(x) => Returned(if x >= 0.0 then x.Floor else -((-x).Floor))
    case VStr(s) => if ParseInt(s, 10).Some? then Returned(ParseInt(s, 10).value) else Raised("ValueError")
    case _ => Raised("TypeError")
  }

  /** `int()` keeps an integer, reads back any `str(i)` and the digits of a
      counter file, rejects the empty text, and refuses None. */
  lemma IntOfValueCases(i: int, s: string)
    ensures IntOfValue(VInt(i)) == Returned(i)
    ensures IntOfValue(VStr(ShowInt(i))) == Returned(i)
    ensures s != [] && (forall k :: 0 <= k < |s| ==> '0' <= s[k] <= '9') ==>
      AllDigits(s, 10) && IntOfValue(VStr(s)) == Returned(DigitsValue(s, 10) as int)
    ensures IntOfValue(VStr("")) == Raised("ValueError")
    ensures IntOfValue(VNone) == Raised("TypeError")
  {
    ParseShowInt(i);
    if s != [] && (forall k :: 0 <= k < |s| ==> '0' <= s[k] <= '9') {
      ParseDecimalDigits(s);
    }
  }

  // ---------------------------------------------------------------------
  // Python's & and | on non-negative integers
  // ---------------------------------------------------------------------

  /** Python `a & b` for a, b >= 0, bit by bit from the lowest. */
  function BitAnd(a: nat, b: nat): nat
    decreases a
  {
    if a == 0 || b == 0 then 0
    else 2 * BitAnd(a / 2, b / 2) + (if a % 2 == 1 && b % 2 == 1 then 1 else 0)
  }

  /** Python `a | b` for a, b >= 0, bit by bit from the lowest. */
  function BitOr(a: nat, b: nat): nat
    decreases a
  {
    if a == 0 then b
    else if b == 0 then a
    else 2 * BitOr(a / 2, b / 2) + (if a % 2 == 1 || b % 2 == 1 then 1 else 0)
  }

  lemma {:induction false} BitOrZero(a: nat, b: nat)
    ensures BitOr(a, b) == 0 <==> a == 0 && b == 0
    decreases a
  {
    if a != 0 && b != 0 {
      BitOrZero(a / 2, b / 2);
    }
  }

  /** Bits of `e` that `k` does not have cannot change `k & f`. */
  lemma {:induction false} AndOfDisjointOr(k: nat, f: nat, e: nat)
    requires BitAnd(k, e) == 0
    ensures BitAnd(k, BitOr(f, e)) == BitAnd(k, f)
    decreases k
  {
    if k != 0 && f != 0 && e != 0 {
      var o := BitOr(f, e);
      BitOrZero(f, e);
      assert o == 2 * BitOr(f / 2, e / 2) + (if f % 2 == 1 || e % 2 == 1 then 1 else 0);
      assert o / 2 == BitOr(f / 2, e / 2) && o % 2 == (if f % 2 == 1 || e % 2 == 1 then 1 else 0);
      AndOfDisjointOr(k / 2, f / 2, e / 2);
    }
  }
}
