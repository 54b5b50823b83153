/** The text the information pages show: `nice` of vcuui/pageinfo.py (of
    which vcuui/pagegnss.py holds an identical copy) joins labelled values
    into one line, and `build_gnss` of vcuui/pagegnss.py derives the GNSS
    page's values. Values are taken as their text (`str()` of them). */
module Pages {
  import opened Common
  import GnssModel

  /** One `(key, header, unit)` triple. */
  datatype Item = Item(key: string, header: string, unit: string)

  /** What `nice` gives: the text, or the KeyError of the first key missing
      from the data. */
  datatype Nice = Text(text: string) | KeyError(key: string)

  /** `'</br>'` between pieces when `linebreak` is set, `', '` otherwise. */
  function Separator(linebreak: bool): string {
    if linebreak then "</br>" else ", "
  }

  /** The piece for one item: `header: val`, then ` unit` when the unit is
      not empty. */
  function Piece(it: Item, val: string): (p: string)
    ensures |p| >= |it.header| + 2 + |val|
    ensures p[..|it.header| + 2] == it.header + ": "
    ensures p[|it.header| + 2..|it.header| + 2 + |val|] == val
    ensures it.unit == "" <==> |p| == |it.header| + 2 + |val|
    ensures it.unit != "" ==> p[|it.header| + 2 + |val|..] == " " + it.unit
  {
    it.header + ": " + val + (if it.unit != "" then " " + it.unit else "")
  }

  /** The first item whose key the data lacks. */
  function FirstMissing(items: seq<Item>, data: map<string, string>): (r: Option<nat>)
    ensures r.Some? ==> r.value < |items| && items[r.value].key !in data
    ensures r.Some? ==> forall j :: 0 <= j < r.value ==> items[j].key in data
    ensures r.None? ==> forall j :: 0 <= j < |items| ==> items[j].key in data
  {
    if items == [] then None
    else if items[0].key !in data then Some(0)
    else match FirstMissing(items[1..], data)
      case Some(k) => Some(k + 1)
      case None => None
  }

  /** The pieces of all items, in item order. */
  function Pieces(items: seq<Item>, data: map<string, string>): (ps: seq<string>)
    requires forall j :: 0 <= j < |items| ==> items[j].key in data
    ensures |ps| == |items|
  {
    if items == [] then []
    else Pieces(items[..|items| - 1], data) + [Piece(items[|items| - 1], data[items[|items| - 1].key])]
  }

  /** The j-th piece is the j-th item's. */
  lemma {:induction false} PieceAt(items: seq<Item>, data: map<string, string>, j: nat)
    requires forall k :: 0 <= k < |items| ==> items[k].key in data
    requires j < |items|
    ensures Pieces(items, data)[j] == Piece(items[j], data[items[j].key])
    decreases |items|
  {
    if j < |items| - 1 {
      var init := items[..|items| - 1];
      assert init[j] == items[j];
      PieceAt(init, data, j);
    }
  }

  /** What `nice(items, data, linebreak)` means: the pieces joined by the
      separator, or a KeyError naming the first missing key. */
  function NiceOf(items: seq<Item>, data: map<string, string>, linebreak: bool): Nice {
    match FirstMissing(items, data)
    case Some(k) => KeyError(items[k].key)
    case None => Text(Join(Separator(linebreak), Pieces(items, data)))
  }

  /** Appending a part puts one separator before it, unless it is the first. */
  lemma {:induction false} JoinSnoc(sep: string, ps: seq<string>, p: string)
    ensures Join(sep, ps + [p]) == if ps == [] then p else Join(sep, ps) + sep + p
    decreases |ps|
  {
    if |ps| >= 2 {
      assert (ps + [p])[1..] == ps[1..] + [p];
      JoinSnoc(sep, ps[1..], p);
    } else if |ps| == 1 {
      assert (ps + [p])[1..] == [p];
    }
  }

  lemma ConcatAssoc(a: string, b: string, c: string)
    ensures (a + b) + c == a + (b + c)
  {
  }

  /** One more item adds its piece, after a separator unless it is the first. */
  lemma NiceStep(items: seq<Item>, data: map<string, string>, sep: string, i: nat)
    requires i < |items| && forall j :: 0 <= j <= i ==> items[j].key in data
    ensures Join(sep, Pieces(items[..i + 1], data))
      == (if i == 0 then "" else Join(sep, Pieces(items[..i], data)) + sep) + Piece(items[i], data[items[i].key])
  {
    assert items[..i + 1][..i] == items[..i];
    JoinSnoc(sep, Pieces(items[..i], data), Piece(items[i], data[items[i].key]));
  }

  /** `nice`: the loop adds the separator only once `res` is not empty, which
      is exactly after the first piece, since every piece holds ": ". */
  method NiceText(items: seq<Item>, data: map<string, string>, linebreak: bool) returns (r: Nice)
    ensures r == NiceOf(items, data, linebreak)
  {
    var sep := Separator(linebreak);
    var res := "";
    var i := 0;
    while i < |items|
      invariant 0 <= i <= |items|
      invariant forall j :: 0 <= j < i ==> items[j].key in data
      invariant res == Join(sep, Pieces(items[..i], data))
      invariant res == "" <==> i == 0
    {
      var it := items[i];
      if it.key !in data {
        assert FirstMissing(items, data) == Some(i);
        return KeyError(it.key);
      }
      var val := data[it.key];
      NiceStep(items, data, sep, i);
      if res != "" {
        res := res + sep;
      }
      ghost var start := res;
      res := res + (it.header + ": " + val);
      if it.unit != "" {
        ConcatAssoc(start, it.header + ": " + val, " " + it.unit);
        res := res + (" " + it.unit);
      }
      assert res == start + Piece(it, val);
      i := i + 1;
    }
    assert items[..i] == items;
    return Text(res);
  }

  /** No items give the empty text, whatever the data. */
  lemma NiceEmpty(data: map<string, string>, linebreak: bool)
    ensures NiceOf([], data, linebreak) == Text("")
  {
  }

  /** The text is empty exactly when there are no items. */
  lemma NiceEmptyOnlyWithoutItems(items: seq<Item>, data: map<string, string>, linebreak: bool)
    requires NiceOf(items, data, linebreak).Text?
    ensures NiceOf(items, data, linebreak).text == "" <==> items == []
  {
    if items != [] {
      var ps := Pieces(items, data);
      assert ps == ps[..|ps| - 1] + [ps[|ps| - 1]];
      JoinSnoc(Separator(linebreak), ps[..|ps| - 1], ps[|ps| - 1]);
    }
  }

  /** The sum of the lengths of some parts. */
  function TotalLength(ps: seq<string>): nat {
    if ps == [] then 0 else TotalLength(ps[..|ps| - 1]) + |ps[|ps| - 1]|
  }

  /** A join holds its parts and one separator between each two of them:
      exactly |ps| - 1 separators, none leading or trailing. */
  lemma {:induction false} JoinLength(sep: string, ps: seq<string>)
    requires ps != []
    ensures |Join(sep, ps)| == TotalLength(ps) + (|ps| - 1) * |sep|
    ensures ps[0] <= Join(sep, ps)
    decreases |ps|
  {
    if |ps| > 1 {
      var init := ps[..|ps| - 1];
      assert ps == init + [ps[|ps| - 1]];
      JoinSnoc(sep, init, ps[|ps| - 1]);
      JoinLength(sep, init);
      assert init[0] == ps[0];
    }
  }

  /** A join ends with its last part. */
  lemma JoinLast(sep: string, ps: seq<string>)
    requires ps != []
    ensures var j := Join(sep, ps); |j| >= |ps[|ps| - 1]| && j[|j| - |ps[|ps| - 1]|..] == ps[|ps| - 1]
  {
    var init := ps[..|ps| - 1];
    assert ps == init + [ps[|ps| - 1]];
    JoinSnoc(sep, init, ps[|ps| - 1]);
  }

  /** The text of `nice` is as long as all pieces and len(items) - 1
      separators together. */
  lemma NiceLength(items: seq<Item>, data: map<string, string>, linebreak: bool)
    requires items != [] && NiceOf(items, data, linebreak).Text?
    ensures |NiceOf(items, data, linebreak).text|
      == TotalLength(Pieces(items, data)) + (|items| - 1) * |Separator(linebreak)|
  {
    var ps := Pieces(items, data);
    var sep := Separator(linebreak);
    assert NiceOf(items, data, linebreak).text == Join(sep, ps);
    JoinLength(sep, ps);
  }

  /** The text of `nice` starts with the first item's piece and ends with
      the last item's: no separator leads or trails. */
  lemma NiceEnds(items: seq<Item>, data: map<string, string>, linebreak: bool)
    requires items != [] && NiceOf(items, data, linebreak).Text?
    ensures var t := NiceOf(items, data, linebreak).text;
      var ps := Pieces(items, data);
      && ps[0] <= t
      && |t| >= |ps[|ps| - 1]| && t[|t| - |ps[|ps| - 1]|..] == ps[|ps| - 1]
  {
    var ps := Pieces(items, data);
    var sep := Separator(linebreak);
    var t := NiceOf(items, data, linebreak).text;
    assert t == Join(sep, ps);
    JoinLast(sep, ps);
    JoinLength(sep, ps);
  }

  /** A KeyError names the first item whose key is missing; there is one
      exactly when some key is missing. */
  lemma NiceKeyError(items: seq<Item>, data: map<string, string>, linebreak: bool)
    ensures NiceOf(items, data, linebreak).KeyError? <==> exists j :: 0 <= j < |items| && items[j].key !in data
    ensures NiceOf(items, data, linebreak).KeyError? ==>
      exists k :: 0 <= k < |items| && NiceOf(items, data, linebreak).key == items[k].key
        && items[k].key !in data && forall j :: 0 <= j < k ==> items[j].key in data
  {
  }

  /** Two pieces with units: `Fusion: 1, INS: 2`, and `</br>` instead of
      `, ` with `linebreak`. */
  lemma NiceTwoItems(a: Item, b: Item, data: map<string, string>)
    requires a.key in data && b.key in data
    ensures NiceOf([a, b], data, false) == Text(Piece(a, data[a.key]) + ", " + Piece(b, data[b.key]))
    ensures NiceOf([a, b], data, true) == Text(Piece(a, data[a.key]) + "</br>" + Piece(b, data[b.key]))
  {
    assert [a, b][1..] == [b];
    assert FirstMissing([a, b], data) == None;
    var ps := Pieces([a, b], data);
    PieceAt([a, b], data, 0);
    PieceAt([a, b], data, 1);
    assert ps == [Piece(a, data[a.key]), Piece(b, data[b.key])];
    assert ps[1..] == [ps[1]];
    assert Join(", ", ps) == ps[0] + ", " + ps[1];
    assert Join("</br>", ps) == ps[0] + "</br>" + ps[1];
  }


  // ---------------------------------------------------------------------
  // build_gnss
  // ---------------------------------------------------------------------

  /** `f'{bitrate} bps, {mode}'`. */
  function UartText(bitrate: nat, mode: string): string {
    ShowNat(bitrate) + " bps, " + mode
  }

  /** The bit rate can be read back from the front of the UART text. */
  lemma UartTextReadsBack(bitrate: nat, mode: string)
    ensures var t := UartText(bitrate, mode); var n := |ShowNat(bitrate)|;
      && ParseInt(t[..n], 10) == Some(bitrate)
      && t[n..] == " bps, " + mode
  {
    var digits, tail := ShowNat(bitrate), " bps, " + mode;
    var t := UartText(bitrate, mode);
    ConcatAssoc(digits, " bps, ", mode);
    assert t == digits + tail;
    assert t[..|digits|] == digits && t[|digits|..] == tail;
    ParseShowNat(bitrate);
  }

  /** `'On' if align else 'Off'`: any value but 0 is truthy. */
  function AlignText(align: int): string {
    if align != 0 then "On" else "Off"
  }

  /** 'On' exactly for a non-zero value, so the -1 that `auto_align` gives
      when the receiver did not answer also shows as 'On'. */
  lemma AlignTextTruthy(align: int)
    ensures AlignText(align) == "On" <==> align != 0
    ensures AlignText(align) == "Off" <==> align == 0
    ensures AlignText(GnssModel.AlignValue(None)) == "On"
  {
  }

  /** The receiver's answers `build_gnss` reads. */
  datatype GnssReadings = GnssReadings(
    version: map<string, string>,
    dynModel: int,
    nmeaProtocol: string,
    bitrate: nat, mode: string,
    align: int,
    alignState: string,
    esfStatus: map<string, string>)

  /** The page: the title, the version rows and the configuration data, or
      the fallback with the lookup error. */
  datatype Page =
    | GnssPage(title: string, table: seq<(string, string)>, data: map<string, string>)
    | LookupErrorPage(message: string)

  const EsfItems: seq<Item> :=
    [Item("fusion", "Fusion", ""), Item("ins", "INS", ""), Item("imu", "IMU", ""), Item("imu-align", "IMU Alignment", "")]

  /** `f'Data lookup error: {e} not found'`, where `str(KeyError(k))` is
      the key in quotes. */
  function LookupError(key: string): string {
    "Data lookup error: '" + key + "' not found"
  }

  /** The first key `build_gnss` looks up and does not find, in the order of
      the lookups: the system version, its serial, the receiver version's
      four fields, then the ESF status fields. */
  function FirstMissingKey(md: map<string, map<string, string>>, g: GnssReadings): Option<string> {
    if "sys-version" !in md then Some("sys-version")
    else if "serial" !in md["sys-version"] then Some("serial")
    else if "hwVersion" !in g.version then Some("hwVersion")
    else if "swVersion" !in g.version then Some("swVersion")
    else if "fwVersion" !in g.version then Some("fwVersion")
    else if "protocol" !in g.version then Some("protocol")
    else match FirstMissing(EsfItems, g.esfStatus)
      case Some(k) => Some(EsfItems[k].key)
      case None => None
  }

  /** `build_gnss`, without the live position rows and the angles: the
      version rows are appended and the data filled one key after the
      other; the first failed lookup gives the fallback page. */
  method BuildGnss(md: map<string, map<string, string>>, g: GnssReadings) returns (page: Page)
    ensures FirstMissingKey(md, g).Some? <==> page.LookupErrorPage?
    ensures page.LookupErrorPage? ==> page.message == LookupError(FirstMissingKey(md, g).value)
    ensures page.GnssPage? ==>
      && "sys-version" in md && "serial" in md["sys-version"]
      && "hwVersion" in g.version && "swVersion" in g.version && "fwVersion" in g.version && "protocol" in g.version
      && page.title == "VCU Pro (" + md["sys-version"]["serial"] + ")"
      && page.table == [("Version", ""), ("HW", g.version["hwVersion"]), ("SW", g.version["swVersion"]),
                        ("FW", g.version["fwVersion"]), ("Protocol", g.version["protocol"]), ("", "")]
      && page.data.Keys == {"dyn_model", "nmea_protocol", "uart_settings", "imu_auto_align",
                            "imu_auto_align_state", "esf_status"}
      && page.data["dyn_model"] == ShowInt(g.dynModel)
      && page.data["nmea_protocol"] == g.nmeaProtocol
      && page.data["uart_settings"] == UartText(g.bitrate, g.mode)
      && page.data["imu_auto_align"] == AlignText(g.align)
      && page.data["imu_auto_align_state"] == g.alignState
      && NiceOf(EsfItems, g.esfStatus, false) == Text(page.data["esf_status"])
  {
    if "sys-version" !in md {
      return LookupErrorPage(LookupError("sys-version"));
    }
    if "serial" !in md["sys-version"] {
      return LookupErrorPage(LookupError("serial"));
    }
    var serial := md["sys-version"]["serial"];
    var tes: seq<(string, string)> := [];
    var data: map<string, string> := map[];
    tes := tes + [("Version", "")];
    if "hwVersion" !in g.version {
      return LookupErrorPage(LookupError("hwVersion"));
    }
    tes := tes + [("HW", g.version["hwVersion"])];
    if "swVersion" !in g.version {
      return LookupErrorPage(LookupError("swVersion"));
    }
    tes := tes + [("SW", g.version["swVersion"])];
    if "fwVersion" !in g.version {
      return LookupErrorPage(LookupError("fwVersion"));
    }
    tes := tes + [("FW", g.version["fwVersion"])];
    if "protocol" !in g.version {
      return LookupErrorPage(LookupError("protocol"));
    }
    tes := tes + [("Protocol", g.version["protocol"])];
    tes := tes + [("", "")];
    data := data["dyn_model" := ShowInt(g.dynModel)];
    data := data["nmea_protocol" := g.nmeaProtocol];
    data := data["uart_settings" := ShowNat(g.bitrate) + " bps, " + g.mode];
    data := data["imu_auto_align" := if g.align != 0 then "On" else "Off"];
    data := data["imu_auto_align_state" := g.alignState];
    var esf := NiceText(EsfItems, g.esfStatus, false);
    if esf.KeyError? {
      return LookupErrorPage(LookupError(esf.key));
    }
    data := data["esf_status" := esf.text];
    page := GnssPage("VCU Pro (" + serial + ")", tes, data);
  }

  /** With every ESF field present the line reads
      `Fusion: <fusion>, INS: <ins>, IMU: <imu>, IMU Alignment: <imu-align>`. */
  lemma EsfStatusLine(esf: map<string, string>)
    requires "fusion" in esf && "ins" in esf && "imu" in esf && "imu-align" in esf
    ensures NiceOf(EsfItems, esf, false) == Text(Join(", ", ["Fusion: " + esf["fusion"], "INS: " + esf["ins"],
      "IMU: " + esf["imu"], "IMU Alignment: " + esf["imu-align"]]))
  {
    assert EsfItems[1..][1..][1..][1..] == [];
    assert FirstMissing(EsfItems, esf) == None;
    PieceAt(EsfItems, esf, 0);
    PieceAt(EsfItems, esf, 1);
    PieceAt(EsfItems, esf, 2);
    PieceAt(EsfItems, esf, 3);
    var ps := Pieces(EsfItems, esf);
    assert ps[0] == "Fusion: " + esf["fusion"] && ps[1] == "INS: " + esf["ins"];
    assert ps[2] == "IMU: " + esf["imu"] && ps[3] == "IMU Alignment: " + esf["imu-align"];
    assert ps == ["Fusion: " + esf["fusion"], "INS: " + esf["ins"], "IMU: " + esf["imu"], "IMU Alignment: " + esf["imu-align"]];
  }
}
