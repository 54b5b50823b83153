/** The traffic counters of vcuui/vnstat.py (`VnStat.get`): vnstat's
    one-line output is split at ';' and the day, month and all-time rx/tx
    byte counts are taken from fixed fields. Running vnstat is left out:
    whether it was found, its exit code and its output are parameters. */
module VnStat {
  import opened Common

  datatype Traffic = Traffic(dayRx: int, dayTx: int, monthRx: int, monthTx: int, yearRx: int, yearTx: int)

  /** What `subprocess.run` of vnstat gave: FileNotFoundError, or an exit
      code and the output. */
  datatype Run = NotInstalled | Ran(returncode: int, stdout: string)

  /** `stdout.strip().split(';')`. */
  function Fields(stdout: string): seq<string> {
    Split(Strip(stdout), ';')
  }

  /** Python `int(s)`: a ValueError, which `get` does not catch, for text
      that is not a number. */
  function Int(s: string): Raising<int> {
    IntOfValue(VStr(s))
  }

  /** The six counters from fields 3, 4, 8, 9, 12 and 13. */
  function TrafficOf(f: seq<string>): Raising<Traffic>
    requires |f| >= 14
  {
    var rxDay, txDay, rxMonth, txMonth, rxYear, txYear :=
      Int(f[3]), Int(f[4]), Int(f[8]), Int(f[9]), Int(f[12]), Int(f[13]);
    if rxDay.Raised? || txDay.Raised? || rxMonth.Raised? || txMonth.Raised? || rxYear.Raised? || txYear.Raised?
    then Raised("ValueError")
    else Returned(Traffic(rxDay.value, txDay.value, rxMonth.value, txMonth.value, rxYear.value, txYear.value))
  }

  /** Six numeric fields give their numbers. */
  lemma TrafficOfNumbers(f: seq<string>)
    requires |f| >= 14
    requires Int(f[3]).Returned? && Int(f[4]).Returned? && Int(f[8]).Returned?
    requires Int(f[9]).Returned? && Int(f[12]).Returned? && Int(f[13]).Returned?
    ensures TrafficOf(f) == Returned(Traffic(Int(f[3]).value, Int(f[4]).value, Int(f[8]).value,
                                             Int(f[9]).value, Int(f[12]).value, Int(f[13]).value))
  {
  }

  /** `get` as written: the guard admits 13 fields, but field 13 is read, so
      a 13-field line for the interface raises IndexError. */
  function GetAsWritten(run: Run, iface: string): Raising<Option<Traffic>> {
    match run
    case NotInstalled => Returned(None)
    case Ran(rc, out) =>
      var f := Fields(out);
      if rc != 0 || !(|f| >= 13 && f[1] == iface) then Returned(None)
      else if |f| < 14 then Raised("IndexError")
      else match TrafficOf(f)
        case Returned(t) => Returned(Some(t))
        case Raised(e) => Raised(e)
  }

  /** `get` with the guard the fields it reads need: at least 14. */
  function Get(run: Run, iface: string): Raising<Option<Traffic>> {
    match run
    case NotInstalled => Returned(None)
    case Ran(rc, out) =>
      var f := Fields(out);
      if rc != 0 || !(|f| >= 14 && f[1] == iface) then Returned(None)
      else match TrafficOf(f)
        case Returned(t) => Returned(Some(t))
        case Raised(e) => Raised(e)
  }

  /** A line of exactly 13 fields naming the interface makes `get` as
      written raise IndexError; the corrected guard returns None. */
  lemma ThirteenFieldsRaise(out: string, iface: string)
    requires |Fields(out)| == 13 && Fields(out)[1] == iface
    ensures GetAsWritten(Ran(0, out), iface) == Raised("IndexError")
    ensures Get(Ran(0, out), iface) == Returned(None)
  {
  }

  /** With the corrected guard a result comes exactly from a successful run
      whose line has 14 or more fields and names the interface, and then
      holds the numbers of fields 3, 4, 8, 9, 12 and 13; it never raises
      IndexError, only ValueError for a field that is not a number. */
  lemma GetSpec(run: Run, iface: string)
    ensures Get(run, iface).Returned? && Get(run, iface).value.Some? <==>
      && run.Ran? && run.returncode == 0
      && |Fields(run.stdout)| >= 14 && Fields(run.stdout)[1] == iface
      && TrafficOf(Fields(run.stdout)).Returned?
    ensures Get(run, iface).Returned? && Get(run, iface).value.Some? ==>
      var f := Fields(run.stdout);
      var t := Get(run, iface).value.value;
      && Int(f[3]) == Returned(t.dayRx) && Int(f[4]) == Returned(t.dayTx)
      && Int(f[8]) == Returned(t.monthRx) && Int(f[9]) == Returned(t.monthTx)
      && Int(f[12]) == Returned(t.yearRx) && Int(f[13]) == Returned(t.yearTx)
    ensures Get(run, iface).Raised? ==> Get(run, iface).error == "ValueError"
  {
  }

  /** Both guards agree on every line of 14 or more fields, and on every
      line that does not name the interface. */
  lemma GuardsAgree(run: Run, iface: string)
    requires run.Ran? ==> |Fields(run.stdout)| != 13 || Fields(run.stdout)[1] != iface
    ensures GetAsWritten(run, iface) == Get(run, iface)
  {
  }

  /** The fields of the sample line in the source's comment. */
  const SampleFields: seq<string> := ["1", "wwan0", "2022-12-04", "34572019", "50154378", "84726397", "1370",
    "2022-12", "34572019", "50154378", "84726397", "263", "34572019", "50154378", "84726397"]

  /** Digits alone are `int()`'s value of them. */
  lemma IntOfDigits(s: string)
    requires s != [] && AllDigits(s, 10)
    ensures Int(s) == Returned(DigitsValue(s, 10))
  {
    assert DigitValue(s[0]) < 10;
  }

  lemma Digits3457()
    ensures AllDigits("3457", 10) && DigitsValue("3457", 10) == 3457
  {
    DigitsSnoc("", '3', 10);
    assert "" + ['3'] == "3";
    DigitsSnoc("3", '4', 10);
    assert "3" + ['4'] == "34";
    DigitsSnoc("34", '5', 10);
    assert "34" + ['5'] == "345";
    DigitsSnoc("345", '7', 10);
    assert "345" + ['7'] == "3457";
  }

  lemma Digits34572019()
    ensures AllDigits("34572019", 10) && DigitsValue("34572019", 10) == 34572019
  {
    Digits3457();
    DigitsSnoc("3457", '2', 10);
    assert "3457" + ['2'] == "34572";
    DigitsSnoc("34572", '0', 10);
    assert "34572" + ['0'] == "345720";
    DigitsSnoc("345720", '1', 10);
    assert "345720" + ['1'] == "3457201";
    DigitsSnoc("3457201", '9', 10);
    assert "3457201" + ['9'] == "34572019";
  }

  lemma Digits5015()
    ensures AllDigits("5015", 10) && DigitsValue("5015", 10) == 5015
  {
    DigitsSnoc("", '5', 10);
    assert "" + ['5'] == "5";
    DigitsSnoc("5", '0', 10);
    assert "5" + ['0'] == "50";
    DigitsSnoc("50", '1', 10);
    assert "50" + ['1'] == "501";
    DigitsSnoc("501", '5', 10);
    assert "501" + ['5'] == "5015";
  }

  lemma Digits50154378()
    ensures AllDigits("50154378", 10) && DigitsValue("50154378", 10) == 50154378
  {
    Digits5015();
    DigitsSnoc("5015", '4', 10);
    assert "5015" + ['4'] == "50154";
    DigitsSnoc("50154", '3', 10);
    assert "50154" + ['3'] == "501543";
    DigitsSnoc("501543", '7', 10);
    assert "501543" + ['7'] == "5015437";
    DigitsSnoc("5015437", '8', 10);
    assert "5015437" + ['8'] == "50154378";
  }

  lemma RxSample()
    ensures Int("34572019") == Returned(34572019)
  {
    Digits34572019();
    IntOfDigits("34572019");
  }

  lemma TxSample()
    ensures Int("50154378") == Returned(50154378)
  {
    Digits50154378();
    IntOfDigits("50154378");
  }

  /** The sample line gives rx 34572019 and tx 50154378 for the day, the
      month and all time. */
  lemma SampleLine(out: string)
    requires Fields(out) == SampleFields
    ensures Get(Ran(0, out), "wwan0")
      == Returned(Some(Traffic(34572019, 50154378, 34572019, 50154378, 34572019, 50154378)))
  {
    var f := Fields(out);
    assert |f| == 15 && f[1] == "wwan0";
    assert f[3] == f[8] == f[12] == "34572019";
    assert f[4] == f[9] == f[13] == "50154378";
    RxSample();
    TxSample();
    TrafficOfNumbers(f);
  }

}
