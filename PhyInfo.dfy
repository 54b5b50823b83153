/** The Ethernet PHY readings of vcuui/phy_info.py (`PhyInfo`): the PHY's
    sysfs directory is found from the interface's `phydev` link, and the
    link state and the signal-quality class are read from files in it.
    The link target and the first line of each file are parameters. */
module PhyInfo {
  import opened Common

  /** What `os.readlink` of the interface's `phydev` entry gave. */
  datatype PhyDevLink = Target(path: string) | NoEntry

  const MdioDevices := "/sys/bus/mdio_bus/devices/4a101000.mdio:"
  const ConfigurationDir := "/configuration/"

  /** `link.split(':')[1]`: IndexError when the link holds no ':'. */
  function PhyId(link: string): Raising<string> {
    var parts := Split(link, ':');
    if |parts| < 2 then Raised("IndexError") else Returned(parts[1])
  }

  /** The constructor's `__sys_node`: None when the interface has no
      `phydev` entry; the IndexError of `PhyId` is not caught. */
  function SysNode(link: PhyDevLink): Raising<Option<string>> {
    match link
    case NoEntry => Returned(None)
    case Target(path) =>
      match PhyId(path)
      case Returned(id) => Returned(Some(MdioDevices + id + ConfigurationDir))
      case Raised(e) => Raised(e)
  }

  /** The id is the text between the link's first and second ':', and
      `PhyId` raises exactly when the link holds no ':'. */
  lemma PhyIdOfLink(link: string)
    ensures PhyId(link).Raised? <==> ':' !in link
    ensures PhyId(link).Returned? ==> ':' !in PhyId(link).value
  {
    var parts := Split(link, ':');
    if |parts| < 2 {
      JoinSplit(link, ':');
      assert link == parts[0];
    } else {
      if ':' !in link {
        SplitJoin([link], ':');
      }
    }
  }

  /** A link `dir:id` names PHY `id`, as the `...4a101000.mdio:03` target
      names PHY 03. */
  lemma PhyIdAfterColon(dir: string, id: string)
    requires ':' !in dir && ':' !in id
    ensures PhyId(dir + ":" + id) == Returned(id)
    ensures SysNode(Target(dir + ":" + id)) == Returned(Some(MdioDevices + id + ConfigurationDir))
  {
    SplitJoin([dir, id], ':');
    assert Join([':'], [dir, id]) == dir + ":" + id;
  }

  /** `state()`: None without a sysfs directory, otherwise the stripped
      first line of `link_status`. */
  function State(sysNode: Option<string>, firstLine: string): Option<string> {
    if sysNode.Some? then Some(Strip(firstLine)) else None
  }

  /** The state is present exactly with a sysfs directory, and carries no
      whitespace at either end. */
  lemma StateTrimmed(sysNode: Option<string>, firstLine: string)
    ensures State(sysNode, firstLine).Some? <==> sysNode.Some?
    ensures var r := State(sysNode, firstLine);
      r.Some? && r.value != [] ==> !IsSpace(r.value[0]) && !IsSpace(r.value[|r.value| - 1])
  {
    var rs := RStrip(firstLine);
    var r := LStrip(rs);
    if r != [] {
      assert r[|r| - 1] == rs[|rs| - 1];
    }
  }

  /** The signal-quality ladder of `quality()` on the stripped line. */
  function QualityOf(q: string): int {
    if Contains(q, "Class A") then 0
    else if Contains(q, "Class B") then 16
    else if Contains(q, "Class C") then 33
    else if Contains(q, "Class D") then 50
    else if Contains(q, "Class E") then 66
    else if Contains(q, "Class F") then 83
    else if Contains(q, "Class G") then 100
    else 0
  }

  /** `quality()`: None without a sysfs directory. */
  function Quality(sysNode: Option<string>, firstLine: string): Option<int> {
    if sysNode.Some? then Some(QualityOf(Strip(firstLine))) else None
  }

  /** The SNR classes from worst to best and the percentage of each. */
  const Classes: seq<string> := ["Class A", "Class B", "Class C", "Class D", "Class E", "Class F", "Class G"]
  const Levels: seq<int> := [0, 16, 33, 50, 66, 83, 100]

  /** The first class from index i on that the line names. */
  function FirstClass(q: string, i: nat): (r: Option<nat>)
    requires i <= |Classes|
    ensures r.Some? ==> i <= r.value < |Classes| && Contains(q, Classes[r.value])
    ensures r.Some? ==> forall j :: i <= j < r.value ==> !Contains(q, Classes[j])
    ensures r.None? ==> forall j :: i <= j < |Classes| ==> !Contains(q, Classes[j])
    decreases |Classes| - i
  {
    if i == |Classes| then None
    else if Contains(q, Classes[i]) then Some(i)
    else FirstClass(q, i + 1)
  }

  /** The ladder scores the first class the line names by the table, and a
      line that names no class as 0. */
  lemma QualityByTable(q: string)
    ensures QualityOf(q) == match FirstClass(q, 0) case Some(k) => Levels[k] case None => 0
  {
    var f := FirstClass(q, 0);
    if f.Some? {
      var k := f.value;
      assert Contains(q, Classes[k]);
      assert forall j :: 0 <= j < k ==> !Contains(q, Classes[j]);
      if k == 0 {
      } else if k == 1 {
        assert !Contains(q, Classes[0]);
      } else if k == 2 {
        assert !Contains(q, Classes[0]) && !Contains(q, Classes[1]);
      } else if k == 3 {
        assert !Contains(q, Classes[0]) && !Contains(q, Classes[1]) && !Contains(q, Classes[2]);
      } else if k == 4 {
        assert !Contains(q, Classes[0]) && !Contains(q, Classes[1]) && !Contains(q, Classes[2]);
        assert !Contains(q, Classes[3]);
      } else if k == 5 {
        assert !Contains(q, Classes[0]) && !Contains(q, Classes[1]) && !Contains(q, Classes[2]);
        assert !Contains(q, Classes[3]) && !Contains(q, Classes[4]);
      } else {
        assert !Contains(q, Classes[0]) && !Contains(q, Classes[1]) && !Contains(q, Classes[2]);
        assert !Contains(q, Classes[3]) && !Contains(q, Classes[4]) && !Contains(q, Classes[5]);
      }
    } else {
      assert !Contains(q, Classes[0]) && !Contains(q, Classes[1]) && !Contains(q, Classes[2]);
      assert !Contains(q, Classes[3]) && !Contains(q, Classes[4]) && !Contains(q, Classes[5]);
      assert !Contains(q, Classes[6]);
    }
  }

  /** The quality is a percentage from the table, and a better class than
      the one another line names scores strictly higher, except that
      Class A scores like a line naming no class. */
  lemma QualityOrdered(q1: string, q2: string)
    ensures QualityOf(q1) in Levels && 0 <= QualityOf(q1) <= 100
    ensures FirstClass(q1, 0).Some? && FirstClass(q2, 0).Some? && FirstClass(q1, 0).value < FirstClass(q2, 0).value
      ==> QualityOf(q1) < QualityOf(q2)
    ensures QualityOf(q1) == 0 <==> FirstClass(q1, 0).None? || FirstClass(q1, 0) == Some(0)
  {
    QualityByTable(q1);
    QualityByTable(q2);
  }

  /** Without a sysfs directory there is neither state nor quality. */
  lemma NoNodeNoReadings(firstLine: string)
    ensures State(None, firstLine).None? && Quality(None, firstLine).None?
    ensures Quality(Some(MdioDevices), firstLine).Some?
  {
  }
}
