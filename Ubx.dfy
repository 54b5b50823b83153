/** UBX framing (vcuui/gnss.py, and the identical copies in gnss_tool.py's
    `GnssUBlox`): the two-byte Fletcher checksum of section "UBX Checksum" of
    u-blox's receiver protocol description, and the frame
    `B5 62 <class> <id> <len LE> <payload> <CK_A> <CK_B>`. */
module Ubx {
  import opened Common

  const Sync1: Byte := 0xB5
  const Sync2: Byte := 0x62

  /** The plain sum of the bytes (CK_A before the 8-bit truncation). */
  function SumA(d: seq<Byte>): nat
  {
    if d == [] then 0 else SumA(d[..|d| - 1]) + d[|d| - 1]
  }

  /** The sum of every running SumA after each byte (CK_B before truncation). */
  function SumB(d: seq<Byte>): nat
  {
    if d == [] then 0 else SumB(d[..|d| - 1]) + SumA(d)
  }

  function ChecksumA(d: seq<Byte>): Byte { SumA(d) % 256 }
  function ChecksumB(d: seq<Byte>): Byte { SumB(d) % 256 }

  /** Fletcher's closed form: byte i (of n) is counted n - i times in CK_B. */
  function Weighted(d: seq<Byte>): nat
  {
    if d == [] then 0 else |d| * d[0] + Weighted(d[1..])
  }

  lemma {:induction false} SumAFront(d: seq<Byte>)
    requires d != []
    ensures SumA(d) == d[0] + SumA(d[1..])
    decreases |d|
  {
    if |d| > 1 {
      SumAFront(d[..|d| - 1]);
      assert d[..|d| - 1][1..] == d[1..][..|d[1..]| - 1];
    }
  }

  lemma {:induction false} WeightedSnoc(p: seq<Byte>, x: Byte)
    ensures Weighted(p + [x]) == Weighted(p) + SumA(p + [x])
    decreases |p|
  {
    var d := p + [x];
    if p == [] {
      assert d[1..] == [];
    } else {
      var t := p[1..];
      assert d[1..] == t + [x];
      var a := p[0] as int;
      var n := |p|;
      WeightedSnoc(t, x);
      SumAFront(d);
      MulSucc(n, a);
    }
  }

  lemma MulSucc(n: nat, a: int)
    ensures (n + 1) * a == n * a + a
  {
  }

  /** CK_B agrees with the weighted-sum reference definition. */
  lemma {:induction false} SumBIsWeighted(d: seq<Byte>)
    ensures SumB(d) == Weighted(d)
    decreases |d|
  {
    if d != [] {
      var p := d[..|d| - 1];
      SumBIsWeighted(p);
      assert p + [d[|d| - 1]] == d;
      WeightedSnoc(p, d[|d| - 1]);
    }
  }

  lemma ModAdd(a: nat, b: nat)
    ensures (a % 256 + b) % 256 == (a + b) % 256
    ensures (b + a % 256) % 256 == (a + b) % 256
  {
  }

  lemma SumAStep(d: seq<Byte>, k: nat)
    requires 0 < k <= |d|
    ensures SumA(d[..k]) == SumA(d[..k - 1]) + d[k - 1]
  {
    assert d[..k][..k - 1] == d[..k - 1];
  }

  lemma WeightedStep(d: seq<Byte>, k: nat)
    requires k < |d|
    ensures Weighted(d[k..]) == (|d| - k) * d[k] + Weighted(d[k + 1..])
  {
    assert d[k..][1..] == d[k + 1..];
  }

  /** Both sums of an eight-byte message written out term by term. */
  lemma EightBytes(d: seq<Byte>)
    requires |d| == 8
    ensures SumA(d) == d[0] as int + d[1] + d[2] + d[3] + d[4] + d[5] + d[6] + d[7]
    ensures SumB(d) == 8 * (d[0] as int) + 7 * (d[1] as int) + 6 * (d[2] as int) + 5 * (d[3] as int)
                     + 4 * (d[4] as int) + 3 * (d[5] as int) + 2 * (d[6] as int) + d[7]
  {
    EightSumA(d);
    EightWeighted(d);
    SumBIsWeighted(d);
  }

  lemma EightSumA(d: seq<Byte>)
    requires |d| == 8
    ensures SumA(d) == d[0] as int + d[1] + d[2] + d[3] + d[4] + d[5] + d[6] + d[7]
  {
    SumAFour(d, 0);
    SumAFour(d, 4);
    assert d[..0] == [] && d[..8] == d;
  }

  lemma SumAFour(d: seq<Byte>, k: nat)
    requires k + 4 <= |d|
    ensures SumA(d[..k + 4]) == SumA(d[..k]) + d[k] + d[k + 1] + d[k + 2] + d[k + 3]
  {
    SumAStep(d, k + 1); SumAStep(d, k + 2); SumAStep(d, k + 3); SumAStep(d, k + 4);
  }

  lemma EightWeighted(d: seq<Byte>)
    requires |d| == 8
    ensures Weighted(d) == 8 * (d[0] as int) + 7 * (d[1] as int) + 6 * (d[2] as int) + 5 * (d[3] as int)
                         + 4 * (d[4] as int) + 3 * (d[5] as int) + 2 * (d[6] as int) + d[7]
  {
    WeightedStep(d, 0); WeightedStep(d, 1); WeightedStep(d, 2); WeightedStep(d, 3);
    WeightedStep(d, 4); WeightedStep(d, 5); WeightedStep(d, 6); WeightedStep(d, 7);
    assert d[8..] == [] && d[0..] == d;
  }

  /** The running checksum, computed byte by byte with 8-bit truncation after
      each addition. */
  method CalcChecksum(data: seq<Byte>) returns (cka: Byte, ckb: Byte)
    ensures cka == ChecksumA(data) && ckb == ChecksumB(data)
  {
    cka := 0;
    ckb := 0;
    for i := 0 to |data|
      invariant cka == SumA(data[..i]) % 256
      invariant ckb == SumB(data[..i]) % 256
    {
      assert data[..i + 1][..i] == data[..i];
      var a := SumA(data[..i + 1]);
      assert a == SumA(data[..i]) + data[i];
      ModAdd(SumA(data[..i]), data[i]);
      cka := (cka as int + data[i]) % 256;
      assert cka == a % 256;
      assert SumB(data[..i + 1]) == SumB(data[..i]) + a;
      ModAdd(SumB(data[..i]), a);
      ModAdd(a, ckb);
      ckb := (ckb as int + cka) % 256;
    }
    assert data[..|data|] == data;
  }

  /** The frame around `data`, which already holds class, id, length and payload. */
  function Framed(data: seq<Byte>): seq<Byte>
  {
    [Sync1, Sync2] + data + [ChecksumA(data), ChecksumB(data)]
  }

  method CreateUbxMessage(data: seq<Byte>) returns (msg: seq<Byte>)
    ensures msg == Framed(data)
  {
    var cka, ckb := CalcChecksum(data);
    msg := [Sync1, Sync2] + data;
    msg := msg + [cka];
    msg := msg + [ckb];
  }

  /** The frame is four bytes longer than its content, carries the content
      unchanged between the sync bytes and the checksum, and the checksum
      covers exactly the content, never the sync bytes. */
  lemma FramedLayout(data: seq<Byte>)
    ensures var m := Framed(data);
      && |m| == |data| + 4
      && m[0] == 0xB5 && m[1] == 0x62
      && m[2..|data| + 2] == data
      && m[|data| + 2] == ChecksumA(m[2..|data| + 2])
      && m[|data| + 3] == ChecksumB(m[2..|data| + 2])
  {
    var m := Framed(data);
    assert m[2..|data| + 2] == data;
  }

  /** Class, id, little-endian length and payload: the content of a frame. */
  function Command(msgClass: Byte, msgId: Byte, payload: seq<Byte>): seq<Byte>
    requires |payload| < 0x1_0000
  {
    [msgClass, msgId, |payload| % 256, |payload| / 256] + payload
  }

  /** UBX-CFG-RST, controlled GNSS stop (reset mode 8). */
  const StopReceiver: seq<Byte> := [0x06, 0x04, 0x04, 0x00, 0x00, 0x00, 0x08, 0x00]
  /** UBX-CFG-RST, controlled GNSS start (reset mode 9). */
  const StartReceiver: seq<Byte> := [0x06, 0x04, 0x04, 0x00, 0x00, 0x00, 0x09, 0x00]
  /** UBX-UPD-SOS, create backup in flash (command 0). */
  const SaveState: seq<Byte> := [0x09, 0x14, 0x04, 0x00, 0x00, 0x00, 0x00, 0x00]

  lemma CommandPayloads()
    ensures StopReceiver == Command(0x06, 0x04, [0x00, 0x00, 0x08, 0x00])
    ensures StartReceiver == Command(0x06, 0x04, [0x00, 0x00, 0x09, 0x00])
    ensures SaveState == Command(0x09, 0x14, [0x00, 0x00, 0x00, 0x00])
  {
  }

  /** The checksums in the module's own tests. */
  lemma ChecksumVectors()
    ensures ChecksumA(StartReceiver) == 0x17 && ChecksumB(StartReceiver) == 0x76
    ensures ChecksumA(SaveState) == 0x21 && ChecksumB(SaveState) == 0xEC
    ensures var d: seq<Byte> := [0x06, 0x04, 0x04, 0x00, 0xFF, 0x87, 0x00, 0x00];
      ChecksumA(d) == 0x94 && ChecksumB(d) == 0xF5
  {
    EightBytes(StartReceiver);
    EightBytes(SaveState);
    EightBytes([0x06, 0x04, 0x04, 0x00, 0xFF, 0x87, 0x00, 0x00]);
  }

  lemma FrameVector()
    ensures Framed([0x06, 0x04, 0x04, 0x00, 0xFF, 0x87, 0x00, 0x00])
         == [0xB5, 0x62, 0x06, 0x04, 0x04, 0x00, 0xFF, 0x87, 0x00, 0x00, 0x94, 0xF5]
  {
    ChecksumVectors();
  }
}
