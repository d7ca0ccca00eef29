/**
 * The ID generator (src/lib/generateId.ts): a prefix, '_', twelve hex digits
 * that encode the millisecond timestamp and a per-millisecond counter (or
 * their 48-bit complement, for IDs that sort newest first), and a random
 * suffix. `Date.now()` and the random suffix are parameters.
 */
module GenerateId {

  /** The prefixes of the `ID` table. */
  const SESSION: string := "ses"
  const MESSAGE: string := "msg"
  const USER: string := "usr"
  const PART: string := "prt"

  const TWO_48: int := 0x1_0000_0000_0000

  function Pow2(n: nat): (r: int)
    ensures r >= 1
  {
    if n == 0 then 1 else 2 * Pow2(n - 1)
  }

  lemma {:induction false} Pow2Add(a: nat, b: nat)
    ensures Pow2(a + b) == Pow2(a) * Pow2(b)
    decreases a
  {
    if a > 0 {
      Pow2Add(a - 1, b);
      assert Pow2(a + b) == 2 * Pow2(a - 1 + b);
    }
  }

  lemma Pow2Byte()
    ensures Pow2(8) == 256
  {
    assert Pow2(4) == 16 by {
      assert Pow2(2) == 4;
    }
    Pow2Add(4, 4);
  }

  lemma Pow2Width()
    ensures Pow2(48) == TWO_48
  {
    Pow2Byte();
    Pow2Add(8, 8);
    Pow2Add(16, 16);
    Pow2Add(32, 16);
  }

  // Arithmetic on Euclidean division, which agrees with `>>` and `& mask`
  // on BigInt for the positive divisors used here.

  lemma {:induction false} MulAtLeast(k: int, m: int)
    requires k >= 1 && m > 0
    ensures k * m >= m
    decreases k
  {
    if k > 1 {
      MulAtLeast(k - 1, m);
      assert k * m == (k - 1) * m + m;
    }
  }

  lemma {:induction false} MulLeft(a: int, x: int, y: int)
    requires a >= 0 && x <= y
    ensures a * x <= a * y
  {
    if x < y {
      assert a * y == a * x + a * (y - x);
      if a > 0 {
        MulAtLeast(y - x, a);
        assert (y - x) * a >= a;
      }
    }
  }

  /** Quotient and remainder are the only pair that rebuilds v. */
  lemma {:induction false} DivModUnique(v: int, m: int, q: int, r: int)
    requires m > 0 && 0 <= r < m && v == q * m + r
    ensures v / m == q && v % m == r
  {
    var q0 := v / m;
    var r0 := v % m;
    assert v == q0 * m + r0;
    if q > q0 {
      assert q * m == (q - q0) * m + q0 * m;
      MulAtLeast(q - q0, m);
    } else if q < q0 {
      assert q0 * m == (q0 - q) * m + q * m;
      MulAtLeast(q0 - q, m);
    }
  }

  lemma {:induction false} DivDiv(v: int, a: int, b: int)
    requires a > 0 && b > 0
    ensures (v / a) / b == v / (a * b)
  {
    var q1 := v / a;
    var r1 := v % a;
    var q2 := q1 / b;
    var r2 := q1 % b;
    assert v == (a * b) * q2 + (a * r2 + r1) by {
      assert v == a * q1 + r1;
      assert q1 == b * q2 + r2;
      assert a * q1 == a * (b * q2) + a * r2;
    }
    MulLeft(a, r2, b - 1);
    assert a * (b - 1) == a * b - a;
    DivModUnique(v, a * b, q2, a * r2 + r1);
  }

  lemma {:induction false} ModOfDiv(w: int, b: int, c: int)
    requires b > 0 && c > 0
    ensures ((w / b) % c) * b + w % b == w % (c * b)
  {
    var q := w / b;
    var r := w % b;
    var q2 := q / c;
    var r2 := q % c;
    assert w == (c * b) * q2 + (r2 * b + r) by {
      assert w == b * q + r;
      assert q == c * q2 + r2;
      assert b * q == b * (c * q2) + b * r2;
    }
    MulLeft(b, r2, c - 1);
    assert b * (c - 1) == c * b - b;
    DivModUnique(w, c * b, q2, r2 * b + r);
  }

  /** `~v & 0xffffffffffff` on a BigInt: `~v` is `-v - 1`, and the mask keeps it modulo 2^48. */
  function Complement48(v: int): int {
    (-v - 1) % TWO_48
  }

  /** The complement is 2^48 - 1 minus the low 48 bits of v. */
  lemma {:induction false} Complement48Is(v: int)
    ensures Complement48(v) == TWO_48 - 1 - v % TWO_48
  {
    var q := v / TWO_48;
    var r := v % TWO_48;
    assert -v - 1 == (-q - 1) * TWO_48 + (TWO_48 - 1 - r);
    DivModUnique(-v - 1, TWO_48, -q - 1, TWO_48 - 1 - r);
  }

  /** The 48-bit value of an ID: timestamp * 4096 + counter, complemented for descending IDs. */
  function Encoded(timestamp: int, counter: int, descending: bool): int {
    var now := timestamp * 0x1000 + counter;
    if descending then Complement48(now) else now
  }

  /** Byte i of the encoding: `Number((now >> BigInt(40 - 8 * i)) & BigInt(0xff))`. */
  function ByteAt(v: int, i: nat): (b: int)
    requires i < 6
    ensures 0 <= b < 256
  {
    (v / Pow2(40 - 8 * i)) % 256
  }

  /** The six bytes of `timeBytes`. */
  function Bytes(v: int): (r: seq<int>)
    ensures |r| == 6 && forall i :: 0 <= i < 6 ==> r[i] == ByteAt(v, i)
  {
    seq(6, i requires 0 <= i < 6 => ByteAt(v, i))
  }

  /** The number a sequence of bytes denotes, most significant first. */
  function DecodeBytes(bs: seq<int>): int {
    if |bs| == 0 then 0 else DecodeBytes(bs[..|bs| - 1]) * 256 + bs[|bs| - 1]
  }

  lemma {:induction false} DecodeBytesPrefix(v: int, m: nat)
    requires m <= 6
    ensures DecodeBytes(Bytes(v)[..m]) == (v / Pow2(48 - 8 * m)) % Pow2(8 * m)
  {
    if m > 0 {
      var k := m - 1;
      DecodeBytesPrefix(v, k);
      var bs := Bytes(v)[..m];
      assert bs[..k] == Bytes(v)[..k];
      var w := v / Pow2(40 - 8 * k);
      Pow2Byte();
      Pow2Add(40 - 8 * k, 8);
      DivDiv(v, Pow2(40 - 8 * k), 256);
      assert v / Pow2(48 - 8 * k) == w / 256;
      ModOfDiv(w, 256, Pow2(8 * k));
      Pow2Add(8 * k, 8);
    }
  }

  /** The six bytes are the big-endian encoding of the low 48 bits; higher bits are dropped. */
  lemma {:induction false} BytesDecode(v: int)
    ensures DecodeBytes(Bytes(v)) == v % TWO_48
  {
    DecodeBytesPrefix(v, 6);
    assert Bytes(v)[..6] == Bytes(v);
    Pow2Width();
  }

  predicate IsHexDigit(c: char) {
    '0' <= c <= '9' || 'a' <= c <= 'f'
  }

  predicate AllHex(s: string) {
    forall i :: 0 <= i < |s| ==> IsHexDigit(s[i])
  }

  /** A lowercase hex digit, as `toString(16)` writes it. */
  function HexDigit(d: int): (c: char)
    requires 0 <= d < 16
    ensures IsHexDigit(c)
  {
    if d < 10 then (48 + d) as char else (87 + d) as char
  }

  function HexValue(c: char): (d: int)
    requires IsHexDigit(c)
    ensures 0 <= d < 16
  {
    if c <= '9' then c as int - 48 else c as int - 87
  }

  /** `byte.toString(16).padStart(2, "0")`. */
  function HexByte(b: int): string
    requires 0 <= b < 256
  {
    [HexDigit(b / 16), HexDigit(b % 16)]
  }

  predicate AreBytes(bs: seq<int>) {
    forall i :: 0 <= i < |bs| ==> 0 <= bs[i] < 256
  }

  /** `.map(...).join("")`. */
  function HexOfBytes(bs: seq<int>): string
    requires AreBytes(bs)
  {
    if |bs| == 0 then "" else HexOfBytes(bs[..|bs| - 1]) + HexByte(bs[|bs| - 1])
  }

  /** The twelve hex digits of an ID. */
  function Hex(v: int): string {
    HexOfBytes(Bytes(v))
  }

  /** The number a string of hex digits denotes. */
  function DecodeHex(s: string): int
    requires AllHex(s)
  {
    if |s| == 0 then 0 else DecodeHex(s[..|s| - 1]) * 16 + HexValue(s[|s| - 1])
  }

  lemma {:induction false} HexOfBytesFacts(bs: seq<int>)
    requires AreBytes(bs)
    ensures |HexOfBytes(bs)| == 2 * |bs|
    ensures AllHex(HexOfBytes(bs))
    ensures DecodeHex(HexOfBytes(bs)) == DecodeBytes(bs)
  {
    if |bs| > 0 {
      var init := bs[..|bs| - 1];
      var b := bs[|bs| - 1];
      HexOfBytesFacts(init);
      var h := HexOfBytes(init);
      var s := h + HexByte(b);
      assert s[..|s| - 1] == h + [HexDigit(b / 16)];
      assert (h + [HexDigit(b / 16)])[..|h|] == h;
      assert HexValue(HexDigit(b / 16)) == b / 16;
      assert HexValue(HexDigit(b % 16)) == b % 16;
    }
  }

  /**
   * The hex part has exactly twelve lowercase hex digits, and they decode
   * back to the value modulo 2^48.
   */
  lemma {:induction false} HexFacts(v: int)
    ensures |Hex(v)| == 12
    ensures AllHex(Hex(v))
    ensures DecodeHex(Hex(v)) == v % TWO_48
  {
    HexOfBytesFacts(Bytes(v));
    BytesDecode(v);
  }

  /** s comes before t in string order, at the first position where they differ. */
  predicate LexLess(s: string, t: string) {
    exists k :: 0 <= k < |s| && k < |t| && s[..k] == t[..k] && s[k] < t[k]
  }

  lemma {:induction false} DecodeInjective(s: string, t: string)
    requires AllHex(s) && AllHex(t) && |s| == |t|
    requires DecodeHex(s) == DecodeHex(t)
    ensures s == t
  {
    if |s| > 0 {
      var n := |s| - 1;
      var x := HexValue(s[n]);
      var y := HexValue(t[n]);
      DivModUnique(DecodeHex(s), 16, DecodeHex(s[..n]), x);
      DivModUnique(DecodeHex(t), 16, DecodeHex(t[..n]), y);
      DecodeInjective(s[..n], t[..n]);
      assert s == s[..n] + [s[n]] && t == t[..n] + [t[n]];
      assert x == y;
      assert s[n] == t[n];
    }
  }

  /** For hex strings of one length, a smaller value is an earlier string. */
  lemma {:induction false} DecodeOrder(s: string, t: string)
    requires AllHex(s) && AllHex(t) && |s| == |t|
    requires DecodeHex(s) < DecodeHex(t)
    ensures LexLess(s, t)
  {
    var n := |s| - 1;
    var x := HexValue(s[n]);
    var y := HexValue(t[n]);
    var a := DecodeHex(s[..n]);
    var b := DecodeHex(t[..n]);
    if a < b {
      DecodeOrder(s[..n], t[..n]);
      var k :| 0 <= k < n && s[..n][..k] == t[..n][..k] && s[..n][k] < t[..n][k];
      assert s[..k] == s[..n][..k] && t[..k] == t[..n][..k];
    } else if a == b {
      DecodeInjective(s[..n], t[..n]);
      assert s[n] < t[n];
    }
  }

  lemma LowBits(v: int)
    requires 0 <= v < TWO_48
    ensures v % TWO_48 == v
  {
    DivModUnique(v, TWO_48, 0, v);
  }

  /** Up to 2^48, hex order is numeric order. */
  lemma {:induction false} HexOrder(a: int, b: int)
    requires 0 <= a < b < TWO_48
    ensures LexLess(Hex(a), Hex(b))
  {
    HexFacts(a);
    HexFacts(b);
    LowBits(a);
    LowBits(b);
    DecodeOrder(Hex(a), Hex(b));
  }

  /**
   * The 48 bits the ID keeps: the timestamp modulo 2^36 (its low 36 bits)
   * followed by the 12-bit counter. Higher bits of the timestamp are lost.
   */
  lemma EncodedLowBits(timestamp: int, counter: int)
    requires 0 <= counter < 0x1000
    ensures (timestamp * 0x1000 + counter) % TWO_48 == (timestamp % 0x10_0000_0000) * 0x1000 + counter
  {
    var q := timestamp / 0x10_0000_0000;
    var r := timestamp % 0x10_0000_0000;
    assert timestamp * 0x1000 + counter == q * TWO_48 + (r * 0x1000 + counter);
    DivModUnique(timestamp * 0x1000 + counter, TWO_48, q, r * 0x1000 + counter);
  }

  /**
   * Within one millisecond (counters below 4096), a later counter gives a
   * later ascending ID and an earlier descending ID, whatever the timestamp.
   */
  lemma {:induction false} SameMillisecondOrder(timestamp: int, c1: int, c2: int)
    requires 0 <= c1 < c2 < 0x1000
    ensures LexLess(Hex(Encoded(timestamp, c1, false)), Hex(Encoded(timestamp, c2, false)))
    ensures LexLess(Hex(Encoded(timestamp, c2, true)), Hex(Encoded(timestamp, c1, true)))
  {
    var t := timestamp % 0x10_0000_0000;
    EncodedLowBits(timestamp, c1);
    EncodedLowBits(timestamp, c2);
    EncodedOrder(timestamp * 0x1000 + c1, timestamp * 0x1000 + c2, t * 0x1000 + c1, t * 0x1000 + c2);
  }

  /**
   * IDs from later milliseconds sort later (ascending) or earlier
   * (descending) as long as both timestamps lie in the same 2^36 ms window,
   * since the encoding keeps only the timestamp's low 36 bits.
   */
  lemma {:induction false} LaterMillisecondOrder(t1: int, c1: int, t2: int, c2: int)
    requires t1 < t2 && t1 / 0x10_0000_0000 == t2 / 0x10_0000_0000
    requires 0 <= c1 < 0x1000 && 0 <= c2 < 0x1000
    ensures LexLess(Hex(Encoded(t1, c1, false)), Hex(Encoded(t2, c2, false)))
    ensures LexLess(Hex(Encoded(t2, c2, true)), Hex(Encoded(t1, c1, true)))
  {
    var q := t1 / 0x10_0000_0000;
    var r1 := t1 % 0x10_0000_0000;
    var r2 := t2 % 0x10_0000_0000;
    assert r1 < r2 by {
      assert t1 == q * 0x10_0000_0000 + r1 && t2 == q * 0x10_0000_0000 + r2;
    }
    EncodedLowBits(t1, c1);
    EncodedLowBits(t2, c2);
    assert r1 * 0x1000 + c1 < r2 * 0x1000 + c2 by {
      MulLeft(0x1000, r1 + 1, r2);
    }
    EncodedOrder(t1 * 0x1000 + c1, t2 * 0x1000 + c2, r1 * 0x1000 + c1, r2 * 0x1000 + c2);
  }

  /** Two values whose low 48 bits ascend give ascending plain hex parts and descending complemented ones. */
  lemma {:induction false} EncodedOrder(v1: int, v2: int, l1: int, l2: int)
    requires v1 % TWO_48 == l1 && v2 % TWO_48 == l2 && l1 < l2
    ensures LexLess(Hex(v1), Hex(v2))
    ensures LexLess(Hex(Complement48(v2)), Hex(Complement48(v1)))
  {
    HexFacts(v1);
    HexFacts(v2);
    DecodeOrder(Hex(v1), Hex(v2));
    Complement48Is(v1);
    Complement48Is(v2);
    HexOrder(TWO_48 - 1 - l2, TWO_48 - 1 - l1);
  }

  /** The counter a call uses: 1 in a new millisecond, one more than the last in the same one. */
  function NextCounter(lastTimestamp: int, counter: int, currentTimestamp: int): int {
    if currentTimestamp != lastTimestamp then 1 else counter + 1
  }

  /** The generator's state after calls at the given timestamps, one after another. */
  function CountersAfter(lastTimestamp: int, counter: int, stamps: seq<int>): (int, int) {
    if |stamps| == 0 then (lastTimestamp, counter)
    else
      var (t, c) := CountersAfter(lastTimestamp, counter, stamps[..|stamps| - 1]);
      (stamps[|stamps| - 1], NextCounter(t, c, stamps[|stamps| - 1]))
  }

  /**
   * k calls in one new millisecond use the counters 1, 2, ..., k; in the
   * millisecond of the last call they go on from its counter.
   */
  lemma {:induction false} CountersInOneMillisecond(lastTimestamp: int, counter: int, ts: int, k: nat)
    requires k >= 1
    ensures var s := CountersAfter(lastTimestamp, counter, seq(k, _ => ts));
      && s.0 == ts
      && s.1 == if ts != lastTimestamp then k else counter + k
  {
    var stamps := seq(k, _ => ts);
    if k > 1 {
      assert stamps[..k - 1] == seq(k - 1, _ => ts);
      CountersInOneMillisecond(lastTimestamp, counter, ts, k - 1);
    } else {
      assert stamps[..0] == [];
    }
  }

  /** The module-level `lastTimestamp` and `counter`. */
  class IdGenerator {
    var lastTimestamp: int
    var counter: int

    constructor()
      ensures lastTimestamp == 0 && counter == 0
    {
      lastTimestamp := 0;
      counter := 0;
    }

    /**
     * `generateNewID(prefix, descending)` called at `currentTimestamp`, with
     * `randomSuffix` standing for the random tail.
     */
    method GenerateNewId(prefix: string, descending: bool, currentTimestamp: int, randomSuffix: string) returns (id: string)
      modifies this
      ensures lastTimestamp == currentTimestamp
      ensures counter == NextCounter(old(lastTimestamp), old(counter), currentTimestamp)
      ensures id == prefix + "_" + Hex(Encoded(currentTimestamp, counter, descending)) + randomSuffix
    {
      if currentTimestamp != lastTimestamp {
        lastTimestamp := currentTimestamp;
        counter := 0;
      }
      counter := counter + 1;

      var now := currentTimestamp * 0x1000 + counter;
      if descending {
        now := Complement48(now);
      }

      var timeBytes := new int[6];
      for i := 0 to 6
        modifies timeBytes
        invariant forall k :: 0 <= k < i ==> timeBytes[k] == ByteAt(now, k)
      {
        timeBytes[i] := (now / Pow2(40 - 8 * i)) % 256;
      }
      assert timeBytes[..] == Bytes(now);

      var hexString := HexOfBytes(timeBytes[..]);
      id := prefix + "_" + hexString + randomSuffix;
    }
  }
}
