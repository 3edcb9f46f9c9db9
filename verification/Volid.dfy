/** The CSI identifier: a fixed layout of hexadecimal fields, the cluster id and the object
    uuid. A string is a sequence of bytes, one character for each. */
module Volid {
  import opened Wrappers

  // ---- hexadecimal fields

  function HexDigit(v: nat): (c: char)
    requires v < 16
    ensures HexValue(c) == Some(v) && !('A' <= c <= 'F')
  {
    if v < 10 then (('0' as int) + v) as char else (('a' as int) + v - 10) as char
  }

  function HexValue(c: char): (v: Option<nat>)
    ensures v.Some? ==> v.value < 16
  {
    if '0' <= c <= '9' then Some((c as int) - ('0' as int))
    else if 'a' <= c <= 'f' then Some((c as int) - ('a' as int) + 10)
    else if 'A' <= c <= 'F' then Some((c as int) - ('A' as int) + 10)
    else None
  }

  /** The digits that are written. */
  lemma DigitWritten(v: nat)
    requires v < 16
    ensures HexDigit(v) == "0123456789abcdef"[v]
  {
    assert v in {0, 1, 2, 3, 4, 5, 6, 7, 8, 9, 10, 11, 12, 13, 14, 15};
  }

  /** The 22 digits that are read, and what each is worth. */
  lemma DigitRead(v: nat, c: char)
    requires v < 16
    ensures HexValue("0123456789abcdef"[v]) == Some(v) == HexValue("0123456789ABCDEF"[v])
    ensures HexValue(c).Some? <==> c in "0123456789abcdefABCDEF"
  {
    assert v in {0, 1, 2, 3, 4, 5, 6, 7, 8, 9, 10, 11, 12, 13, 14, 15};
  }

  ghost function Pow16(n: nat): (p: nat)
    ensures p >= 1
  {
    if n == 0 then 1 else 16 * Pow16(n - 1)
  }

  /** The last `n` digits of a number. */
  function Hex(v: nat, n: nat): (s: string)
    ensures |s| == n
    decreases n
  {
    if n == 0 then "" else Hex(v / 16, n - 1) + [HexDigit(v % 16)]
  }

  function Unhex(s: string): (v: Option<nat>)
    ensures v.Some? ==> v.value < Pow16(|s|)
  {
    if s == "" then Some(0)
    else
      var front, last := Unhex(s[..|s| - 1]), HexValue(s[|s| - 1]);
      if front.None? || last.None? then None else Some(16 * front.value + last.value)
  }

  lemma {:induction false} UnhexHex(v: nat, n: nat)
    requires v < Pow16(n)
    ensures Unhex(Hex(v, n)) == Some(v)
    decreases n
  {
    if n > 0 {
      UnhexHex(v / 16, n - 1);
      var s := Hex(v, n);
      assert s[..n - 1] == Hex(v / 16, n - 1);
    }
  }

  /** Written as the encoder writes: in lower case. */
  ghost predicate Lower(s: string) {
    forall i :: 0 <= i < |s| ==> !('A' <= s[i] <= 'F')
  }

  lemma DivMod16(f: nat, d: nat)
    requires d < 16
    ensures (16 * f + d) / 16 == f && (16 * f + d) % 16 == d
  {
  }

  lemma HexNext(f: nat, d: nat, n: nat)
    requires d < 16
    ensures Hex(16 * f + d, n + 1) == Hex(f, n) + [HexDigit(d)]
  {
    DivMod16(f, d);
  }

  lemma SameLast(front: string, c: char, s: string)
    requires |s| == |front| + 1
    ensures front + [c] == s <==> front == s[..|front|] && c == s[|front|]
  {
    assert (front + [c])[..|front|] == front;
  }

  lemma {:induction false} HexUnhex(s: string)
    requires Unhex(s).Some?
    ensures Hex(Unhex(s).value, |s|) == s <==> Lower(s)
  {
    if s != "" {
      var n := |s| - 1;
      HexNext(Unhex(s[..n]).value, HexValue(s[n]).value, n);
      HexUnhex(s[..n]);
      var front, c := Hex(Unhex(s[..n]).value, n), HexDigit(HexValue(s[n]).value);
      SameLast(front, c, s);
      assert Lower(s) <==> Lower(s[..n]) && !('A' <= s[n] <= 'F');
    }
  }

  // ---- digit by digit

  lemma MulLe(a: nat, b: nat, d: nat)
    requires a <= b
    ensures a * d <= b * d
  {
  }

  lemma DivUnique(v: nat, d: nat, q: nat, r: nat)
    requires 0 < d && r < d && v == q * d + r
    ensures v / d == q
  {
    if v / d < q {
      MulLe(v / d + 1, q, d);
    } else if v / d > q {
      MulLe(q + 1, v / d, d);
    }
  }

  lemma DivTwice(v: nat, p: nat)
    requires p > 0
    ensures v / 16 / p == v / (16 * p)
  {
    var f, d := v / 16, v % 16;
    var q, r := f / p, f % p;
    assert f == p * q + r;
    assert v == q * (16 * p) + (16 * r + d);
    DivUnique(v, 16 * p, q, 16 * r + d);
  }

  /** The written digits, the highest first. */
  lemma {:induction false} HexAt(v: nat, n: nat, i: nat)
    requires i < n
    ensures Hex(v, n)[i] == "0123456789abcdef"[v / Pow16(n - 1 - i) % 16]
    decreases n
  {
    if i == n - 1 {
      DigitWritten(v % 16);
    } else {
      HexAt(v / 16, n - 1, i);
      DivTwice(v, Pow16(n - 2 - i));
    }
  }

  /** A number is read exactly from a string of digits. */
  lemma {:induction false} UnhexReads(s: string)
    ensures Unhex(s).Some? <==> forall i :: 0 <= i < |s| ==> s[i] in "0123456789abcdefABCDEF"
  {
    if s != "" {
      var n := |s| - 1;
      UnhexReads(s[..n]);
      DigitRead(0, s[n]);
      assert s == s[..n] + [s[n]];
    }
  }

  /** And these are its digits. */
  lemma {:induction false} UnhexAt(s: string, i: nat)
    requires Unhex(s).Some? && i < |s|
    ensures HexValue(s[i]) == Some(Unhex(s).value / Pow16(|s| - 1 - i) % 16)
  {
    var n := |s| - 1;
    DivMod16(Unhex(s[..n]).value, HexValue(s[n]).value);
    if i < n {
      UnhexAt(s[..n], i);
      DivTwice(Unhex(s).value, Pow16(n - 1 - i));
    }
  }

  /** The weights of the four digits of a short field. */
  lemma ShortWeights()
    ensures Pow16(0) == 1 && Pow16(1) == 16 && Pow16(2) == 256 && Pow16(3) == 4096
  {
    assert Pow16(2) == 16 * Pow16(1);
  }

  // ---- the identifier

  datatype Id = Id(locationID: int, version: nat, clusterID: string, objectUUID: string)

  const TWO16: nat := 0x1_0000
  const TWO63: int := 0x8000_0000_0000_0000
  const TWO64: int := 0x1_0000_0000_0000_0000

  lemma Widths()
    ensures Pow16(4) == TWO16 && Pow16(16) == TWO64
  {
    assert Pow16(4) == TWO16;
    assert Pow16(8) == 0x1_0000_0000;
    assert Pow16(12) == 0x1_0000_0000_0000;
  }

  /** The widths of the fields. */
  ghost predicate InWidth(x: Id) {
    -TWO63 <= x.locationID < TWO63 && x.version < TWO16
  }

  function ToUint64(v: int): (u: int) { if v < 0 then v + TWO64 else v }

  function ToInt64(u: nat): (v: int) { if u < TWO63 then u else u - TWO64 }

  const MAX_VOL_ID_LEN: nat := 128
  const KNOWN_FIELD_SIZE: nat := 64
  const UUID_SIZE: nat := 36
  const DEFAULT_ENCODING_VERSION: nat := 1

  datatype Composed = Text(s: string) | LengthOverflow | InvalidUUID

  function VersionOf(x: Id): nat { if x.version == 0 then DEFAULT_ENCODING_VERSION else x.version }

  function Join(a: string, b: string, c: string, d: string, e: string): (s: string)
    ensures |s| == |a| + |b| + |c| + |d| + |e| + 4
  {
    a + "-" + b + "-" + c + "-" + d + "-" + e
  }

  function ComposeCSIID(x: Id): (r: Composed)
    requires InWidth(x)
    ensures r.LengthOverflow? <==> KNOWN_FIELD_SIZE + |x.clusterID| > MAX_VOL_ID_LEN
    ensures r.InvalidUUID? <==> !r.LengthOverflow? && |x.objectUUID| != UUID_SIZE
    ensures r.Text? ==> |r.s| == KNOWN_FIELD_SIZE + |x.clusterID| <= MAX_VOL_ID_LEN
  {
    if KNOWN_FIELD_SIZE + |x.clusterID| > MAX_VOL_ID_LEN then LengthOverflow
    else if |x.objectUUID| != UUID_SIZE then InvalidUUID
    else Text(Join(Hex(VersionOf(x), 4), Hex(|x.clusterID|, 4), x.clusterID,
                   Hex(ToUint64(x.locationID), 16), x.objectUUID))
  }

  datatype Outcome = Decoded | Underflow | BadHex | SizeMismatch | Panics

  /** The parts of a string whose length field says `n`. */
  ghost function Cluster(s: string, n: nat): string
    requires |s| >= KNOWN_FIELD_SIZE + n
  {
    s[10..10 + n]
  }

  ghost function Pool(s: string, n: nat): string
    requires |s| >= KNOWN_FIELD_SIZE + n
  {
    s[11 + n..27 + n]
  }

  ghost function Object(s: string, n: nat): string
    requires |s| >= KNOWN_FIELD_SIZE + n
  {
    s[28 + n..64 + n]
  }

  /** The first two fields can be read. */
  ghost predicate HeaderReads(s: string) {
    |s| % TWO16 >= KNOWN_FIELD_SIZE && Unhex(s[0..4]).Some? && Unhex(s[5..9]).Some?
  }

  ghost function LengthField(s: string): nat
    requires HeaderReads(s)
  {
    Unhex(s[5..9]).value
  }

  /** The strings that are identifiers: their length, as far as 16 bits show it, is 64 plus
      the number in the length field, and the three numbers can be read. The separators
      are not looked at. */
  ghost predicate IsIdentifier(s: string) {
    && HeaderReads(s)
    && |s| % TWO16 == KNOWN_FIELD_SIZE + LengthField(s)
    && Unhex(Pool(s, LengthField(s))).Some?
  }

  ghost function Meaning(s: string): (x: Id)
    requires IsIdentifier(s)
  {
    var n := LengthField(s);
    Id(ToInt64(Unhex(Pool(s, n)).value), Unhex(s[0..4]).value, Cluster(s, n), Object(s, n))
  }

  lemma Wraps(n: nat)
    requires n < TWO16
    ensures (n + 1) % TWO16 == if n == TWO16 - 1 then 0 else n + 1
    ensures (10 + n) % TWO16 < 10 <==> n >= TWO16 - 10
  {
  }

  class CSIIdentifier {
    var locationID: int
    var encodingVersion: nat
    var clusterID: string
    var objectUUID: string

    ghost function Value(): Id
      reads this
    {
      Id(locationID, encodingVersion, clusterID, objectUUID)
    }

    /** All counters are 16 bits wide and wrap around. An index that Go would refuse is
        the outcome `Panics`. */
    method DecomposeCSIID(s: string) returns (r: Outcome)
      modifies this
      ensures r.Decoded? <==> IsIdentifier(s)
      ensures r.Decoded? ==> Value() == Meaning(s)
      ensures r.Panics? <==> HeaderReads(s) && LengthField(s) == TWO16 - 1
    {
      var bytesToProcess := |s| % TWO16;
      if bytesToProcess < KNOWN_FIELD_SIZE {
        return Underflow;
      }
      Widths();
      var version := Unhex(s[0..4]);
      if version.None? {
        return BadHex;
      }
      encodingVersion := version.value;
      bytesToProcess := bytesToProcess - 5;
      var len := Unhex(s[5..9]);
      if len.None? {
        return BadHex;
      }
      var clusterIDLength := len.value;
      Wraps(clusterIDLength);
      bytesToProcess := bytesToProcess - 5;
      if bytesToProcess < (clusterIDLength + 1) % TWO16 {
        return Underflow;
      }
      if (10 + clusterIDLength) % TWO16 < 10 {
        return Panics;
      }
      clusterID := s[10..10 + clusterIDLength];
      bytesToProcess := bytesToProcess - (clusterIDLength + 1);
      var nextFieldStartIdx := 10 + clusterIDLength + 1;
      if bytesToProcess < 17 {
        return Underflow;
      }
      var pool := Unhex(s[nextFieldStartIdx..nextFieldStartIdx + 16]);
      if pool.None? {
        return BadHex;
      }
      locationID := ToInt64(pool.value);
      bytesToProcess := bytesToProcess - 17;
      nextFieldStartIdx := nextFieldStartIdx + 17;
      if bytesToProcess != UUID_SIZE {
        return SizeMismatch;
      }
      objectUUID := s[nextFieldStartIdx..nextFieldStartIdx + UUID_SIZE];
      r := Decoded;
    }
  }

  // ---- the two directions

  /** The separators are hyphens, the numbers are in lower case, and the version is set. */
  ghost predicate Canonical(s: string)
    requires IsIdentifier(s)
  {
    var n := LengthField(s);
    && s[4] == '-' && s[9] == '-' && s[10 + n] == '-' && s[27 + n] == '-'
    && Lower(s[0..4]) && Lower(s[5..9]) && Lower(Pool(s, n))
    && Unhex(s[0..4]).value != 0
  }

  ghost predicate Sized(a: string, b: string, d: string, e: string) {
    |a| == 4 && |b| == 4 && |d| == 16 && |e| == UUID_SIZE
  }

  /** Where the fields of a joined string are. */
  lemma Fields(a: string, b: string, c: string, d: string, e: string)
    requires Sized(a, b, d, e)
    ensures var s, n := Join(a, b, c, d, e), |c|;
            && |s| == KNOWN_FIELD_SIZE + n && s[0..4] == a && s[5..9] == b && Cluster(s, n) == c && Pool(s, n) == d
            && Object(s, n) == e && s[4] == '-' && s[9] == '-' && s[10 + n] == '-' && s[27 + n] == '-'
  {
    var s := Join(a, b, c, d, e);
    var t0 := c + "-" + d + "-" + e;
    var t1 := d + "-" + e;
    assert s == a + "-" + b + "-" + t0;
    assert s[10..] == t0;
    assert s[11 + |c|..] == t1;
  }

  /** A string with the hyphens in place is the join of its fields. */
  lemma Rejoin(s: string, n: nat)
    requires |s| == KNOWN_FIELD_SIZE + n && s[4] == '-' && s[9] == '-' && s[10 + n] == '-' && s[27 + n] == '-'
    ensures Join(s[0..4], s[5..9], Cluster(s, n), Pool(s, n), Object(s, n)) == s
  {
    var t := Join(s[0..4], s[5..9], Cluster(s, n), Pool(s, n), Object(s, n));
    Fields(s[0..4], s[5..9], Cluster(s, n), Pool(s, n), Object(s, n));
    assert s == s[0..4] + [s[4]] + s[5..9] + [s[9]] + s[10..10 + n] + [s[10 + n]]
                + s[11 + n..27 + n] + [s[27 + n]] + s[28 + n..];
    assert s[28 + n..] == Object(s, n);
  }

  lemma JoinMeans(a: string, b: string, c: string, d: string, e: string)
    requires Sized(a, b, d, e) && Unhex(a).Some? && Unhex(b) == Some(|c|) && Unhex(d).Some? && |c| < MAX_VOL_ID_LEN
    ensures var s := Join(a, b, c, d, e);
            && IsIdentifier(s) && Meaning(s) == Id(ToInt64(Unhex(d).value), Unhex(a).value, c, e)
            && (Canonical(s) <==> Lower(a) && Lower(b) && Lower(d) && Unhex(a).value != 0)
  {
    Fields(a, b, c, d, e);
    JoinIsIdentifier(a, b, c, d, e);
  }

  lemma JoinIsIdentifier(a: string, b: string, c: string, d: string, e: string)
    requires Sized(a, b, d, e) && Unhex(a).Some? && Unhex(b) == Some(|c|) && Unhex(d).Some? && |c| < MAX_VOL_ID_LEN
    ensures var s := Join(a, b, c, d, e); IsIdentifier(s) && LengthField(s) == |c|
  {
    Fields(a, b, c, d, e);
    var s := Join(a, b, c, d, e);
    assert |s| % TWO16 == |s|;
  }

  /** The round trip: every identifier that can be composed is read back as it was, with
      the version made explicit, for every signed location and every cluster id. */
  lemma DecodeOfCompose(x: Id)
    requires InWidth(x) && ComposeCSIID(x).Text?
    ensures IsIdentifier(ComposeCSIID(x).s)
    ensures Meaning(ComposeCSIID(x).s) == x.(version := VersionOf(x))
    ensures Canonical(ComposeCSIID(x).s)
  {
    Widths();
    var a, b, d := Hex(VersionOf(x), 4), Hex(|x.clusterID|, 4), Hex(ToUint64(x.locationID), 16);
    ReadsBack(VersionOf(x), 4);
    ReadsBack(|x.clusterID|, 4);
    ReadsBack(ToUint64(x.locationID), 16);
    JoinMeans(a, b, x.clusterID, d, x.objectUUID);
  }

  /** The composed text, place by place: the version (an unset one is written as 1) and the
      length of the cluster id in four digits each, the cluster id, the location in sixteen
      digits of two's complement, and the object uuid, with a hyphen between them. */
  lemma ComposedFields(x: Id)
    requires InWidth(x) && ComposeCSIID(x).Text?
    ensures var s, n := ComposeCSIID(x).s, |x.clusterID|;
            && |s| == 64 + n && s[4] == '-' && s[9] == '-' && s[10 + n] == '-' && s[27 + n] == '-'
            && s[0..4] == Hex(if x.version == 0 then 1 else x.version, 4) && s[5..9] == Hex(n, 4)
            && s[10..10 + n] == x.clusterID && s[28 + n..64 + n] == x.objectUUID
            && s[11 + n..27 + n] ==
               Hex(if x.locationID < 0 then x.locationID + 0x1_0000_0000_0000_0000 else x.locationID, 16)
  {
    Fields(Hex(VersionOf(x), 4), Hex(|x.clusterID|, 4), x.clusterID, Hex(ToUint64(x.locationID), 16), x.objectUUID);
  }

  lemma HexOfOne()
    ensures Hex(1, 4) == "0001"
  {
    assert Hex(0, 3) == "000";
  }

  /** An unset version is written as 1. */
  lemma UnsetVersion(x: Id)
    requires InWidth(x) && ComposeCSIID(x).Text? && x.version == 0
    ensures ComposeCSIID(x).s[0..4] == "0001"
  {
    ComposedFields(x);
    HexOfOne();
  }

  /** What is read from a string, place by place. */
  lemma ReadFields(s: string)
    requires IsIdentifier(s)
    ensures var x := Meaning(s);
            var n := |x.clusterID|;
            && |s| % 0x1_0000 == 64 + n && x.clusterID == s[10..10 + n] && x.objectUUID == s[28 + n..64 + n]
            && Unhex(s[0..4]) == Some(x.version) && Unhex(s[5..9]) == Some(n)
            && Unhex(s[11 + n..27 + n]) ==
               Some(if x.locationID < 0 then x.locationID + 0x1_0000_0000_0000_0000 else x.locationID)
  {
    var d := Pool(s, LengthField(s));
    Widths();
    UnhexInWidth(d, 16);
  }

  lemma ReadsBack(v: nat, n: nat)
    requires v < Pow16(n)
    ensures Unhex(Hex(v, n)) == Some(v) && Lower(Hex(v, n))
  {
    UnhexHex(v, n);
    HexUnhex(Hex(v, n));
  }

  /** The other round trip: an identifier within the size limit is written again as it was
      exactly when it is canonical. */
  lemma ComposeOfDecode(s: string)
    requires IsIdentifier(s) && |s| <= MAX_VOL_ID_LEN
    ensures InWidth(Meaning(s)) && ComposeCSIID(Meaning(s)).Text?
    ensures ComposeCSIID(Meaning(s)) == Text(s) <==> Canonical(s)
  {
    var x := Meaning(s);
    MeaningInWidth(s);
    if Canonical(s) {
      CanonicalIsComposed(s);
    }
    if ComposeCSIID(x) == Text(s) {
      DecodeOfCompose(x);
    }
  }

  lemma UnhexInWidth(a: string, n: nat)
    requires |a| == n && Unhex(a).Some?
    ensures Unhex(a).value < Pow16(n)
  {
  }

  lemma MeaningInWidth(s: string)
    requires IsIdentifier(s)
    ensures InWidth(Meaning(s))
    ensures |s| <= MAX_VOL_ID_LEN ==> ComposeCSIID(Meaning(s)).Text?
  {
    Widths();
    UnhexInWidth(s[0..4], 4);
    UnhexInWidth(Pool(s, LengthField(s)), 16);
  }

  lemma RewritesAs(a: string, n: nat)
    requires |a| == n && Unhex(a).Some? && Lower(a)
    ensures Hex(Unhex(a).value, n) == a
  {
    HexUnhex(a);
  }

  lemma ReadNumbers(s: string)
    requires IsIdentifier(s) && |s| <= MAX_VOL_ID_LEN
    ensures var x, n := Meaning(s), LengthField(s);
            && |s| == KNOWN_FIELD_SIZE + n && x.version == Unhex(s[0..4]).value
            && |x.clusterID| == n && ToUint64(x.locationID) == Unhex(Pool(s, n)).value
  {
    UnhexInWidth(Pool(s, LengthField(s)), 16);
    Widths();
  }

  lemma CanonicalIsComposed(s: string)
    requires IsIdentifier(s) && |s| <= MAX_VOL_ID_LEN && Canonical(s) && InWidth(Meaning(s))
    ensures ComposeCSIID(Meaning(s)) == Text(s)
  {
    var n := LengthField(s);
    ReadNumbers(s);
    RewritesAs(s[0..4], 4);
    RewritesAs(s[5..9], 4);
    RewritesAs(Pool(s, n), 16);
    Rejoin(s, n);
  }

  /** Two identifiers with the same composed form differ at most in an unset version. */
  lemma ComposeIsInjective(x: Id, y: Id)
    requires InWidth(x) && InWidth(y) && ComposeCSIID(x).Text? && ComposeCSIID(x) == ComposeCSIID(y)
    ensures x.(version := VersionOf(x)) == y.(version := VersionOf(y))
  {
    DecodeOfCompose(x);
    DecodeOfCompose(y);
  }

  lemma SameFields(t: string, s: string)
    requires IsIdentifier(t) && |t| < TWO16 && |s| % TWO16 == |t| && t <= s
    ensures IsIdentifier(s) && Meaning(s) == Meaning(t)
  {
    assert |t| % TWO16 == |t|;
    assert s[0..4] == t[0..4] && s[5..9] == t[5..9];
    var n := LengthField(t);
    assert Pool(s, n) == Pool(t, n) && Cluster(s, n) == Cluster(t, n) && Object(s, n) == Object(t, n);
  }

  /** Because the counters have 16 bits, every identifier is accepted as well with any
      65536 bytes after it, and means the same. */
  lemma LongStringIsAccepted(t: string, pad: string)
    requires IsIdentifier(t) && |t| < TWO16 && |pad| == TWO16
    ensures IsIdentifier(t + pad) && Meaning(t + pad) == Meaning(t)
  {
    assert (|t| + TWO16) % TWO16 == |t|;
    SameFields(t, t + pad);
  }
}
