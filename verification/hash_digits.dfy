/** What the printed hash and the ids made from it say: the digits are those of the hash, the high ones first. */
module HashDigits {
  import opened Text
  import opened JsonFields
  import opened JsonNumbers
  import opened Hashing
  import SnapshotSpec

  /** The number that hexadecimal digits denote. */
  function Numeral(text: string): Option<nat> {
    if text == "" then Some(0)
    else
      match (Numeral(text[..|text| - 1]), HexValue(text[|text| - 1]))
      case (Some(high), Some(low)) => Some(high * 16 + low)
      case _ => None
  }

  function Power16(n: nat): nat { if n == 0 then 1 else 16 * Power16(n - 1) }

  lemma DigitDenotes(n: nat)
    requires n < 16
    ensures HexValue("0123456789abcdef"[n]) == Some(n)
    ensures HexValue(SnapshotSpec.Upper("0123456789abcdef"[n])) == Some(n)
  {
  }

  /** The digits denote the number but for what does not fit into them. */
  predicate Denotes(text: string, n: nat, size: nat, q: nat) {
    Numeral(text).Some? && Numeral(text).value < size && n == q * size + Numeral(text).value
  }

  lemma {:induction false} DigitsDenote(n: nat, width: nat) returns (q: nat)
    ensures Denotes(HexDigits(n, width), n, Power16(width), q)
  {
    hide HexValue;
    if width == 0 {
      q := n;
    } else {
      q := DigitsDenote(n / 16, width - 1);
      DigitDenotes(n % 16);
      var text := HexDigits(n, width);
      assert text[..width - 1] == HexDigits(n / 16, width - 1);
      OneDigitMore(n, q, Power16(width - 1), Numeral(text[..width - 1]).value);
    }
  }

  lemma OneDigitMore(n: nat, q: nat, size: nat, high: nat)
    requires n / 16 == q * size + high && high < size
    ensures n == q * (16 * size) + (high * 16 + n % 16) && high * 16 + n % 16 < 16 * size
  {
    assert q * (16 * size) == 16 * (q * size);
  }

  lemma Sizes()
    ensures Power16(8) == 0x1_0000_0000 && Power16(16) == 0x1_0000_0000_0000_0000
  {
    assert Power16(4) == 0x1_0000;
    assert Power16(8) == 0x1_0000_0000;
    assert Power16(12) == 0x1_0000_0000_0000;
  }

  /** The sixteen digits denote the 64-bit hash. */
  lemma HashDenotes(s: string)
    ensures Numeral(HexHash(s)) == Some(Rounds(s))
  {
    hide Numeral, HexDigits, Rounds;
    var q := DigitsDenote(Rounds(s), 16);
    Sizes();
  }

  /** The hash is FNV-1a: of no bytes it is the offset, and two known values fix the multiplier. */
  lemma KnownHashes()
    ensures Numeral(HexHash("")) == Some(0x14650FB0739D0383)
    ensures Numeral(HexHash("a")) == Some(0x44BD8AD473CD9906)
  {
    hide Numeral, HexHash;
    HashDenotes("");
    HashDenotes("a");
    assert "a"[..0] == "";
    OneRound();
  }

  lemma OneRound()
    ensures Round(0x14650FB0739D0383, 'a') == 0x44BD8AD473CD9906
  {
    assert (0x14650FB0739D0383 % 256) as bv8 == 0x83;
    assert ('a' as nat % 256) as bv8 == 0x61;
    assert 0x83 as bv8 ^ 0x61 as bv8 == 0xE2;
  }

  // ---------------------------------------------------------------- the ids of reported groups

  /** The number without its last hexadecimal digits. */
  function Shifted(n: nat, digits: nat): nat { if digits == 0 then n else Shifted(n / 16, digits - 1) }

  lemma {:induction false} FirstDigits(n: nat, width: nat, more: nat)
    ensures HexDigits(n, width + more)[..width] == HexDigits(Shifted(n, more), width)
    decreases more
  {
    if more == 0 {
      assert HexDigits(n, width)[..width] == HexDigits(n, width);
    } else {
      FirstDigits(n / 16, width, more - 1);
      assert HexDigits(n, width + more)[..width + more - 1] == HexDigits(n / 16, width + more - 1);
    }
  }

  lemma FourDigits(n: nat, digits: nat)
    ensures Shifted(n, digits + 4) == Shifted(n / 0x1_0000, digits)
  {
    assert Shifted(n, digits + 4) == Shifted(n / 16, digits + 3);
    assert Shifted(n / 16, digits + 3) == Shifted(n / 16 / 16, digits + 2);
    assert Shifted(n / 16 / 16, digits + 2) == Shifted(n / 16 / 16 / 16, digits + 1);
    assert Shifted(n / 16 / 16 / 16, digits + 1) == Shifted(n / 16 / 16 / 16 / 16, digits);
  }

  lemma ShiftedByEight(n: nat)
    ensures Shifted(n, 8) == n / 0x1_0000_0000
  {
    FourDigits(n, 4);
    FourDigits(n / 0x1_0000, 0);
  }

  lemma {:induction false} UpperDenotes(text: string, upper: string)
    requires |upper| == |text| && forall i :: 0 <= i < |text| ==> upper[i] == SnapshotSpec.Upper(text[i])
    requires forall c <- text :: c in "0123456789abcdef"
    ensures Numeral(upper) == Numeral(text)
    decreases |text|
  {
    hide HexValue, SnapshotSpec.Upper;
    if text != "" {
      var n := |text| - 1;
      UpperDenotes(text[..n], upper[..n]);
      assert text[n] in text;
      var k :| 0 <= k < 16 && "0123456789abcdef"[k] == text[n];
      DigitDenotes(k);
    }
  }

  lemma TopDigits(s: string)
    ensures |HexHash(s)| == 16 && Numeral(HexHash(s)[..8]) == Some(Rounds(s) / 0x1_0000_0000)
    ensures forall c <- HexHash(s)[..8] :: c in "0123456789abcdef"
  {
    hide Numeral, Rounds, HexDigits;
    var n := Rounds(s);
    FirstDigits(n, 8, 8);
    ShiftedByEight(n);
    var q := DigitsDenote(n / 0x1_0000_0000, 8);
    Sizes();
  }

  predicate IsUpperHex(c: char) { '0' <= c <= '9' || 'A' <= c <= 'F' }

  lemma UpperDigits(c: char)
    requires c in "0123456789abcdef"
    ensures IsUpperHex(SnapshotSpec.Upper(c))
  {
  }

  /** A group is reported under the high half of the hash of its number, in eight upper-case digits. */
  lemma ReportedId(id: nat)
    ensures var r := SnapshotSpec.CorrId(id);
            && |r| == 11 && r[..3] == "CG-" && (forall c <- r[3..] :: IsUpperHex(c))
            && Numeral(r[3..]) == Some(Rounds("group:" + Decimal(id)) / 0x1_0000_0000)
  {
    hide Numeral, Rounds, HexHash, Decimal, SnapshotSpec.Upper, IsUpperHex;
    var r, top := SnapshotSpec.CorrId(id), HexHash("group:" + Decimal(id))[..8];
    TopDigits("group:" + Decimal(id));
    assert |r[3..]| == 8 && forall i :: 0 <= i < 8 ==> r[3..][i] == SnapshotSpec.Upper(top[i]);
    UpperDenotes(top, r[3..]);
    forall c | c in r[3..] ensures IsUpperHex(c) {
      var i :| 0 <= i < 8 && r[3..][i] == c;
      assert top[i] in top;
      UpperDigits(top[i]);
    }
  }
}
