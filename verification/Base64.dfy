/** The base64 codec of RFC 4648 section 4, as Python's `b64encode` and
    `b64decode(..., validate=True)` use it.  Unused trailing bits of the last
    quantum are ignored on decoding, so decoding is many-to-one. */
module Base64 {
  import opened Prelude
  import opened Utf8

  function Digit(v: int): (c: char)
    requires 0 <= v < 64
  {
    if v < 26 then ('A' as int + v) as char
    else if v < 52 then ('a' as int + (v - 26)) as char
    else if v < 62 then ('0' as int + (v - 52)) as char
    else if v == 62 then '+' else '/'
  }

  predicate IsDigit(c: char) {
    'A' <= c <= 'Z' || 'a' <= c <= 'z' || '0' <= c <= '9' || c == '+' || c == '/'
  }

  function Value(c: char): (v: int)
    requires IsDigit(c)
    ensures 0 <= v < 64
  {
    if 'A' <= c <= 'Z' then c as int - 'A' as int
    else if 'a' <= c <= 'z' then c as int - 'a' as int + 26
    else if '0' <= c <= '9' then c as int - '0' as int + 52
    else if c == '+' then 62 else 63
  }

  /** The alphabet of section 4, Table 1. */
  lemma AlphabetIs(v: int)
    requires 0 <= v < 64
    ensures 'A' <= Digit(v) <= 'Z' <==> v <= 25
    ensures v <= 25 ==> Digit(v) as int - 'A' as int == v
    ensures 26 <= v <= 51 ==> 'a' <= Digit(v) <= 'z' && Digit(v) as int - 'a' as int == v - 26
    ensures 52 <= v <= 61 ==> '0' <= Digit(v) <= '9' && Digit(v) as int - '0' as int == v - 52
    ensures (v == 62 ==> Digit(v) == '+') && (v == 63 ==> Digit(v) == '/')
  {
  }

  lemma ValueOfDigit(v: int)
    requires 0 <= v < 64
    ensures IsDigit(Digit(v)) && Value(Digit(v)) == v
    ensures Digit(v) != '=' && Digit(v) < '\U{0080}'
  {
  }

  /** The four characters for the last one, two or three bytes. */
  function Quantum(bs: seq<Byte>): (s: string)
    requires 1 <= |bs| <= 3
    ensures |s| == 4
  {
    var b0: int := bs[0];
    if |bs| == 1 then [Digit(b0 / 4), Digit(b0 % 4 * 16), '=', '=']
    else
      var b1: int := bs[1];
      if |bs| == 2 then [Digit(b0 / 4), Digit(b0 % 4 * 16 + b1 / 16), Digit(b1 % 16 * 4), '=']
      else
        var b2: int := bs[2];
        [Digit(b0 / 4), Digit(b0 % 4 * 16 + b1 / 16), Digit(b1 % 16 * 4 + b2 / 64), Digit(b2 % 64)]
  }

  function Encode64(bs: seq<Byte>): (s: string) {
    if bs == [] then ""
    else if |bs| <= 3 then Quantum(bs)
    else Quantum(bs[..3]) + Encode64(bs[3..])
  }

  /** The bytes of one group of four characters; only the last group may be padded. */
  function Unquantum(s: string, last: bool): (r: Option<seq<Byte>>)
    requires |s| == 4
    ensures r.Some? ==> 1 <= |r.value| <= 3
  {
    if !IsDigit(s[0]) || !IsDigit(s[1]) then None
    else
      var v0, v1 := Value(s[0]), Value(s[1]);
      var b0: Byte := v0 * 4 + v1 / 16;
      if last && s[2] == '=' && s[3] == '=' then Some([b0])
      else if !IsDigit(s[2]) then None
      else
        var v2 := Value(s[2]);
        var b1: Byte := v1 % 16 * 16 + v2 / 4;
        if last && s[3] == '=' then Some([b0, b1])
        else if !IsDigit(s[3]) then None
        else
          var b2: Byte := v2 % 4 * 64 + Value(s[3]);
          Some([b0, b1, b2])
  }

  /** `b64decode(s, validate=True)`: None stands for binascii.Error. */
  function Decode64(s: string): (r: Option<seq<Byte>>)
  {
    if s == "" then Some([])
    else if |s| < 4 then None
    else
      match Unquantum(s[..4], |s| == 4)
      case None => None
      case Some(head) =>
        match Decode64(s[4..])
        case None => None
        case Some(tail) => Some(head + tail)
  }

  lemma UnquantumOfOne(b0: Byte)
    ensures Unquantum(Quantum([b0]), true) == Some([b0])
  {
    hide Digit, Value, IsDigit;
    var n: int := b0;
    ValueOfDigit(n / 4);
    ValueOfDigit(n % 4 * 16);
    assert n % 4 * 16 / 16 == n % 4;
  }

  lemma UnquantumOfTwo(b0: Byte, b1: Byte)
    ensures Unquantum(Quantum([b0, b1]), true) == Some([b0, b1])
  {
    hide Digit, Value, IsDigit;
    var m: int, n: int := b0, b1;
    var d1 := m % 4 * 16 + n / 16;
    ValueOfDigit(m / 4);
    ValueOfDigit(d1);
    ValueOfDigit(n % 16 * 4);
    assert d1 / 16 == m % 4 && d1 % 16 == n / 16;
    assert n % 16 * 4 / 4 == n % 16;
  }

  lemma BitsOfThree(b0: nat, b1: nat, b2: nat)
    requires b0 < 256 && b1 < 256 && b2 < 256
    ensures var d1, d2 := b0 % 4 * 16 + b1 / 16, b1 % 16 * 4 + b2 / 64;
            && b0 / 4 < 64 && d1 < 64 && d2 < 64 && b2 % 64 < 64
            && b0 / 4 * 4 + d1 / 16 == b0 && d1 % 16 * 16 + d2 / 4 == b1 && d2 % 4 * 64 + b2 % 64 == b2
  {
    assert (b0 % 4 * 16 + b1 / 16) / 16 == b0 % 4;
    assert (b1 % 16 * 4 + b2 / 64) / 4 == b1 % 16;
  }

  /** Four digits give the bytes that their values spell. */
  lemma UnquantumOfDigits(v0: nat, v1: nat, v2: nat, v3: nat, last: bool)
    requires v0 < 64 && v1 < 64 && v2 < 64 && v3 < 64
    ensures Unquantum([Digit(v0), Digit(v1), Digit(v2), Digit(v3)], last)
            == Some([v0 * 4 + v1 / 16, v1 % 16 * 16 + v2 / 4, v2 % 4 * 64 + v3])
  {
    hide Digit, Value, IsDigit;
    ValueOfDigit(v0);
    ValueOfDigit(v1);
    ValueOfDigit(v2);
    ValueOfDigit(v3);
  }

  lemma UnquantumOfThree(b0: Byte, b1: Byte, b2: Byte, last: bool)
    ensures Unquantum(Quantum([b0, b1, b2]), last) == Some([b0, b1, b2])
  {
    hide Unquantum, Digit;
    BitsOfThree(b0, b1, b2);
    var l: int, m: int, n: int := b0, b1, b2;
    UnquantumOfDigits(l / 4, l % 4 * 16 + m / 16, m % 16 * 4 + n / 64, n % 64, last);
  }

  lemma UnquantumOfQuantum(bs: seq<Byte>, last: bool)
    requires 1 <= |bs| <= 3 && (|bs| < 3 ==> last)
    ensures Unquantum(Quantum(bs), last) == Some(bs)
  {
    hide Quantum, Unquantum;
    if |bs| == 1 {
      assert bs == [bs[0]];
      UnquantumOfOne(bs[0]);
    } else if |bs| == 2 {
      assert bs == [bs[0], bs[1]];
      UnquantumOfTwo(bs[0], bs[1]);
    } else {
      assert bs == [bs[0], bs[1], bs[2]];
      UnquantumOfThree(bs[0], bs[1], bs[2], last);
    }
  }

  /** Decoding inverts encoding, for every byte string. */
  lemma {:induction false} Decode64Encode64(bs: seq<Byte>)
    ensures Decode64(Encode64(bs)) == Some(bs)
  {
    hide Quantum, Unquantum;
    if bs != [] {
      var n := if |bs| <= 3 then |bs| else 3;
      var s := Encode64(bs);
      UnquantumOfQuantum(bs[..n], |s| == 4);
      Decode64Encode64(bs[n..]);
      assert s[..4] == Quantum(bs[..n]) && s[4..] == Encode64(bs[n..]) by {
        assert bs[..|bs|] == bs;
      }
      assert bs == bs[..n] + bs[n..];
    }
  }

  lemma {:induction false} Encode64Length(bs: seq<Byte>)
    ensures |Encode64(bs)| == (|bs| + 2) / 3 * 4
  {
    hide Quantum;
    if |bs| > 3 {
      Encode64Length(bs[3..]);
    }
  }

  /** Base64 text is ASCII and always longer than the bytes it spells, so the stored size
      tells the two storage conventions apart. */
  lemma Encode64IsLonger(bs: seq<Byte>)
    requires bs != []
    ensures |Encode(Encode64(bs))| == |Encode64(bs)| > |bs|
  {
    Encode64Length(bs);
    Encode64Ascii(bs);
    EncodeAscii(Encode64(bs));
  }

  lemma {:induction false} Encode64Ascii(bs: seq<Byte>)
    ensures forall i :: 0 <= i < |Encode64(bs)| ==> Encode64(bs)[i] < '\U{0080}'
  {
    hide Quantum;
    if bs != [] {
      var n := if |bs| <= 3 then |bs| else 3;
      QuantumAscii(bs[..n]);
      Encode64Ascii(bs[n..]);
      assert bs[..|bs|] == bs;
    }
  }

  lemma QuantumAscii(bs: seq<Byte>)
    requires 1 <= |bs| <= 3
    ensures forall i :: 0 <= i < 4 ==> Quantum(bs)[i] < '\U{0080}'
  {
  }

  lemma KnownQuanta()
    ensures Quantum([0x66, 0x6F, 0x6F]) == "Zm9v" && Quantum([0x62, 0x61, 0x72]) == "YmFy"
    ensures Quantum([0x62, 0x61]) == "YmE=" && Quantum([0x62]) == "Yg=="
  {
  }

  /** The test vectors "foobar", "fooba" and "foob" of RFC 4648 section 10. */
  lemma KnownEncodings()
    ensures Encode64([0x66, 0x6F, 0x6F, 0x62, 0x61, 0x72]) == "Zm9vYmFy"
    ensures Encode64([0x66, 0x6F, 0x6F, 0x62, 0x61]) == "Zm9vYmE="
    ensures Encode64([0x66, 0x6F, 0x6F, 0x62]) == "Zm9vYg=="
  {
    var foo: seq<Byte> := [0x66, 0x6F, 0x6F];
    KnownQuanta();
    hide Quantum;
    TwoQuanta(foo, [0x62, 0x61, 0x72]);
    TwoQuanta(foo, [0x62, 0x61]);
    TwoQuanta(foo, [0x62]);
    hide *;
    assert foo + [0x62, 0x61, 0x72] == [0x66, 0x6F, 0x6F, 0x62, 0x61, 0x72];
    assert foo + [0x62, 0x61] == [0x66, 0x6F, 0x6F, 0x62, 0x61];
    assert foo + [0x62] == [0x66, 0x6F, 0x6F, 0x62];
  }

  lemma TwoQuanta(a: seq<Byte>, b: seq<Byte>)
    requires |a| == 3 && 1 <= |b| <= 3
    ensures Encode64(a + b) == Quantum(a) + Quantum(b)
  {
    hide Quantum;
    assert (a + b)[..3] == a && (a + b)[3..] == b;
  }

  /** Text of whole groups of four digits, of which the last may end in one or two padding characters. */
  predicate WellFormed(s: string) {
    && |s| % 4 == 0
    && (forall i :: 0 <= i < |s| - 2 ==> IsDigit(s[i]))
    && (s != "" ==> (IsDigit(s[|s| - 2]) || (s[|s| - 2] == '=' && s[|s| - 1] == '='))
                    && (IsDigit(s[|s| - 1]) || s[|s| - 1] == '='))
  }

  /** Decoding accepts exactly such text. */
  lemma {:induction false} DecodeSucceedsIff(s: string)
    ensures Decode64(s).Some? <==> WellFormed(s)
  {
    if |s| > 4 {
      DecodeSucceedsIff(s[4..]);
      var t := s[4..];
      assert forall i :: 0 <= i < |t| ==> t[i] == s[i + 4];
      GroupIff(s[..4], false);
      hide Unquantum, IsDigit;
      WellFormedTail(s);
    } else if |s| == 4 {
      assert s[..4] == s && s[4..] == "";
      GroupIff(s, true);
    }
  }

  lemma WellFormedTail(s: string)
    requires |s| > 4
    ensures WellFormed(s) <==> WellFormed(s[4..]) && forall i :: 0 <= i < 4 ==> IsDigit(s[i])
  {
    hide IsDigit;
    var t := s[4..];
    if WellFormed(s) {
      forall i | 0 <= i < |t| - 2 ensures IsDigit(t[i]) {
        assert t[i] == s[i + 4];
      }
    }
    if WellFormed(t) && forall i :: 0 <= i < 4 ==> IsDigit(s[i]) {
      forall i | 0 <= i < |s| - 2 ensures IsDigit(s[i]) {
        assert i >= 4 ==> s[i] == t[i - 4];
      }
    }
  }

  lemma GroupIff(s: string, last: bool)
    requires |s| == 4
    ensures Unquantum(s, last).Some?
            <==> && IsDigit(s[0]) && IsDigit(s[1])
                 && ((IsDigit(s[2]) && IsDigit(s[3])) || (last && IsDigit(s[2]) && s[3] == '=') || (last && s[2] == '=' && s[3] == '='))
  {
    hide Value;
  }
}
