/** The UTF-8 codec of RFC 3629 section 3, with the three error policies that the
    repository asks Python for: strict, "ignore" and "replace".

    A Dafny `char` is a Unicode scalar value, so encoding never fails. */
module Utf8 {
  import opened Prelude

  type Byte = b: int | 0 <= b < 0x100

  const REPLACEMENT: char := '\U{FFFD}'

  // ----- encoding ---------------------------------------------------------

  function EncodeChar(c: char): (bs: seq<Byte>)
    ensures 1 <= |bs| <= 4
  {
    var v := c as int;
    if v < 0x80 then [v]
    else if v < 0x800 then [0xC0 + v / 0x40, 0x80 + v % 0x40]
    else if v < 0x1_0000 then [0xE0 + v / 0x1000, 0x80 + v / 0x40 % 0x40, 0x80 + v % 0x40]
    else [0xF0 + v / 0x4_0000, 0x80 + v / 0x1000 % 0x40, 0x80 + v / 0x40 % 0x40, 0x80 + v % 0x40]
  }

  function Encode(s: string): (bs: seq<Byte>) {
    if s == "" then [] else EncodeChar(s[0]) + Encode(s[1..])
  }

  // ----- decoding one character -------------------------------------------

  predicate IsTail(b: Byte) { 0x80 <= b <= 0xBF }

  /** May `second` follow `lead`?  (The rows UTF8-2, UTF8-3 and UTF8-4 of the grammar.) */
  predicate IsSecond(lead: Byte, second: Byte) {
    IsTail(second)
    && (lead == 0xE0 ==> 0xA0 <= second)
    && (lead == 0xED ==> second <= 0x9F)
    && (lead == 0xF0 ==> 0x90 <= second)
    && (lead == 0xF4 ==> second <= 0x8F)
  }

  /** Number of bytes that a sequence beginning with `lead` must have; 0 if none does. */
  function Width(lead: Byte): (w: nat)
    ensures w <= 4
  {
    if lead < 0x80 then 1
    else if 0xC2 <= lead <= 0xDF then 2
    else if 0xE0 <= lead <= 0xEF then 3
    else if 0xF0 <= lead <= 0xF4 then 4
    else 0
  }

  /** Does `bs` begin with a complete well-formed sequence? */
  predicate StartsWell(bs: seq<Byte>) {
    bs != []
    && var w := Width(bs[0]);
    && 1 <= w <= |bs|
    && (w >= 2 ==> IsSecond(bs[0], bs[1]))
    && (w >= 3 ==> IsTail(bs[2]))
    && (w == 4 ==> IsTail(bs[3]))
  }

  /** The code point that a complete sequence spells. */
  function CodePoint(bs: seq<Byte>): (v: int)
    requires StartsWell(bs)
    ensures 0 <= v < 0xD800 || 0xE000 <= v < 0x11_0000
  {
    var b0: int := bs[0];
    if b0 < 0x80 then b0
    else
      var b1: int := bs[1] - 0x80;
      if b0 < 0xE0 then (b0 - 0xC0) * 0x40 + b1
      else
        var b2: int := bs[2] - 0x80;
        if b0 < 0xF0 then (b0 - 0xE0) * 0x1000 + b1 * 0x40 + b2
        else
          var b3: int := bs[3] - 0x80;
          (b0 - 0xF0) * 0x4_0000 + b1 * 0x1000 + b2 * 0x40 + b3
  }

  function First(bs: seq<Byte>): (c: char)
    requires StartsWell(bs)
  {
    CodePoint(bs) as char
  }

  // ----- decoding ---------------------------------------------------------

  /** `bytes.decode("utf-8")`: None stands for UnicodeDecodeError. */
  function Decode(bs: seq<Byte>): (r: Option<string>)
    decreases |bs|
  {
    if bs == [] then Some("")
    else if !StartsWell(bs) then None
    else
      match Decode(bs[Width(bs[0])..])
      case None => None
      case Some(rest) => Some([First(bs)] + rest)
  }

  /** `bytes.decode(errors="ignore")`.  Skipping one byte at a time drops exactly the
      maximal ill-formed subparts, since a tail byte never begins a sequence. */
  function DecodeIgnore(bs: seq<Byte>): string
    decreases |bs|
  {
    if bs == [] then ""
    else if StartsWell(bs) then [First(bs)] + DecodeIgnore(bs[Width(bs[0])..])
    else DecodeIgnore(bs[1..])
  }

  /** Length of the maximal ill-formed subpart at the head of `bs`. */
  function SubpartLength(bs: seq<Byte>): (n: nat)
    requires bs != [] && !StartsWell(bs)
    ensures 1 <= n <= |bs|
  {
    var w := Width(bs[0]);
    if w < 3 || |bs| == 1 || !IsSecond(bs[0], bs[1]) then 1
    else if w == 3 || |bs| == 2 || !IsTail(bs[2]) then 2
    else 3
  }

  /** `bytes.decode("utf-8", errors="replace")`: one U+FFFD for each maximal subpart. */
  function DecodeReplace(bs: seq<Byte>): string
    decreases |bs|
  {
    if bs == [] then ""
    else if StartsWell(bs) then [First(bs)] + DecodeReplace(bs[Width(bs[0])..])
    else [REPLACEMENT] + DecodeReplace(bs[SubpartLength(bs)..])
  }

  // ----- the codec is a bijection onto the well-formed byte strings ---------

  lemma EncodeCharStartsWell(c: char, rest: seq<Byte>)
    ensures StartsWell(EncodeChar(c) + rest)
    ensures Width((EncodeChar(c) + rest)[0]) == |EncodeChar(c)|
  {
  }

  lemma CodePointOfEncodeChar(c: char, bs: seq<Byte>)
    requires StartsWell(bs) && Width(bs[0]) == |EncodeChar(c)| && EncodeChar(c) <= bs
    ensures CodePoint(bs) == c as int
  {
    var v := c as int;
    if v < 0x800 {
    } else if v < 0x1_0000 {
      assert v / 0x40 == v / 0x1000 * 0x40 + v / 0x40 % 0x40;
    } else {
      assert v / 0x1000 == v / 0x4_0000 * 0x40 + v / 0x1000 % 0x40;
      assert v / 0x40 == v / 0x1000 * 0x40 + v / 0x40 % 0x40;
    }
  }

  lemma FirstOfEncodeChar(c: char, rest: seq<Byte>)
    ensures StartsWell(EncodeChar(c) + rest)
    ensures First(EncodeChar(c) + rest) == c
    ensures (EncodeChar(c) + rest)[Width((EncodeChar(c) + rest)[0])..] == rest
  {
    hide EncodeChar, CodePoint;
    EncodeCharStartsWell(c, rest);
    CodePointOfEncodeChar(c, EncodeChar(c) + rest);
  }

  lemma Sextet(q: int, r: int)
    requires 0 <= r < 0x40
    ensures (q * 0x40 + r) / 0x40 == q && (q * 0x40 + r) % 0x40 == r
  {
  }

  /** A well-formed sequence is the encoding of its character: overlong forms, surrogates
      and code points beyond U+10FFFF never start well. */
  lemma EncodeCharOfFirst(bs: seq<Byte>)
    requires StartsWell(bs)
    ensures EncodeChar(First(bs)) == bs[..Width(bs[0])]
  {
    var v := CodePoint(bs);
    var b0: int := bs[0];
    if b0 >= 0xF0 {
      EncodeCharOfFirst4(bs);
    } else if b0 >= 0xE0 {
      var v1 := (b0 - 0xE0) * 0x40 + (bs[1] as int - 0x80);
      Sextet(v1, bs[2] as int - 0x80);
      Sextet(b0 - 0xE0, bs[1] as int - 0x80);
      assert v == v1 * 0x40 + (bs[2] as int - 0x80);
      assert v / 0x1000 == v / 0x40 / 0x40;
    } else if b0 >= 0x80 {
      Sextet(b0 - 0xC0, bs[1] as int - 0x80);
    }
  }

  lemma EncodeCharOfFirst4(bs: seq<Byte>)
    requires StartsWell(bs) && bs[0] >= 0xF0
    ensures EncodeChar(First(bs)) == bs[..4]
  {
    var v := CodePoint(bs);
    var v1 := (bs[0] as int - 0xF0) * 0x40 + (bs[1] as int - 0x80);
    var v2 := v1 * 0x40 + (bs[2] as int - 0x80);
    Sextet(v2, bs[3] as int - 0x80);
    Sextet(v1, bs[2] as int - 0x80);
    Sextet(bs[0] as int - 0xF0, bs[1] as int - 0x80);
    assert v == v2 * 0x40 + (bs[3] as int - 0x80);
    assert v / 0x1000 == v / 0x40 / 0x40 && v / 0x4_0000 == v / 0x40 / 0x40 / 0x40;
  }

  /** Strict decoding inverts encoding. */
  lemma {:induction false} DecodeEncode(s: string)
    ensures Decode(Encode(s)) == Some(s)
  {
    hide EncodeChar, StartsWell, First;
    if s != "" {
      FirstOfEncodeChar(s[0], Encode(s[1..]));
      DecodeEncode(s[1..]);
      assert s == [s[0]] + s[1..];
    }
  }

  /** Encoding inverts strict decoding: bytes that decode are the encoding of their text. */
  lemma {:induction false} EncodeDecode(bs: seq<Byte>)
    ensures Decode(bs).Some? ==> Encode(Decode(bs).value) == bs
    decreases |bs|
  {
    hide EncodeChar, First;
    if bs != [] && StartsWell(bs) {
      var w := Width(bs[0]);
      EncodeDecode(bs[w..]);
      EncodeCharOfFirst(bs);
      if Decode(bs).Some? {
        var s := Decode(bs).value;
        assert s[0] == First(bs) && s[1..] == Decode(bs[w..]).value;
        assert bs == bs[..w] + bs[w..];
      }
    }
  }

  lemma {:induction false} EncodeConcat(s: string, t: string)
    ensures Encode(s + t) == Encode(s) + Encode(t)
  {
    if s == "" {
      assert s + t == t;
    } else {
      assert (s + t)[1..] == s[1..] + t;
      EncodeConcat(s[1..], t);
    }
  }

  /** For text without characters beyond U+007F, bytes and characters agree in number. */
  lemma {:induction false} EncodeAscii(s: string)
    requires forall i :: 0 <= i < |s| ==> s[i] < '\U{0080}'
    ensures |Encode(s)| == |s|
  {
    if s != "" {
      EncodeAscii(s[1..]);
    }
  }

  /** The forms of one to four bytes: a dollar sign, U+00A2, U+20AC and U+10348. */
  lemma KnownEncodings()
    ensures EncodeChar('$') == [0x24] && EncodeChar('\U{A2}') == [0xC2, 0xA2]
    ensures EncodeChar('\U{20AC}') == [0xE2, 0x82, 0xAC] && EncodeChar('\U{10348}') == [0xF0, 0x90, 0x8D, 0x88]
  {
  }

  // ----- cutting an encoding at a byte --------------------------------------

  /** How many leading characters of `s` fit into `k` bytes. */
  function Fit(s: string, k: nat): (j: nat)
    ensures j <= |s|
  {
    if s == "" || |EncodeChar(s[0])| > k then 0
    else 1 + Fit(s[1..], k - |EncodeChar(s[0])|)
  }

  /** `Fit` is the longest prefix within the limit. */
  lemma {:induction false} FitIsMaximal(s: string, k: nat)
    ensures |Encode(s[..Fit(s, k)])| <= k
    ensures Fit(s, k) < |s| ==> |Encode(s[..Fit(s, k) + 1])| > k
    ensures Fit(s, k) == |s| <==> |Encode(s)| <= k
  {
    hide EncodeChar;
    if s != "" && |EncodeChar(s[0])| <= k {
      var j := Fit(s[1..], k - |EncodeChar(s[0])|);
      FitIsMaximal(s[1..], k - |EncodeChar(s[0])|);
      assert s[..j + 1][1..] == s[1..][..j];
      if j < |s[1..]| {
        assert s[..j + 2][1..] == s[1..][..j + 1];
      }
    } else if s != "" {
      assert s[..1] == [s[0]];
      assert Encode(s[..1]) == EncodeChar(s[0]) + Encode([]);
    }
  }

  lemma {:induction false} EncodeMonotone(s: string, i: nat, j: nat)
    requires i <= j <= |s|
    ensures |Encode(s[..i])| <= |Encode(s[..j])|
  {
    assert s[..j] == s[..i] + s[i..j];
    EncodeConcat(s[..i], s[i..j]);
  }

  /** A proper non-empty prefix of one character's encoding decodes to nothing, or to one U+FFFD. */
  lemma CutCharacter(c: char, m: nat)
    requires 0 < m < |EncodeChar(c)|
    ensures DecodeIgnore(EncodeChar(c)[..m]) == ""
    ensures DecodeReplace(EncodeChar(c)[..m]) == [REPLACEMENT]
  {
    var p := EncodeChar(c)[..m];
    EncodeCharStartsWell(c, []);
    assert EncodeChar(c) + [] == EncodeChar(c);
    assert !StartsWell(p);
    assert SubpartLength(p) == m && p[m..] == [];
    forall i | 1 <= i < m ensures !StartsWell(p[i..]) {
      assert IsTail(p[i]);
    }
    SkipAll(p);
  }

  lemma {:induction false} SkipAll(p: seq<Byte>)
    requires forall i :: 0 <= i < |p| ==> !StartsWell(p[i..])
    ensures DecodeIgnore(p) == ""
  {
    if p != [] {
      assert p[0..] == p;
      forall i | 0 <= i < |p[1..]| ensures !StartsWell(p[1..][i..]) {
        assert p[1..][i..] == p[i + 1..];
      }
      SkipAll(p[1..]);
    }
  }

  /** Decoding the first `k` bytes of an encoding: the characters that fit, then under "replace"
      one U+FFFD exactly when the cut falls inside a character. */
  lemma {:induction false} DecodeCut(s: string, k: nat)
    requires k <= |Encode(s)|
    ensures DecodeIgnore(Encode(s)[..k]) == s[..Fit(s, k)]
    ensures DecodeReplace(Encode(s)[..k])
            == s[..Fit(s, k)] + (if |Encode(s[..Fit(s, k)])| == k then "" else [REPLACEMENT])
  {
    hide EncodeChar, StartsWell, First, SubpartLength;
    if k == 0 {
      assert s[..0] == "";
      assert Encode(s[..0]) == [];
      assert Fit(s, 0) == 0;
    } else {
      var e, rest := EncodeChar(s[0]), Encode(s[1..]);
      if |e| <= k {
        var j := Fit(s[1..], k - |e|);
        assert Encode(s)[..k] == e + rest[..k - |e|];
        FirstOfEncodeChar(s[0], rest[..k - |e|]);
        DecodeCut(s[1..], k - |e|);
        assert s[..j + 1] == [s[0]] + s[1..][..j];
        assert s[..j + 1][1..] == s[1..][..j];
      } else {
        assert Encode(s)[..k] == e[..k];
        CutCharacter(s[0], k);
        assert s[..0] == "" && Encode(s[..0]) == [];
      }
    }
  }
}
