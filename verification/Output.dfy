/** Byte limits on remote output: the persistence policy on a whole string, and the
    capture of a stream that arrives in chunks. */
module Output {
  import opened Prelude
  import opened Utf8

  const DEFAULT_MAX_PERSISTED_OUTPUT_BYTES := 65_536
  const OUTPUT_TRUNCATED_MARKER := "\n...[remote output truncated]"

  // ----- bound_output -------------------------------------------------------

  datatype BoundedOutput = BoundedOutput(value: string, originalBytes: nat, truncated: bool)

  datatype OutputError = NegativeLimit

  function BoundOutput(value: string, maxBytes: int): (r: Result<BoundedOutput, OutputError>)
  {
    if maxBytes < 0 then Err(NegativeLimit)
    else
      var raw := Encode(value);
      if |raw| <= maxBytes then Ok(BoundedOutput(value, |raw|, false))
      else Ok(BoundedOutput(DecodeIgnore(raw[..maxBytes]), |raw|, true))
  }

  /** The result is the longest prefix of the text that fits, and it is flagged exactly
      when something was dropped. */
  lemma BoundOutputIsLongestPrefix(value: string, maxBytes: nat)
    ensures BoundOutput(value, maxBytes).Ok?
    ensures var r := BoundOutput(value, maxBytes).value;
            && r.value <= value
            && |Encode(r.value)| <= maxBytes
            && r.originalBytes == |Encode(value)|
            && (r.truncated <==> r.value != value)
            && (r.truncated <==> |Encode(value)| > maxBytes)
            && forall p: string :: p <= value && |Encode(p)| <= maxBytes ==> p <= r.value
  {
    var r := BoundOutput(value, maxBytes).value;
    var j := Fit(value, maxBytes);
    FitIsMaximal(value, maxBytes);
    assert value[..|value|] == value;
    if r.truncated {
      DecodeCut(value, maxBytes);
    }
    assert r.value == value[..j];
    forall p: string | p <= value && |Encode(p)| <= maxBytes ensures p <= r.value {
      assert p == value[..|p|];
      if |p| > j {
        EncodeMonotone(value, j + 1, |p|);
      }
    }
  }

  /** Bounding twice is bounding once by the smaller limit. */
  lemma BoundOutputTwice(value: string, m: nat, n: nat)
    ensures BoundOutput(BoundOutput(value, m).value.value, n).value.value
            == BoundOutput(value, if m <= n then m else n).value.value
  {
    var k := if m <= n then m else n;
    var first := BoundOutput(value, m).value.value;
    var second := BoundOutput(first, n).value.value;
    var once := BoundOutput(value, k).value.value;
    BoundOutputIsLongestPrefix(value, m);
    BoundOutputIsLongestPrefix(first, n);
    BoundOutputIsLongestPrefix(value, k);
    hide BoundOutput, Encode;
    assert once <= first && once <= second;
    assert second <= value && |Encode(second)| <= k by {
      assert second <= first <= value;
      EncodeMonotone(first, |second|, |first|);
      assert first[..|first|] == first && first[..|second|] == second;
    }
    assert second <= once;
  }

  /** Applying the same limit again changes nothing and flags nothing. */
  lemma BoundOutputIdempotent(value: string, maxBytes: nat)
    ensures var r := BoundOutput(value, maxBytes).value;
            BoundOutput(r.value, maxBytes) == Ok(BoundedOutput(r.value, |Encode(r.value)|, false))
  {
    BoundOutputIsLongestPrefix(value, maxBytes);
  }

  // ----- _read_bounded_stream -----------------------------------------------

  function Concat(chunks: seq<string>): string {
    if chunks == [] then "" else Concat(chunks[..|chunks| - 1]) + chunks[|chunks| - 1]
  }

  /** What a capture of the whole text may keep: the characters that fit, one replacement
      character when the byte limit falls inside a character, and the marker when
      anything was dropped. */
  function Capture(text: string, maxBytes: nat): string {
    var kept := text[..Fit(text, maxBytes)];
    if |Encode(text)| <= maxBytes then text
    else kept + (if |Encode(kept)| == maxBytes then "" else [REPLACEMENT]) + OUTPUT_TRUNCATED_MARKER
  }

  /** The longest prefix of a text that takes at most so many bytes. */
  ghost predicate LongestWithin(kept: string, text: string, maxBytes: nat) {
    && kept <= text && |Encode(kept)| <= maxBytes
    && forall p: string :: p <= text && |Encode(p)| <= maxBytes ==> p <= kept
  }

  /** A text within the limit comes back as it is; of a longer one its longest prefix within the limit, one
      U+FFFD if bytes of the next character are left, and the marker. */
  ghost predicate IsCapture(value: string, text: string, maxBytes: nat) {
    && (|Encode(text)| <= maxBytes ==> value == text)
    && (|Encode(text)| > maxBytes ==>
          exists kept :: LongestWithin(kept, text, maxBytes)
                         && value == kept + (if |Encode(kept)| < maxBytes then "\U{FFFD}" else "")
                                     + "\n...[remote output truncated]")
  }

  lemma CaptureIs(text: string, maxBytes: nat)
    ensures IsCapture(Capture(text, maxBytes), text, maxBytes)
  {
    var kept := text[..Fit(text, maxBytes)];
    FitIsMaximal(text, maxBytes);
    BoundOutputIsLongestPrefix(text, maxBytes);
    if |Encode(text)| > maxBytes {
      DecodeCut(text, maxBytes);
      assert BoundOutput(text, maxBytes).value.value == kept;
      hide Encode, Fit, BoundOutput;
      assert LongestWithin(kept, text, maxBytes);
    }
  }

  lemma OnlyOneLongest(a: string, b: string, text: string, maxBytes: nat)
    requires LongestWithin(a, text, maxBytes) && LongestWithin(b, text, maxBytes)
    ensures a == b
  {
    hide Encode;
    assert a <= b && b <= a;
    assert a == b[..|a|];
  }

  /** And nothing else is: the clauses leave no choice. */
  lemma CaptureIsUnique(v: string, w: string, text: string, maxBytes: nat)
    requires IsCapture(v, text, maxBytes) && IsCapture(w, text, maxBytes)
    ensures v == w
  {
    if |Encode(text)| > maxBytes {
      var a :| LongestWithin(a, text, maxBytes)
               && v == a + (if |Encode(a)| < maxBytes then "\U{FFFD}" else "") + "\n...[remote output truncated]";
      var b :| LongestWithin(b, text, maxBytes)
               && w == b + (if |Encode(b)| < maxBytes then "\U{FFFD}" else "") + "\n...[remote output truncated]";
      hide LongestWithin;
      OnlyOneLongest(a, b, text, maxBytes);
    }
  }

  function Take<T>(s: seq<T>, n: nat): seq<T> { if |s| <= n then s else s[..n] }

  /** The result depends on the concatenated text only, never on how it was chunked. */
  method ReadBoundedStream(chunks: seq<string>, maxBytes: nat) returns (value: string)
    ensures IsCapture(value, Concat(chunks), maxBytes)
  {
    var captured: seq<Byte> := [];
    var truncated := false;
    for i := 0 to |chunks|
      invariant captured == Take(Encode(Concat(chunks[..i])), maxBytes)
      invariant truncated <==> |Encode(Concat(chunks[..i]))| > maxBytes
    {
      var encoded := Encode(chunks[i]);
      var remaining := maxBytes - |captured|;
      ghost var before := Concat(chunks[..i]);
      assert chunks[..i + 1][..i] == chunks[..i];
      EncodeConcat(before, chunks[i]);
      if remaining > 0 {
        captured := captured + Take(encoded, remaining);
      }
      if |encoded| > remaining {
        truncated := true;
      }
    }
    assert chunks[..|chunks|] == chunks;
    ghost var text := Concat(chunks);
    if !truncated {
      DecodeReplaceEncode(text);
    } else {
      DecodeCut(text, maxBytes);
    }
    CaptureIs(text, maxBytes);
    value := DecodeReplace(captured);
    if truncated {
      value := value + OUTPUT_TRUNCATED_MARKER;
    }
  }

  lemma DecodeReplaceEncode(text: string)
    ensures DecodeReplace(Encode(text)) == text
  {
    var k := |Encode(text)|;
    DecodeCut(text, k);
    FitIsMaximal(text, k);
    assert Encode(text)[..k] == Encode(text) && text[..|text|] == text;
  }
}
