/** Byte-bounded truncation of text on character boundaries, over the UTF-8 encoding of
    section 3 of RFC 3629. */
module TextTruncation {
  import opened Bytes
  import opened Options

  // ----- UTF-8 -----

  function EncodeChar(c: char): (bytes: seq<byte>)
    ensures 1 <= |bytes| <= 4
    ensures !IsContinuation(bytes[0])
    ensures forall k :: 0 < k < |bytes| ==> IsContinuation(bytes[k])
  {
    var n := c as int;
    if n < 0x80 then [n as byte]
    else if n < 0x800 then [(0xC0 + n / 64) as byte, (0x80 + n % 64) as byte]
    else if n < 0x1_0000 then
      [(0xE0 + n / 4096) as byte, (0x80 + n / 64 % 64) as byte, (0x80 + n % 64) as byte]
    else
      [(0xF0 + n / 26_2144) as byte, (0x80 + n / 4096 % 64) as byte, (0x80 + n / 64 % 64) as byte,
        (0x80 + n % 64) as byte]
  }

  /** The code point a sequence of one to four bytes stands for. */
  function CodePoint(bytes: seq<byte>): int
    requires bytes != []
  {
    var lead := bytes[0] as int;
    if |bytes| == 1 then lead
    else if |bytes| == 2 then (lead - 0xC0) * 64 + Low(bytes[1])
    else if |bytes| == 3 then (lead - 0xE0) * 4096 + Low(bytes[1]) * 64 + Low(bytes[2])
    else (lead - 0xF0) * 26_2144 + Low(bytes[1]) * 4096 + Low(bytes[2]) * 64 + Low(bytes[3])
  }

  function Low(b: byte): int { b as int - 0x80 }

  /** How many bytes a first byte announces. */
  function Announced(lead: byte): nat {
    if lead < 0x80 then 1 else if lead < 0xE0 then 2 else if lead < 0xF0 then 3 else 4
  }

  /** A character is read back from its bytes, and its first byte tells how many there are. */
  lemma CharReadBack(c: char)
    ensures CodePoint(EncodeChar(c)) == c as int
    ensures |EncodeChar(c)| == Announced(EncodeChar(c)[0])
  {
    var n := c as int;
    assert n / 4096 == n / 64 / 64 && n / 26_2144 == n / 4096 / 64;
    assert n == n / 64 * 64 + n % 64 && n / 64 == n / 4096 * 64 + n / 64 % 64;
    assert n / 4096 == n / 26_2144 * 64 + n / 4096 % 64;
  }

  function Encode(s: string): seq<byte> {
    if s == [] then [] else EncodeChar(s[0]) + Encode(s[1..])
  }

  predicate IsContinuation(b: byte) { 0x80 <= b < 0xC0 }

  /** Byte positions at which a text may be cut. */
  predicate IsCharBoundary(bytes: seq<byte>, i: nat) {
    i == 0 || i == |bytes| || (i < |bytes| && !IsContinuation(bytes[i]))
  }

  /** How many leading characters fit in `n` bytes. */
  function WholeChars(s: string, n: nat): (k: nat)
    ensures k <= |s|
  {
    if s == [] || |EncodeChar(s[0])| > n then 0
    else 1 + WholeChars(s[1..], n - |EncodeChar(s[0])|)
  }

  /** The text before byte position `n`, which must be a boundary. */
  function SliceTo(s: string, n: nat): string
    requires n <= |Encode(s)| && IsCharBoundary(Encode(s), n)
  {
    s[..WholeChars(s, n)]
  }

  lemma {:induction false} EncodeConcat(s: string, t: string)
    ensures Encode(s + t) == Encode(s) + Encode(t)
  {
    if s == [] {
      assert s + t == t;
    } else {
      assert (s + t)[1..] == s[1..] + t;
      EncodeConcat(s[1..], t);
      assert EncodeChar(s[0]) + (Encode(s[1..]) + Encode(t)) == EncodeChar(s[0]) + Encode(s[1..]) + Encode(t);
    }
  }

  /** The characters that fit in `n` bytes encode to the bytes before the last boundary at or
      before `n`; that boundary is less than one character away. */
  lemma {:induction false} WholeCharsBoundary(s: string, n: nat)
    requires n <= |Encode(s)|
    ensures var e := |Encode(s[..WholeChars(s, n)])|;
      && e <= n <= e + 3
      && Encode(s[..WholeChars(s, n)]) == Encode(s)[..e]
      && IsCharBoundary(Encode(s), e)
      && forall i :: e < i <= n ==> !IsCharBoundary(Encode(s), i)
  {
    hide EncodeChar, IsContinuation;
    var k := WholeChars(s, n);
    if k == 0 {
      assert s[..0] == [];
      if s != [] {
        forall i | 0 < i <= n ensures !IsCharBoundary(Encode(s), i) {
          assert Encode(s)[i] == EncodeChar(s[0])[i];
        }
      }
    } else {
      hide IsCharBoundary;
      var c, t := EncodeChar(s[0]), s[1..];
      WholeCharsBoundary(t, n - |c|);
      assert s[..k][1..] == t[..k - 1];
      var e := |Encode(t[..k - 1])|;
      assert Encode(s[..k]) == c + Encode(t[..k - 1]);
      assert Encode(s)[..|c| + e] == c + Encode(t)[..e];
      BoundaryShift(s, e);
      forall i | |c| + e < i <= n ensures !IsCharBoundary(Encode(s), i) {
        BoundaryShift(s, i - |c|);
      }
    }
  }

  lemma {:induction false} BoundaryShift(s: string, i: nat)
    requires s != [] && i <= |Encode(s[1..])|
    ensures IsCharBoundary(Encode(s), |EncodeChar(s[0])| + i) <==> IsCharBoundary(Encode(s[1..]), i)
  {
    var t := s[1..];
    assert i < |Encode(t)| ==> Encode(s)[|EncodeChar(s[0])| + i] == Encode(t)[i];
    if i == 0 && t != [] {
      assert Encode(t)[0] == EncodeChar(t[0])[0];
    }
  }

  // ----- The marker -----

  function Decimal(n: nat): (d: string)
    ensures |d| == Digits(n)
  {
    if n < 10 then [('0' as int + n) as char] else Decimal(n / 10) + [('0' as int + n % 10) as char]
  }

  function ReadDecimal(d: string): int {
    if d == "" then 0 else 10 * ReadDecimal(d[..|d| - 1]) + (d[|d| - 1] as int - '0' as int)
  }

  /** The count in a marker reads back as the number it stands for. */
  lemma {:induction false} DecimalReadBack(n: nat)
    ensures ReadDecimal(Decimal(n)) == n
  {
    if n < 10 {
      assert Decimal(n)[..0] == "";
    } else {
      DecimalReadBack(n / 10);
      assert Decimal(n)[..|Decimal(n)| - 1] == Decimal(n / 10);
    }
  }

  function Digits(n: nat): (k: nat)
    ensures k >= 1
  {
    if n < 10 then 1 else 1 + Digits(n / 10)
  }

  const MARKER_HEAD := "\n[... truncated "
  const MARKER_TAIL := " bytes to fit the compaction window ...]"
  const MARKER_RESERVE: nat := 64

  function Marker(dropped: nat): string {
    MARKER_HEAD + Decimal(dropped) + MARKER_TAIL
  }

  predicate Ascii(s: string) {
    forall i :: 0 <= i < |s| ==> (s[i] as int) < 0x80
  }

  lemma {:induction false} AsciiLength(s: string)
    requires Ascii(s)
    ensures |Encode(s)| == |s|
  {
    if s != [] {
      assert (s[0] as int) < 0x80;
      AsciiLength(s[1..]);
    }
  }

  lemma {:induction false} DecimalAscii(n: nat)
    ensures Ascii(Decimal(n))
  {
    if n >= 10 {
      DecimalAscii(n / 10);
    }
  }

  lemma {:induction false} MarkerLength(dropped: nat)
    ensures |Encode(Marker(dropped))| == 56 + Digits(dropped)
  {
    DecimalAscii(dropped);
    assert |MARKER_HEAD| == 16 && |MARKER_TAIL| == 40;
    assert Ascii(MARKER_HEAD) && Ascii(MARKER_TAIL);
    AsciiLength(Marker(dropped));
  }

  lemma {:induction false} DigitsBound(n: nat, k: nat, pow: nat)
    requires k >= 1 && pow == Pow10(k)
    ensures Digits(n) <= k <==> n < pow
  {
    if n >= 10 && k > 1 {
      DigitsBound(n / 10, k - 1, Pow10(k - 1));
    }
  }

  function Pow10(k: nat): (p: nat)
    ensures p >= 1 && (k >= 1 ==> p >= 10)
  {
    if k == 0 then 1 else 10 * Pow10(k - 1)
  }

  // ----- Truncation -----

  /** The bytes a truncated text keeps room for. */
  function Keep(maxBytes: nat): nat {
    if maxBytes < MARKER_RESERVE then 0 else maxBytes - MARKER_RESERVE
  }

  /** What truncation keeps of a text that is too long: whole characters only. */
  function KeptPrefix(s: string, maxBytes: nat): string {
    s[..WholeChars(s, Keep(maxBytes))]
  }

  /** Bytes the text loses. */
  function Dropped(s: string, maxBytes: nat): (n: nat)
  {
    EncodeConcat(KeptPrefix(s, maxBytes), s[|KeptPrefix(s, maxBytes)|..]);
    assert s == KeptPrefix(s, maxBytes) + s[|KeptPrefix(s, maxBytes)|..];
    |Encode(s)| - |Encode(KeptPrefix(s, maxBytes))|
  }

  function TruncateText(s: string, maxBytes: nat): Option<string> {
    if |Encode(s)| <= maxBytes then None
    else Some(KeptPrefix(s, maxBytes) + Marker(Dropped(s, maxBytes)))
  }

  /** Bytes by which the cut stepped back from its target to reach a character boundary. */
  function Slack(s: string, maxBytes: nat): (n: nat)
    requires TruncateText(s, maxBytes).Some?
    ensures n <= 3
  {
    WholeCharsBoundary(s, Keep(maxBytes));
    Keep(maxBytes) - |Encode(KeptPrefix(s, maxBytes))|
  }

  /** The code's loop: step back from the target byte to a character boundary. */
  method TruncateTextToBytes(s: string, maxBytes: nat) returns (r: Option<string>)
    ensures r == TruncateText(s, maxBytes)
  {
    var bytes := Encode(s);
    if |bytes| <= maxBytes {
      return None;
    }
    var keep := if maxBytes < MARKER_RESERVE then 0 else maxBytes - MARKER_RESERVE;
    var end := if keep < |bytes| then keep else |bytes|;
    ghost var cut := |Encode(KeptPrefix(s, maxBytes))|;
    WholeCharsBoundary(s, keep);
    while end > 0 && !IsCharBoundary(bytes, end)
      invariant cut <= end <= keep
    {
      end := end - 1;
    }
    assert end == cut;
    SameChars(s, keep, cut);
    var dropped := |bytes| - end;
    return Some(SliceTo(s, end) + Marker(dropped));
  }

  /** Cutting at the boundary itself gives the same characters. */
  lemma {:induction false} SameChars(s: string, n: nat, e: nat)
    requires e == |Encode(s[..WholeChars(s, n)])|
    ensures WholeChars(s, e) == WholeChars(s, n)
  {
    var k := WholeChars(s, n);
    if k == 0 {
      assert s[..0] == [];
    } else {
      var c := EncodeChar(s[0]);
      assert s[..k][1..] == s[1..][..k - 1];
      SameChars(s[1..], n - |c|, e - |c|);
    }
  }

  /** The kept prefix is whole characters, at most three bytes short of the target, and the
      result is that prefix followed by the marker. */
  lemma {:induction false} TruncationKeeps(s: string, maxBytes: nat)
    requires TruncateText(s, maxBytes).Some?
    ensures KeptPrefix(s, maxBytes) <= s && KeptPrefix(s, maxBytes) <= TruncateText(s, maxBytes).value
    ensures |Encode(KeptPrefix(s, maxBytes))| <= Keep(maxBytes) <= |Encode(KeptPrefix(s, maxBytes))| + 3
    ensures |Encode(TruncateText(s, maxBytes).value)|
      == |Encode(KeptPrefix(s, maxBytes))| + 56 + Digits(Dropped(s, maxBytes))
  {
    WholeCharsBoundary(s, Keep(maxBytes));
    MarkerLength(Dropped(s, maxBytes));
    EncodeConcat(KeptPrefix(s, maxBytes), Marker(Dropped(s, maxBytes)));
  }

  /** A truncated text is at most max(maxBytes, 64) bytes exactly when the count in the marker has
      at most eight digits, or one more for each byte the cut stepped back; in particular for
      every text under 10^8 bytes. */
  lemma {:induction false} TruncationBoundIff(s: string, maxBytes: nat)
    requires TruncateText(s, maxBytes).Some?
    ensures |Encode(TruncateText(s, maxBytes).value)| <= (if maxBytes < 64 then 64 else maxBytes)
      <==> Dropped(s, maxBytes) < Pow10(8 + Slack(s, maxBytes))
    ensures |Encode(s)| < 1_0000_0000 ==>
      |Encode(TruncateText(s, maxBytes).value)| <= (if maxBytes < 64 then 64 else maxBytes)
  {
    TruncationKeeps(s, maxBytes);
    var slack := Slack(s, maxBytes);
    DigitsBound(Dropped(s, maxBytes), 8 + slack, Pow10(8 + slack));
    Pow10Grows(8, slack);
    assert Pow10(8) == 1_0000_0000 by {
      assert Pow10(4) == 1_0000;
      assert Pow10(6) == 100 * Pow10(4);
    }
  }

  lemma {:induction false} Pow10Grows(k: nat, d: nat)
    ensures Pow10(k) <= Pow10(k + d)
  {
    if d > 0 {
      Pow10Grows(k, d - 1);
    }
  }

  /** The limit asked for is really met only when it leaves room for the marker. */
  lemma {:induction false} TruncationWithinLimitIff(s: string, maxBytes: nat)
    requires TruncateText(s, maxBytes).Some?
    ensures |Encode(TruncateText(s, maxBytes).value)| <= maxBytes <==>
      if maxBytes < 64 then 56 + Digits(|Encode(s)|) <= maxBytes
      else Dropped(s, maxBytes) < Pow10(8 + Slack(s, maxBytes))
    ensures maxBytes < 57 ==> |Encode(TruncateText(s, maxBytes).value)| > maxBytes
  {
    TruncationKeeps(s, maxBytes);
    TruncationBoundIff(s, maxBytes);
    if maxBytes < 64 {
      assert Dropped(s, maxBytes) == |Encode(s)|;
    }
  }

  /** Two bytes cut to one byte: the marker alone is longer than that. */
  lemma OverLimitWitness()
    ensures TruncateText("ab", 1).Some? && |Encode(TruncateText("ab", 1).value)| > 1
  {
    AsciiLength("ab");
    TruncationWithinLimitIff("ab", 1);
  }
}
