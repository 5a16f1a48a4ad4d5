/**
 * Byte-level helpers of the field decryption path (padding, unpadding and
 * hex decoding; the AES and MD5 steps are not modelled), the retry loop,
 * and the log-limit option defaults.
 */
module Tools {
  import opened Wrappers
  import opened Strings

  /** The byte for the ASCII digit '0'. */
  const Zero: byte := 48

  function Min(a: int, b: int): int {
    if a < b then a else b
  }

  /** paddingN: cut to `size` bytes, or fill up to `size` with '0' bytes. A negative size makes Go's slice panic. */
  function PaddingN(text: seq<byte>, size: int): (r: seq<byte>)
    requires size >= 0
    ensures |r| == size
    ensures r[..Min(|text|, size)] == text[..Min(|text|, size)]
    ensures forall i :: |text| <= i < size ==> r[i] == Zero
  {
    if |text| > size then text[..size]
    else text + seq(size - |text|, _ => Zero)
  }

  /** unPaddingN: drop as many trailing bytes as the last byte says. Go panics on empty input or a last byte beyond the length. */
  function UnPaddingN(cipherText: seq<byte>): (r: seq<byte>)
    requires |cipherText| > 0 && cipherText[|cipherText| - 1] as int <= |cipherText|
    ensures |r| == |cipherText| - cipherText[|cipherText| - 1] as int
    ensures r == cipherText[..|r|]
  {
    cipherText[..|cipherText| - cipherText[|cipherText| - 1] as int]
  }

  /** PKCS#7-style padding, which unPaddingN undoes: n bytes each holding n. */
  function Pad(text: seq<byte>, n: byte): (r: seq<byte>)
    requires n > 0
  {
    text + seq(n as int, _ => n)
  }

  /** unPaddingN inverts the padding it is paired with. */
  lemma UnPadPad(text: seq<byte>, n: byte)
    requires n > 0
    ensures UnPaddingN(Pad(text, n)) == text
  {
    var p := Pad(text, n);
    assert p[|p| - 1] == n;
    assert p[..|text|] == text;
  }

  // ---- hex2bin, after encoding/hex ----

  /** The errors of encoding/hex: ErrLength, and InvalidByteError carrying the offending byte. */
  datatype HexError = ErrLength | InvalidByte(b: byte)

  /** The ASCII bytes '0'-'9', 'a'-'f' and 'A'-'F'. */
  predicate IsHexByte(b: byte) {
    (48 <= b <= 57) || (97 <= b <= 102) || (65 <= b <= 70)
  }

  function HexValue(b: byte): (v: byte)
    requires IsHexByte(b)
    ensures v < 16
  {
    if 48 <= b <= 57 then b - 48
    else if 97 <= b <= 102 then b - 87
    else b - 55
  }

  /** The lower-case ASCII digit of a nibble. */
  function HexDigit(v: byte): (b: byte)
    requires v < 16
    ensures IsHexByte(b) && HexValue(b) == v
  {
    if v < 10 then v + 48 else v + 87
  }

  /** hex.EncodeToString, as bytes: two lower-case digits per byte, high nibble first. */
  function HexEncode(b: seq<byte>): (s: seq<byte>)
    ensures |s| == 2 * |b|
  {
    if b == [] then [] else [HexDigit(b[0] / 16), HexDigit(b[0] % 16)] + HexEncode(b[1..])
  }

  /** hex.Decode over an even number of bytes: the first invalid byte, in order, is reported. */
  function DecodePairs(s: seq<byte>): (r: Result<seq<byte>, HexError>)
    requires |s| % 2 == 0
    ensures r.Ok? ==> |r.value| == |s| / 2
    ensures r.Ok? <==> forall i :: 0 <= i < |s| ==> IsHexByte(s[i])
    ensures r.Ok? ==> forall i :: 0 <= i < |s| / 2 ==> r.value[i] as int == 16 * HexValue(s[2 * i]) as int + HexValue(s[2 * i + 1]) as int
    ensures r.Err? ==> r.error.InvalidByte? && exists i :: 0 <= i < |s| && s[i] == r.error.b && !IsHexByte(s[i]) && forall j :: 0 <= j < i ==> IsHexByte(s[j])
  {
    if s == [] then Ok([])
    else if !IsHexByte(s[0]) then Err(InvalidByte(s[0]))
    else if !IsHexByte(s[1]) then Err(InvalidByte(s[1]))
    else match DecodePairs(s[2..])
      case Err(e) => Err(e)
      case Ok(rest) => Ok([16 * HexValue(s[0]) + HexValue(s[1])] + rest)
  }

  /**
   * hex2bin over the bytes of its string argument (len counts bytes, as Go's
   * does): an odd byte count fails with ErrLength; otherwise the pairwise decoding.
   */
  function Hex2Bin(bs: seq<byte>): (r: Result<seq<byte>, HexError>)
    ensures |bs| % 2 != 0 <==> r == Err(ErrLength)
    ensures r.Ok? ==> |r.value| == |bs| / 2
  {
    if |bs| % 2 != 0 then Err(ErrLength) else DecodePairs(bs)
  }

  /** Decoding the hex encoding of bytes gives them back. */
  lemma {:induction false} Hex2BinRoundTrip(b: seq<byte>)
    ensures Hex2Bin(HexEncode(b)) == Ok(b)
  {
    if b != [] {
      Hex2BinRoundTrip(b[1..]);
      var s := HexEncode(b);
      assert s[2..] == HexEncode(b[1..]);
      assert 16 * HexValue(s[0]) + HexValue(s[1]) == b[0];
      assert [b[0]] + b[1..] == b;
    }
  }

  /** A two-byte non-ASCII character such as "é" (0xC3 0xA9) is an invalid byte, and with one more byte an odd length. */
  lemma Hex2BinNonAscii()
    ensures Hex2Bin([0xC3, 0xA9]) == Err(InvalidByte(0xC3))
    ensures Hex2Bin([0xC3, 0xA9, 97]) == Err(ErrLength)
  {
    assert !IsHexByte(0xC3);
    assert DecodePairs([0xC3, 0xA9]) == Err(InvalidByte(0xC3));
  }

  // ---- InvokeFuncWithRetry ----

  /**
   * InvokeFuncWithRetry: call f until it succeeds or retryCount retries
   * have been made. `outcome(k)` is the error of the (k+1)-th call, None
   * for success; the sleeps between calls are not modelled.
   */
  method InvokeFuncWithRetry(retryCount: int, outcome: nat -> Option<string>) returns (err: Option<string>, calls: nat)
    ensures 1 <= calls <= (if retryCount > 0 then retryCount else 0) + 1
    ensures err == outcome(calls - 1)
    ensures forall k :: 0 <= k < calls - 1 ==> outcome(k).Some?
    ensures err.Some? ==> calls == (if retryCount > 0 then retryCount else 0) + 1
  {
    var count: nat := 0;
    while true
      invariant count <= (if retryCount > 0 then retryCount else 0)
      invariant forall k :: 0 <= k < count ==> outcome(k).Some?
      decreases (if retryCount > 0 then retryCount else 0) - count
    {
      err := outcome(count);
      if err.None? {
        break;
      }
      if count >= retryCount {
        break;
      }
      count := count + 1;
    }
    calls := count + 1;
  }

  /** The result is nil exactly when some permitted call succeeded. */
  lemma RetrySucceedsIff(retryCount: int, outcome: nat -> Option<string>, err: Option<string>, calls: nat)
    requires 1 <= calls <= (if retryCount > 0 then retryCount else 0) + 1
    requires err == outcome(calls - 1)
    requires forall k :: 0 <= k < calls - 1 ==> outcome(k).Some?
    requires err.Some? ==> calls == (if retryCount > 0 then retryCount else 0) + 1
    ensures err.None? <==> exists k :: 0 <= k <= (if retryCount > 0 then retryCount else 0) && outcome(k).None?
  {
    if err.None? {
      assert outcome(calls - 1).None?;
    }
  }

  // ---- GetLogLimitOption ----

  datatype LogLimitOption = LogLimitOption(maxLine: int, maxSize: int, maxLineLength: int)

  const DefaultLogLimitOption := LogLimitOption(10000, 10 * 1024 * 1024, 10000)

  /** GetLogLimitOption; `runtimeOption` is the decoded runtime option of the context, if any. */
  function GetLogLimitOption(runtimeOption: Option<LogLimitOption>): (r: LogLimitOption)
    ensures runtimeOption.None? ==> r == LogLimitOption(10000, 10485760, 10000)
    ensures runtimeOption.Some? ==>
      var o := runtimeOption.value;
      && r.maxLine == (if o.maxLine == 0 then 10000 else o.maxLine)
      && r.maxSize == (if o.maxSize == 0 then 10485760 else o.maxSize)
      && r.maxLineLength == (if o.maxLineLength == 0 then 10000 else o.maxLineLength)
  {
    match runtimeOption
    case None => DefaultLogLimitOption
    case Some(option) =>
      var option := if option.maxLine == 0 then option.(maxLine := DefaultLogLimitOption.maxLine) else option;
      var option := if option.maxSize == 0 then option.(maxSize := DefaultLogLimitOption.maxSize) else option;
      if option.maxLineLength == 0 then option.(maxLineLength := DefaultLogLimitOption.maxLineLength) else option
  }

  /** Applying the defaults twice changes nothing more: no field of the result is zero. */
  lemma LogLimitOptionIdempotent(o: Option<LogLimitOption>)
    ensures var r := GetLogLimitOption(o);
      r.maxLine != 0 && r.maxSize != 0 && r.maxLineLength != 0 && GetLogLimitOption(Some(r)) == r
  {
  }
}
