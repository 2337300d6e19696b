/**
 * The token framing of top.limitart.util.EncryptionUtil around AES/CBC/NoPadding
 * (FIPS 197, CBC as in section 6.2 of NIST SP 800-38A) and Base64 (section 4 of
 * RFC 4648).
 *
 * A token is `[$NN] ‖ substitute(base64(IV ‖ AES-CBC(key, IV, zero-filled plaintext)))`,
 * where NN is the number of zero bytes added to reach a multiple of 16 and the
 * substitution is `+`->`-`, `/`->`_` (the alphabet of section 5 of RFC 4648)
 * and `=`->`.` (not in the RFC).
 *
 * The cipher, the Base64 codec and UTF-8 conversion are not modelled: they are
 * function values in `Primitives`, and the round trip is proved for any
 * primitives that are `Sound`. Arrays are built with `ArrayCopy`
 * (System.arraycopy) as the Java code builds them; Java's `int` bound on array
 * lengths is kept.
 */
module Encryption {
  import opened Wrappers
  import opened JavaInt

  type byte = bv8

  /** The block size: key, IV and cipher blocks are 16 (0X10) bytes. */
  const BLOCK: nat := 16

  /** The exceptions encode and decode can throw. */
  datatype CryptoError =
    | NullIv              // encode on an instance made without an IV
    | NegativeArraySize   // an array length computed below zero (or wrapped past Integer.MAX_VALUE)
    | IndexOutOfBounds    // substring(1, 3) of a token shorter than 3
    | NumberFormat        // the two characters after `$` are not an int
    | BadBase64           // the Base64 decoder rejected the text
    | BadCipherText       // the cipher rejected the ciphertext

  /** The foreign code EncryptionUtil calls. */
  datatype Primitives = Primitives(
    encrypt: (seq<byte>, seq<byte>, seq<byte>) -> seq<byte>,           // AES-CBC (key, iv, plaintext)
    decrypt: (seq<byte>, seq<byte>, seq<byte>) -> Option<seq<byte>>,   // AES-CBC (key, iv, ciphertext), None if it throws
    toBase64: seq<byte> -> string,
    fromBase64: string -> Option<seq<byte>>,                          // None if it throws
    utf8Encode: string -> seq<byte>,
    utf8Decode: seq<byte> -> string)

  predicate IsBase64Char(c: char) {
    ('A' <= c <= 'Z') || ('a' <= c <= 'z') || ('0' <= c <= '9') || c == '+' || c == '/' || c == '='
  }

  predicate IsBase64(s: string) {
    forall i :: 0 <= i < |s| ==> IsBase64Char(s[i])
  }

  /**
   * What the round trip assumes of the foreign code: CBC without padding
   * keeps the length of whole blocks and decryption undoes encryption under
   * the same key and IV; Base64 decoding undoes encoding, whose output is in
   * the Base64 alphabet.
   */
  ghost predicate Sound(p: Primitives) {
    && (forall key, iv, plain :: |key| == BLOCK && |iv| == BLOCK && WholeBlocks(plain) ==>
          |p.encrypt(key, iv, plain)| == |plain| && p.decrypt(key, iv, p.encrypt(key, iv, plain)) == Some(plain))
    && (forall bytes :: p.fromBase64(p.toBase64(bytes)) == Some(bytes) && IsBase64(p.toBase64(bytes)))
  }

  predicate WholeBlocks(s: seq<byte>) {
    |s| % BLOCK == 0
  }

  function Zeros(n: nat): (z: seq<byte>)
    ensures |z| == n && forall i :: 0 <= i < n ==> z[i] == 0
  {
    seq(n, _ => 0)
  }

  /** A 16-byte block from `raw`: its first min(16, |raw|) bytes, then zeros (the key and the IV). */
  function FitBlock(raw: seq<byte>): (block: seq<byte>)
    ensures |block| == BLOCK
    ensures forall i :: 0 <= i < BLOCK ==> block[i] == (if i < |raw| then raw[i] else 0)
  {
    if |raw| >= BLOCK then raw[..BLOCK] else raw + Zeros(BLOCK - |raw|)
  }

  /**
   * The padded length: `((len >> 4) + 1) << 4` when `len & 0XF` is not 0, else
   * `len`. For 0 <= len these are `(len / 16 + 1) * 16` and `len % 16`; the
   * case where Java's `int` wraps is handled by the callers.
   */
  function PaddedLength(len: nat): (padded: nat)
    ensures padded % BLOCK == 0
    ensures len <= padded < len + BLOCK
  {
    if len % BLOCK != 0 then (len / BLOCK + 1) * BLOCK else len
  }

  /** zeroFlag: how many zero bytes encode appends. */
  function ZeroFlag(len: nat): (zeroFlag: nat)
    ensures zeroFlag < BLOCK
    ensures zeroFlag == 0 <==> len % BLOCK == 0
    ensures (len + zeroFlag) % BLOCK == 0
  {
    PaddedLength(len) - len
  }

  /** The plaintext filled with zeros up to a multiple of 16 bytes. */
  function ZeroFill(bytes: seq<byte>): (filled: seq<byte>)
    ensures |filled| == PaddedLength(|bytes|)
    ensures filled[..|bytes|] == bytes
    ensures forall i :: |bytes| <= i < |filled| ==> filled[i] == 0
  {
    bytes + Zeros(ZeroFlag(|bytes|))
  }

  /** String.replace(from, to). */
  function Replace(s: string, from: char, to: char): (r: string)
    ensures |r| == |s|
    ensures forall i :: 0 <= i < |s| ==> r[i] == (if s[i] == from then to else s[i])
  {
    seq(|s|, i requires 0 <= i < |s| => if s[i] == from then to else s[i])
  }

  /** The substitution encode applies to the Base64 text. */
  function Substitute(s: string): (r: string)
    ensures |r| == |s|
    ensures forall i :: 0 <= i < |s| ==>
      r[i] == (if s[i] == '+' then '-' else if s[i] == '/' then '_' else if s[i] == '=' then '.' else s[i])
    ensures forall i :: 0 <= i < |s| ==> r[i] != '+' && r[i] != '/' && r[i] != '='
  {
    Replace(Replace(Replace(s, '+', '-'), '/', '_'), '=', '.')
  }

  /** The substitution decode applies to the token. */
  function Restore(s: string): (r: string)
    ensures |r| == |s|
    ensures forall i :: 0 <= i < |s| ==>
      r[i] == (if s[i] == '-' then '+' else if s[i] == '_' then '/' else if s[i] == '.' then '=' else s[i])
    ensures forall i :: 0 <= i < |s| ==> r[i] != '-' && r[i] != '_' && r[i] != '.'
  {
    Replace(Replace(Replace(s, '-', '+'), '_', '/'), '.', '=')
  }

  /** Over the Base64 alphabet, decode's substitution undoes encode's. */
  lemma RestoreUndoesSubstitute(s: string)
    requires IsBase64(s)
    ensures Restore(Substitute(s)) == s
  {
    var r := Restore(Substitute(s));
    forall i | 0 <= i < |s|
      ensures r[i] == s[i]
    {
      assert IsBase64Char(s[i]);
    }
  }

  /** Outside that alphabet it does not: a `-` in the Base64 text would come back as `+`. */
  lemma RestoreOutsideAlphabet()
    ensures Restore(Substitute("-")) == "+"
  {
  }

  /** A substituted Base64 text never starts with `$`, so decode never mistakes it for a prefix. */
  lemma SubstitutedHasNoPrefix(s: string)
    requires IsBase64(s) && |s| > 0
    ensures Substitute(s)[0] != '$'
  {
    assert IsBase64Char(s[0]);
  }

  function DigitChar(d: nat): char
    requires d < 10
  {
    "0123456789"[d]
  }

  predicate IsDigit(c: char) {
    '0' <= c <= '9'
  }

  function DigitValue(c: char): (d: nat)
    requires IsDigit(c)
    ensures d < 10
  {
    (c as int) - ('0' as int)
  }

  /** String.format("%02d", n) for 0 <= n < 100. */
  function TwoDigits(n: nat): (s: string)
    requires n < 100
    ensures |s| == 2 && IsDigit(s[0]) && IsDigit(s[1])
    ensures 10 * DigitValue(s[0]) + DigitValue(s[1]) == n
  {
    [DigitChar(n / 10), DigitChar(n % 10)]
  }

  /**
   * Integer.parseInt of a two-character string: two decimal digits, or a sign
   * followed by one digit; anything else throws NumberFormatException.
   */
  function ParseTwoChars(s: string): (r: Result<int, CryptoError>)
    requires |s| == 2
    ensures r.Success? <==> IsDigit(s[1]) && (IsDigit(s[0]) || s[0] == '+' || s[0] == '-')
    ensures r.Failure? ==> r.error == NumberFormat
    ensures r.Success? ==> -9 <= r.value <= 99
    ensures IsDigit(s[0]) && IsDigit(s[1]) ==> r == Success(10 * DigitValue(s[0]) + DigitValue(s[1]))
    ensures s[0] == '+' && IsDigit(s[1]) ==> r == Success(DigitValue(s[1]))
    ensures s[0] == '-' && IsDigit(s[1]) ==> r == Success(0 - DigitValue(s[1]))
  {
    if IsDigit(s[0]) && IsDigit(s[1]) then Success(10 * DigitValue(s[0]) + DigitValue(s[1]))
    else if s[0] == '+' && IsDigit(s[1]) then Success(DigitValue(s[1]))
    else if s[0] == '-' && IsDigit(s[1]) then Success(0 - DigitValue(s[1]) as int)
    else Failure(NumberFormat)
  }

  /** The `$NN` prefix encode puts before a token whose plaintext was filled with zeroFlag zeros. */
  function ZeroFlagPrefix(zeroFlag: nat): (prefix: string)
    requires zeroFlag < 100
    ensures zeroFlag == 0 ==> prefix == ""
    ensures zeroFlag > 0 ==> |prefix| == 3 && prefix[0] == '$' && ParseTwoChars(prefix[1..3]) == Success(zeroFlag)
  {
    if zeroFlag > 0 then "$" + TwoDigits(zeroFlag) else ""
  }

  /** How decode reads the prefix: the zeroFlag and the rest of the token. */
  function ParsePrefix(source: string): (r: Result<(int, string), CryptoError>)
    ensures |source| == 0 || source[0] != '$' ==> r == Success((0, source))
    ensures 0 < |source| < 3 && source[0] == '$' ==> r == Failure(IndexOutOfBounds)
    ensures |source| >= 3 && source[0] == '$' ==>
      var flag := ParseTwoChars(source[1..3]);
      r == if flag.Success? then Success((flag.value, source[3..])) else Failure(NumberFormat)
  {
    if |source| > 0 && source[0] == '$' then
      if |source| < 3 then Failure(IndexOutOfBounds)
      else
        var zeroFlag :- ParseTwoChars(source[1..3]);
        Success((zeroFlag, source[3..]))
    else Success((0, source))
  }

  /** decode reads back the zeroFlag encode wrote, and the rest of the token. */
  lemma ParsePrefixReadsZeroFlag(zeroFlag: nat, rest: string)
    requires zeroFlag < 100
    requires |rest| == 0 || rest[0] != '$'
    ensures ParsePrefix(ZeroFlagPrefix(zeroFlag) + rest) == Success((zeroFlag, rest))
  {
    var s := ZeroFlagPrefix(zeroFlag) + rest;
    if zeroFlag > 0 {
      assert s[1..3] == ZeroFlagPrefix(zeroFlag)[1..3];
      assert s[3..] == rest;
    } else {
      assert s == rest;
    }
  }

  /**
   * encode(byte[]) with the key and the IV of the instance: the token, or the
   * exception it throws.
   */
  function EncodeToken(key: seq<byte>, iv: Option<seq<byte>>, bytes: seq<byte>, p: Primitives): (r: Result<string, CryptoError>)
    ensures r.Failure? ==> r.error == NegativeArraySize || r.error == NullIv
    ensures r.Success? ==> iv.Some? && PaddedLength(|bytes|) <= INT_MAX
    ensures r.Success? ==> ZeroFlagPrefix(ZeroFlag(|bytes|)) <= r.value
    ensures r.Success? ==> |r.value| - |ZeroFlagPrefix(ZeroFlag(|bytes|))| == |p.toBase64(iv.value + p.encrypt(key, iv.value, ZeroFill(bytes)))|
  {
    if PaddedLength(|bytes|) > INT_MAX then Failure(NegativeArraySize)
    else if iv.None? then Failure(NullIv)
    else
      var doFinal := p.encrypt(key, iv.value, ZeroFill(bytes));
      if |doFinal| + |iv.value| > INT_MAX then Failure(NegativeArraySize)
      else
        var result := Substitute(p.toBase64(iv.value + doFinal));
        Success(ZeroFlagPrefix(ZeroFlag(|bytes|)) + result)
  }

  /** decode(String) with the key of the instance, up to the final `new String(…, UTF_8)`. */
  function DecodeToken(key: seq<byte>, source: string, p: Primitives): (r: Result<seq<byte>, CryptoError>)
    ensures ParsePrefix(source).Failure? ==> r == Failure(ParsePrefix(source).error)
    ensures r.Failure? ==> r.error != NullIv
    ensures r.Success? ==>
      && ParsePrefix(source).Success?
      && var (zeroFlag, rest) := ParsePrefix(source).value;
         var content := p.fromBase64(Restore(rest));
         && content.Some? && |content.value| >= BLOCK
         && var plain := p.decrypt(key, content.value[..BLOCK], content.value[BLOCK..]);
            && plain.Some?
            && r.value <= plain.value
            && |r.value| == |plain.value| - (if zeroFlag > 0 then zeroFlag else 0)
  {
    var (zeroFlag, tokenSource) :- ParsePrefix(source);
    var base64Decode := p.fromBase64(Restore(tokenSource));
    if base64Decode.None? then Failure(BadBase64)
    else if |base64Decode.value| < BLOCK then Failure(NegativeArraySize)
    else
      var doFinal := p.decrypt(key, base64Decode.value[..BLOCK], base64Decode.value[BLOCK..]);
      if doFinal.None? then Failure(BadCipherText)
      else if zeroFlag > 0 then
        if |doFinal.value| < zeroFlag then Failure(NegativeArraySize)
        else Success(doFinal.value[..|doFinal.value| - zeroFlag])
      else Success(doFinal.value)
  }

  /**
   * The longest plaintext encode's own array arithmetic accepts: past it,
   * `doFinal.length + 16` wraps below zero. (The Base64 encoder's own bound on
   * its output is not modelled.)
   */
  const MAX_PLAINTEXT: nat := INT_MAX - 31

  /** MAX_PLAINTEXT is a multiple of 16, so padding a length stays within it exactly when the length does. */
  lemma PaddedWithinLimit(len: nat)
    ensures PaddedLength(len) <= MAX_PLAINTEXT <==> len <= MAX_PLAINTEXT
  {
    assert MAX_PLAINTEXT == 0x7FF_FFFE * BLOCK;
    if len <= MAX_PLAINTEXT && len % BLOCK != 0 {
      assert len / BLOCK < 0x7FF_FFFE;
    }
  }

  /**
   * With an IV, encode's own array arithmetic fails exactly on plaintexts
   * longer than MAX_PLAINTEXT bytes.
   */
  lemma EncodeLengthLimit(key: seq<byte>, iv: seq<byte>, bytes: seq<byte>, p: Primitives)
    requires Sound(p) && |key| == BLOCK && |iv| == BLOCK
    ensures EncodeToken(key, Some(iv), bytes, p).Success? <==> |bytes| <= MAX_PLAINTEXT
  {
    var padded := PaddedLength(|bytes|);
    PaddedWithinLimit(|bytes|);
    if padded <= INT_MAX {
      var doFinal := p.encrypt(key, iv, ZeroFill(bytes));
      assert |doFinal| == padded;
      assert EncodeToken(key, Some(iv), bytes, p).Success? <==> padded + BLOCK <= INT_MAX;
    } else {
      assert EncodeToken(key, Some(iv), bytes, p) == Failure(NegativeArraySize);
    }
  }

  /**
   * An instance without an IV (every decode instance) cannot encode: any
   * plaintext short enough to pad is refused for the missing IV.
   */
  lemma EncodeNeedsIv(key: seq<byte>, bytes: seq<byte>, p: Primitives)
    ensures EncodeToken(key, None, bytes, p).Failure?
    ensures |bytes| <= MAX_PLAINTEXT ==> EncodeToken(key, None, bytes, p) == Failure(NullIv)
  {
    PaddedWithinLimit(|bytes|);
  }

  /**
   * The round trip: with sound primitives, a token made by encode with some
   * key and IV decodes, under the same key, to the plaintext it was made
   * from, trailing zero bytes of the plaintext included.
   */
  lemma {:induction false} RoundTrip(key: seq<byte>, iv: seq<byte>, bytes: seq<byte>, p: Primitives)
    requires Sound(p) && |key| == BLOCK && |iv| == BLOCK
    requires |bytes| <= MAX_PLAINTEXT
    ensures EncodeToken(key, Some(iv), bytes, p).Success?
    ensures DecodeToken(key, EncodeToken(key, Some(iv), bytes, p).value, p) == Success(bytes)
  {
    EncodeLengthLimit(key, iv, bytes, p);
    var filled := ZeroFill(bytes);
    var zeroFlag := ZeroFlag(|bytes|);
    var doFinal := p.encrypt(key, iv, filled);
    assert |doFinal| == |filled| && p.decrypt(key, iv, doFinal) == Some(filled);
    var content := iv + doFinal;
    assert p.fromBase64(p.toBase64(content)) == Some(content) && IsBase64(p.toBase64(content));
    assert content[..BLOCK] == iv && content[BLOCK..] == doFinal;
    DecodeFramed(key, zeroFlag, content, filled, p);
    assert filled[..|filled| - zeroFlag] == bytes;
  }

  /**
   * Decoding a token framed as encode frames it: the zeroFlag prefix, then the
   * substituted Base64 of IV ‖ ciphertext, yields the decrypted text without
   * its last zeroFlag bytes.
   */
  lemma DecodeFramed(key: seq<byte>, zeroFlag: nat, content: seq<byte>, plain: seq<byte>, p: Primitives)
    requires zeroFlag < BLOCK && zeroFlag <= |plain| && |content| >= BLOCK
    requires p.fromBase64(p.toBase64(content)) == Some(content) && IsBase64(p.toBase64(content))
    requires p.decrypt(key, content[..BLOCK], content[BLOCK..]) == Some(plain)
    ensures DecodeToken(key, ZeroFlagPrefix(zeroFlag) + Substitute(p.toBase64(content)), p)
      == Success(plain[..|plain| - zeroFlag])
  {
    var b64 := p.toBase64(content);
    var body := Substitute(b64);
    if |body| > 0 {
      SubstitutedHasNoPrefix(b64);
    }
    ParsePrefixReadsZeroFlag(zeroFlag, body);
    RestoreUndoesSubstitute(b64);
    if zeroFlag == 0 {
      assert plain[..|plain|] == plain;
    }
  }

  /** System.arraycopy(src, srcPos, dest, destPos, length) from an array other than `dest`. */
  method ArrayCopy(src: seq<byte>, srcPos: nat, dest: array<byte>, destPos: nat, length: nat)
    requires srcPos + length <= |src| && destPos + length <= dest.Length
    modifies dest
    ensures dest[..] == old(dest[..destPos]) + src[srcPos..srcPos + length] + old(dest[destPos + length..])
  {
    var k := 0;
    while k < length
      invariant 0 <= k <= length
      invariant dest[..destPos] == old(dest[..destPos])
      invariant dest[destPos..destPos + k] == src[srcPos..srcPos + k]
      invariant dest[destPos + length..] == old(dest[destPos + length..])
    {
      dest[destPos + k] := src[srcPos + k];
      k := k + 1;
    }
    assert dest[..] == dest[..destPos] + dest[destPos..destPos + length] + dest[destPos + length..];
  }

  /** `new byte[0X10]` and a copy of the first min(16, |raw|) bytes of `raw` into it. */
  method DeriveBlock(raw: seq<byte>) returns (block: seq<byte>)
    ensures block == FitBlock(raw)
  {
    var result := new byte[BLOCK](_ => 0);
    var n := if |raw| < BLOCK then |raw| else BLOCK;
    ArrayCopy(raw, 0, result, 0, n);
    block := result[..];
    assert block == raw[..n] + Zeros(BLOCK - n);
  }

  class EncryptionUtil {
    const generateKey: seq<byte>
    const iv: Option<seq<byte>>

    /** getEncodeInstance(password, ivStr): the key and, when `ivStr` is not null, the IV. */
    constructor EncodeInstance(password: string, ivStr: Option<string>, p: Primitives)
      ensures generateKey == FitBlock(p.utf8Encode(password))
      ensures iv == if ivStr.Some? then Some(FitBlock(p.utf8Encode(ivStr.value))) else None
    {
      var key := DeriveBlock(p.utf8Encode(password));
      var block: Option<seq<byte>> := None;
      if ivStr.Some? {
        var ivBlock := DeriveBlock(p.utf8Encode(ivStr.value));
        block := Some(ivBlock);
      }
      generateKey := key;
      iv := block;
    }

    /** getDecodeInstance(password): the key, and no IV. */
    constructor DecodeInstance(password: string, p: Primitives)
      ensures generateKey == FitBlock(p.utf8Encode(password))
      ensures iv == None
    {
      var key := DeriveBlock(p.utf8Encode(password));
      generateKey := key;
      iv := None;
    }

    /** encode(byte[] bytes). */
    method Encode(bytes: seq<byte>, p: Primitives) returns (r: Result<string, CryptoError>)
      requires |bytes| <= INT_MAX
      ensures r == EncodeToken(generateKey, iv, bytes, p)
    {
      var zeroFlag := 0;
      var jsonByteFillZero: seq<byte>;
      var len := |bytes|;
      if len % BLOCK != 0 {
        len := (len / BLOCK + 1) * BLOCK;
        if len > INT_MAX {
          // ((len >> 4) + 1) << 4 is 2^31 here, which Java's int wraps to a negative length
          return Failure(NegativeArraySize);
        }
        zeroFlag := len - |bytes|;
        var filled := new byte[len](_ => 0);
        ArrayCopy(bytes, 0, filled, 0, |bytes|);
        jsonByteFillZero := filled[..];
        assert jsonByteFillZero == ZeroFill(bytes);
      } else {
        jsonByteFillZero := bytes;
        assert jsonByteFillZero == ZeroFill(bytes);
      }
      if iv.None? {
        return Failure(NullIv);
      }
      var ivBytes := iv.value;
      var doFinal := p.encrypt(generateKey, ivBytes, jsonByteFillZero);
      if |doFinal| + |ivBytes| > INT_MAX {
        return Failure(NegativeArraySize);
      }
      var content := new byte[|doFinal| + |ivBytes|](_ => 0);
      ArrayCopy(ivBytes, 0, content, 0, |ivBytes|);
      ArrayCopy(doFinal, 0, content, |ivBytes|, |doFinal|);
      assert content[..] == ivBytes + doFinal;
      var result := Substitute(p.toBase64(content[..]));
      assert zeroFlag == ZeroFlag(|bytes|) && PaddedLength(|bytes|) <= INT_MAX;
      if zeroFlag > 0 {
        result := "$" + TwoDigits(zeroFlag) + result;
      }
      assert result == ZeroFlagPrefix(ZeroFlag(|bytes|)) + Substitute(p.toBase64(ivBytes + doFinal));
      return Success(result);
    }

    /** encode(String source): encode of its UTF-8 bytes. */
    method EncodeString(source: string, p: Primitives) returns (r: Result<string, CryptoError>)
      requires |p.utf8Encode(source)| <= INT_MAX
      ensures r == EncodeToken(generateKey, iv, p.utf8Encode(source), p)
    {
      r := Encode(p.utf8Encode(source), p);
    }

    /** decode(String source): the plaintext, as a UTF-8 string. */
    method Decode(source: string, p: Primitives) returns (r: Result<string, CryptoError>)
      ensures var d := DecodeToken(generateKey, source, p);
        r == if d.Success? then Success(p.utf8Decode(d.value)) else Failure(d.error)
    {
      var tokenSource := source;
      var zeroFlag := 0;
      if |tokenSource| > 0 && tokenSource[0] == '$' {
        if |tokenSource| < 3 {
          return Failure(IndexOutOfBounds);
        }
        var parsed := ParseTwoChars(tokenSource[1..3]);
        if parsed.Failure? {
          return Failure(parsed.error);
        }
        zeroFlag := parsed.value;
        tokenSource := tokenSource[3..];
      }
      var token := Restore(tokenSource);
      var decoded := p.fromBase64(token);
      if decoded.None? {
        return Failure(BadBase64);
      }
      var base64Decode := decoded.value;
      if |base64Decode| < BLOCK {
        return Failure(NegativeArraySize);
      }
      var ivBlock := new byte[BLOCK](_ => 0);
      var content := new byte[|base64Decode| - BLOCK](_ => 0);
      ArrayCopy(base64Decode, 0, ivBlock, 0, BLOCK);
      ArrayCopy(base64Decode, BLOCK, content, 0, content.Length);
      assert ivBlock[..] == base64Decode[..BLOCK] && content[..] == base64Decode[BLOCK..];
      var plain := p.decrypt(generateKey, ivBlock[..], content[..]);
      if plain.None? {
        return Failure(BadCipherText);
      }
      var doFinal := plain.value;
      if zeroFlag > 0 {
        if |doFinal| < zeroFlag {
          return Failure(NegativeArraySize);
        }
        var afterZero := new byte[|doFinal| - zeroFlag](_ => 0);
        ArrayCopy(doFinal, 0, afterZero, 0, afterZero.Length);
        assert afterZero[..] == doFinal[..|doFinal| - zeroFlag];
        return Success(p.utf8Decode(afterZero[..]));
      }
      return Success(p.utf8Decode(doFinal));
    }
  }

  /**
   * An encode instance and a decode instance made with the same password
   * agree: decoding what the first encodes gives back the UTF-8 reading of
   * the plaintext.
   */
  method EncodeThenDecode(password: string, ivStr: string, bytes: seq<byte>, p: Primitives)
    returns (token: Result<string, CryptoError>, plain: Result<string, CryptoError>)
    requires Sound(p) && |bytes| <= MAX_PLAINTEXT
    ensures token.Success? && plain == Success(p.utf8Decode(bytes))
  {
    var encoder := new EncryptionUtil.EncodeInstance(password, Some(ivStr), p);
    var decoder := new EncryptionUtil.DecodeInstance(password, p);
    token := encoder.Encode(bytes, p);
    RoundTrip(encoder.generateKey, encoder.iv.value, bytes, p);
    plain := decoder.Decode(token.value, p);
  }
}
