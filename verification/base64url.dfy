/**
 * The base64url step of `generateCodeVerifier` and `generateCodeChallenge`: the bytes are
 * encoded with `btoa` (base64 with `=` padding, section 4 of RFC 4648), then `+` becomes `-`,
 * `/` becomes `_` and every `=` is dropped. The result is the unpadded encoding with the URL-safe
 * alphabet of section 5 of RFC 4648, which is what sections 4.1 and 4.2 of RFC 7636 ask of a
 * code verifier and a code challenge.
 *
 * The random bytes and the SHA-256 digest are inputs here: the model starts from 32 bytes.
 */
module Base64Url {
  import opened Options

  newtype Byte = b: int | 0 <= b < 256

  /** The character of a 6-bit value in the alphabet of section 4 of RFC 4648. */
  function StdChar(v: int): char
    requires 0 <= v < 64
  {
    if v < 26 then ('A' as int + v) as char
    else if v < 52 then ('a' as int + (v - 26)) as char
    else if v < 62 then ('0' as int + (v - 52)) as char
    else if v == 62 then '+'
    else '/'
  }

  /** The character of a 6-bit value in the URL-safe alphabet of section 5 of RFC 4648. */
  function UrlChar(v: int): char
    requires 0 <= v < 64
  {
    if v < 62 then StdChar(v) else if v == 62 then '-' else '_'
  }

  /** `[A-Za-z0-9_-]`: the URL-safe alphabet, a subset of the unreserved characters of RFC 7636. */
  predicate IsUrlChar(c: char) {
    ('A' <= c <= 'Z') || ('a' <= c <= 'z') || ('0' <= c <= '9') || c == '-' || c == '_'
  }

  /** The 6-bit value of a URL-safe character; `None` for any other character. */
  function UrlValue(c: char): (v: Option<int>)
    ensures v.Some? <==> IsUrlChar(c)
    ensures v.Some? ==> 0 <= v.value < 64 && UrlChar(v.value) == c
  {
    if 'A' <= c <= 'Z' then Some(c as int - 'A' as int)
    else if 'a' <= c <= 'z' then Some(c as int - 'a' as int + 26)
    else if '0' <= c <= '9' then Some(c as int - '0' as int + 52)
    else if c == '-' then Some(62)
    else if c == '_' then Some(63)
    else None
  }

  lemma UrlCharValue(v: int)
    requires 0 <= v < 64
    ensures IsUrlChar(UrlChar(v)) && UrlValue(UrlChar(v)) == Some(v)
  {
  }

  /** The four 6-bit values of three bytes, most significant bits first. A missing second or
      third byte is read as 0, which is what the padded and unpadded encodings do with the bits
      of a short last group. */
  function Sextets(b0: int, b1: int, b2: int): (v: seq<int>)
    requires 0 <= b0 < 256 && 0 <= b1 < 256 && 0 <= b2 < 256
    ensures |v| == 4 && forall k :: 0 <= k < 4 ==> 0 <= v[k] < 64
  {
    [b0 / 4, b0 % 4 * 16 + b1 / 16, b1 % 16 * 4 + b2 / 64, b2 % 64]
  }

  /** The three bytes four 6-bit values stand for; the inverse of `Sextets`. */
  function Octets(v0: int, v1: int, v2: int, v3: int): seq<int> {
    [v0 * 4 + v1 / 16, v1 % 16 * 16 + v2 / 4, v2 % 4 * 64 + v3]
  }

  predicate IsSextets(v: seq<int>) {
    forall k :: 0 <= k < |v| ==> 0 <= v[k] < 64
  }

  function StdChars(v: seq<int>): (r: string)
    requires IsSextets(v)
    ensures |r| == |v|
  {
    seq(|v|, k requires 0 <= k < |v| => StdChar(v[k]))
  }

  function UrlChars(v: seq<int>): (r: string)
    requires IsSextets(v)
    ensures |r| == |v|
  {
    seq(|v|, k requires 0 <= k < |v| => UrlChar(v[k]))
  }

  /** The first `n` values of the sextets of a short last group. */
  function Head(v: seq<int>, n: nat): (h: seq<int>)
    requires IsSextets(v) && n <= |v|
    ensures IsSextets(h) && |h| == n
  {
    v[..n]
  }

  // ---------------------------------------------------------------------------
  // btoa and the replacements

  /** `btoa` of the bytes: four characters for every three bytes, the last group padded with
      `=` to four characters. */
  function Encode(bytes: seq<Byte>): (r: string)
    ensures |r| == 4 * ((|bytes| + 2) / 3)
    decreases |bytes|
  {
    if |bytes| == 0 then ""
    else if |bytes| == 1 then
      StdChars(Head(Sextets(bytes[0] as int, 0, 0), 2)) + "=="
    else if |bytes| == 2 then
      StdChars(Head(Sextets(bytes[0] as int, bytes[1] as int, 0), 3)) + "="
    else
      StdChars(Sextets(bytes[0] as int, bytes[1] as int, bytes[2] as int)) + Encode(bytes[3..])
  }

  /** `s.replace(/x/g, y)` for one character `x` and one character `y`. */
  function Replace(s: string, x: char, y: char): (r: string)
    ensures |r| == |s|
    ensures forall k :: 0 <= k < |s| ==> r[k] == (if s[k] == x then y else s[k])
  {
    seq(|s|, k requires 0 <= k < |s| => if s[k] == x then y else s[k])
  }

  /** `s.replace(/x/g, '')`: every `x` is dropped, the other characters keep their order. */
  function Remove(s: string, x: char): (r: string)
    ensures x !in r
    ensures forall c :: c in r ==> c in s
    ensures forall c :: c != x ==> multiset(r)[c] == multiset(s)[c]
    decreases |s|
  {
    if s == [] then []
    else
      assert s == [s[0]] + s[1..];
      if s[0] == x then Remove(s[1..], x)
      else [s[0]] + Remove(s[1..], x)
  }

  /** The three replacements, in the order the source applies them. */
  function UrlSafe(s: string): (r: string)
    ensures '+' !in r && '/' !in r && '=' !in r
  {
    var t := Replace(Replace(s, '+', '-'), '/', '_');
    var r := Remove(t, '=');
    assert forall c :: c in r ==> c != '+' && c != '/' by {
      forall c | c in r ensures c != '+' && c != '/' {
        var k :| 0 <= k < |t| && t[k] == c;
      }
    }
    r
  }

  /** The expression shared by `generateCodeVerifier` and `generateCodeChallenge`. */
  function Base64UrlOf(bytes: seq<Byte>): string {
    UrlSafe(Encode(bytes))
  }

  // ---------------------------------------------------------------------------
  // the unpadded URL-safe encoding, written directly

  /** Base64url without padding, as section 5 of RFC 4648 and appendix A of RFC 7636 define
      it: two characters for a last single byte, three for a last pair. */
  function EncodeUrl(bytes: seq<Byte>): (r: string)
    ensures |r| == (4 * |bytes| + 2) / 3
    decreases |bytes|
  {
    if |bytes| == 0 then ""
    else if |bytes| == 1 then
      UrlChars(Head(Sextets(bytes[0] as int, 0, 0), 2))
    else if |bytes| == 2 then
      UrlChars(Head(Sextets(bytes[0] as int, bytes[1] as int, 0), 3))
    else
      UrlChars(Sextets(bytes[0] as int, bytes[1] as int, bytes[2] as int)) + EncodeUrl(bytes[3..])
  }

  /** The 6-bit values of a run of URL-safe characters. */
  function ValuesOf(s: string): (v: seq<int>)
    requires forall k :: 0 <= k < |s| ==> IsUrlChar(s[k])
    ensures |v| == |s| && IsSextets(v)
  {
    seq(|s|, k requires 0 <= k < |s| => UrlValue(s[k]).value)
  }

  /** The whole bytes that two to four 6-bit values carry: one, two or three. */
  function BytesOf(v: seq<int>): (b: seq<Byte>)
    requires IsSextets(v) && 2 <= |v| <= 4
    ensures |b| == |v| - 1
  {
    var w := v + [0, 0];
    var o := Octets(w[0], w[1], w[2], w[3]);
    OctetsAreBytes(w[0], w[1], w[2], w[3]);
    seq(|v| - 1, k requires 0 <= k < |v| - 1 => o[k] as Byte)
  }

  /** One group of two to four characters; `None` when one of them is outside the alphabet. */
  function DecodeGroup(s: string): Option<seq<Byte>>
    requires 2 <= |s| <= 4
  {
    if forall k :: 0 <= k < |s| ==> IsUrlChar(s[k]) then Some(BytesOf(ValuesOf(s))) else None
  }

  /** Decoding the unpadded URL-safe encoding; `None` for a length that leaves one character
      over, or a character outside the alphabet. The bits that do not fill a byte are dropped. */
  function DecodeUrl(s: string): Option<seq<Byte>>
    decreases |s|
  {
    if |s| == 0 then Some([])
    else if |s| == 1 then None
    else if |s| <= 4 then DecodeGroup(s)
    else
      match DecodeGroup(s[..4])
      case None => None
      case Some(group) =>
        match DecodeUrl(s[4..])
        case None => None
        case Some(rest) => Some(group + rest)
  }

  // ---------------------------------------------------------------------------
  // the code verifier and the code challenge

  /** `generateCodeVerifier` over the 32 random bytes it draws. */
  function CodeVerifier(random: seq<Byte>): (r: string)
    requires |random| == 32
    ensures |r| == 43
    ensures forall k :: 0 <= k < |r| ==> IsUrlChar(r[k])
  {
    Base64UrlIsUnpaddedUrlEncoding(random);
    EncodeUrlAlphabet(random);
    Base64UrlOf(random)
  }

  /** `generateCodeChallenge` over the 32-byte SHA-256 digest of the verifier. */
  function CodeChallenge(digest: seq<Byte>): (r: string)
    requires |digest| == 32
    ensures |r| == 43
    ensures DecodeUrl(r) == Some(digest)
  {
    Base64UrlIsUnpaddedUrlEncoding(digest);
    DecodeEncodeUrl(digest);
    Base64UrlOf(digest)
  }

  // ---------------------------------------------------------------------------
  // proofs

  lemma OctetsAreBytes(v0: int, v1: int, v2: int, v3: int)
    requires 0 <= v0 < 64 && 0 <= v1 < 64 && 0 <= v2 < 64 && 0 <= v3 < 64
    ensures forall k :: 0 <= k < 3 ==> 0 <= Octets(v0, v1, v2, v3)[k] < 256
  {
  }

  /** Three bytes survive the split into four 6-bit values and the join back. */
  lemma SextetsRoundTrip(b0: int, b1: int, b2: int)
    requires 0 <= b0 < 256 && 0 <= b1 < 256 && 0 <= b2 < 256
    ensures var v := Sextets(b0, b1, b2); Octets(v[0], v[1], v[2], v[3]) == [b0, b1, b2]
  {
    assert (b0 % 4 * 16 + b1 / 16) / 16 == b0 % 4;
    assert (b0 % 4 * 16 + b1 / 16) % 16 == b1 / 16;
    assert (b1 % 16 * 4 + b2 / 64) / 4 == b1 % 16;
    assert (b1 % 16 * 4 + b2 / 64) % 4 == b2 / 64;
  }

  lemma {:induction false} RemoveAppend(a: string, b: string, x: char)
    ensures Remove(a + b, x) == Remove(a, x) + Remove(b, x)
    decreases |a|
  {
    if a == [] {
      assert a + b == b;
    } else {
      assert (a + b)[1..] == a[1..] + b;
      RemoveAppend(a[1..], b, x);
    }
  }

  lemma UrlSafeAppend(a: string, b: string)
    ensures UrlSafe(a + b) == UrlSafe(a) + UrlSafe(b)
  {
    var ra := Replace(Replace(a, '+', '-'), '/', '_');
    var rb := Replace(Replace(b, '+', '-'), '/', '_');
    assert Replace(Replace(a + b, '+', '-'), '/', '_') == ra + rb;
    RemoveAppend(ra, rb, '=');
  }

  /** The replacements turn a standard character into the URL-safe character of the same value. */
  lemma UrlSafeChar(v: int)
    requires 0 <= v < 64
    ensures UrlSafe([StdChar(v)]) == [UrlChar(v)]
  {
    var t := Replace(Replace([StdChar(v)], '+', '-'), '/', '_');
    assert t == [UrlChar(v)];
    assert Remove(t, '=') == [UrlChar(v)] + Remove([], '=');
  }

  lemma UrlSafePadding()
    ensures UrlSafe("=") == [] && UrlSafe("==") == []
  {
    var t := Replace(Replace("=", '+', '-'), '/', '_');
    assert t == "=";
    assert Remove(t, '=') == Remove([], '=');
    assert "==" == "=" + "=";
    UrlSafeAppend("=", "=");
  }

  lemma {:induction false} UrlSafeStdChars(v: seq<int>)
    requires IsSextets(v)
    ensures UrlSafe(StdChars(v)) == UrlChars(v)
    decreases |v|
  {
    if v == [] {
      assert StdChars(v) == [];
      assert Replace(Replace([], '+', '-'), '/', '_') == [];
    } else {
      assert StdChars(v) == [StdChar(v[0])] + StdChars(v[1..]);
      assert UrlChars(v) == [UrlChar(v[0])] + UrlChars(v[1..]);
      UrlSafeAppend([StdChar(v[0])], StdChars(v[1..]));
      UrlSafeChar(v[0]);
      UrlSafeStdChars(v[1..]);
    }
  }

  /** The source's replace chain after `btoa` is the unpadded URL-safe encoding. */
  lemma {:induction false} Base64UrlIsUnpaddedUrlEncoding(bytes: seq<Byte>)
    ensures Base64UrlOf(bytes) == EncodeUrl(bytes)
    decreases |bytes|
  {
    UrlSafePadding();
    if |bytes| == 0 {
      assert Replace(Replace([], '+', '-'), '/', '_') == [];
    } else if |bytes| == 1 {
      var v := Head(Sextets(bytes[0] as int, 0, 0), 2);
      UrlSafeAppend(StdChars(v), "==");
      UrlSafeStdChars(v);
    } else if |bytes| == 2 {
      var v := Head(Sextets(bytes[0] as int, bytes[1] as int, 0), 3);
      UrlSafeAppend(StdChars(v), "=");
      UrlSafeStdChars(v);
    } else {
      var v := Sextets(bytes[0] as int, bytes[1] as int, bytes[2] as int);
      UrlSafeAppend(StdChars(v), Encode(bytes[3..]));
      UrlSafeStdChars(v);
      Base64UrlIsUnpaddedUrlEncoding(bytes[3..]);
    }
  }

  lemma {:induction false} EncodeUrlAlphabet(bytes: seq<Byte>)
    ensures forall k :: 0 <= k < |EncodeUrl(bytes)| ==> IsUrlChar(EncodeUrl(bytes)[k])
    decreases |bytes|
  {
    if |bytes| >= 3 {
      var v := Sextets(bytes[0] as int, bytes[1] as int, bytes[2] as int);
      var rest := EncodeUrl(bytes[3..]);
      EncodeUrlAlphabet(bytes[3..]);
      forall k | 0 <= k < 4 ensures IsUrlChar(UrlChars(v)[k]) {
        UrlCharValue(v[k]);
      }
      assert forall k :: 4 <= k < |UrlChars(v) + rest| ==> (UrlChars(v) + rest)[k] == rest[k - 4];
    } else if |bytes| > 0 {
      var v := Sextets(bytes[0] as int, if |bytes| > 1 then bytes[1] as int else 0, 0);
      forall k | 0 <= k < 4 ensures IsUrlChar(UrlChar(v[k])) {
        UrlCharValue(v[k]);
      }
    }
  }

  /** Reading back the characters of a group of sextets. */
  lemma ValuesOfUrlChars(v: seq<int>)
    requires IsSextets(v)
    ensures forall k :: 0 <= k < |v| ==> IsUrlChar(UrlChars(v)[k])
    ensures ValuesOf(UrlChars(v)) == v
  {
    forall k | 0 <= k < |v|
      ensures IsUrlChar(UrlChars(v)[k]) && UrlValue(UrlChars(v)[k]) == Some(v[k])
    {
      UrlCharValue(v[k]);
    }
  }

  /** The first `|x| + 1` sextets of one to three bytes carry those bytes. */
  lemma BytesOfSextets(x: seq<Byte>)
    requires 1 <= |x| <= 3
    ensures var p := x + [0, 0];
      BytesOf(Sextets(p[0] as int, p[1] as int, p[2] as int)[..|x| + 1]) == x
  {
    var p := x + [0, 0];
    var v := Sextets(p[0] as int, p[1] as int, p[2] as int);
    SextetsRoundTrip(p[0] as int, p[1] as int, p[2] as int);
    var w := v[..|x| + 1] + [0, 0];
    assert forall k :: 0 <= k <= |x| ==> w[k] == v[k];
  }

  /** The characters of one to three bytes decode back to them. */
  lemma DecodeGroupOfBytes(x: seq<Byte>)
    requires 1 <= |x| <= 3
    ensures var p := x + [0, 0];
      DecodeGroup(UrlChars(Sextets(p[0] as int, p[1] as int, p[2] as int))[..|x| + 1]) == Some(x)
  {
    var p := x + [0, 0];
    var v := Sextets(p[0] as int, p[1] as int, p[2] as int);
    var h := v[..|x| + 1];
    assert UrlChars(v)[..|x| + 1] == UrlChars(h);
    ValuesOfUrlChars(h);
    BytesOfSextets(x);
  }

  /** Decoding undoes the unpadded URL-safe encoding. */
  lemma {:induction false} DecodeEncodeUrl(bytes: seq<Byte>)
    ensures DecodeUrl(EncodeUrl(bytes)) == Some(bytes)
    decreases |bytes|
  {
    var s := EncodeUrl(bytes);
    if |bytes| > 0 {
      var x := if |bytes| <= 3 then bytes else bytes[..3];
      var p := x + [0, 0];
      var v := Sextets(p[0] as int, p[1] as int, p[2] as int);
      DecodeGroupOfBytes(x);
      if |bytes| <= 2 {
        assert s == UrlChars(v)[..|x| + 1];
      } else {
        assert s[..4] == UrlChars(v)[..4];
        if |bytes| > 3 {
          assert s[4..] == EncodeUrl(bytes[3..]);
          DecodeEncodeUrl(bytes[3..]);
          assert bytes == x + bytes[3..];
        } else {
          assert s == s[..4];
        }
      }
    }
  }
}
