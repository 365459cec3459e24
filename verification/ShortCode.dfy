/** Base62 short codes: encoding a 64-bit hash and truncating it to the configured length. */
module ShortCode {
  import opened Options
  import opened Arithmetic

  /** The digits: "0123456789", then "A" to "Z", then "a" to "z". */
  const BASE62 := Range('0', 10) + Range('A', 26) + Range('a', 26)

  lemma {:induction false} Alphabet()
    ensures BASE62 == "0123456789" + "ABCDEFGHIJKLMNOPQRSTUVWXYZ" + "abcdefghijklmnopqrstuvwxyz"
  {
    assert Range('0', 10) == "0123456789";
    assert Range('A', 26) == "ABCDEFGHIJKLMNOPQRSTUVWXYZ";
    assert Range('a', 26) == "abcdefghijklmnopqrstuvwxyz";
  }

  function Range(first: char, n: nat): (s: string)
    requires first as nat + n <= 128
    ensures |s| == n
  {
    seq(n, i requires 0 <= i < n => (first as nat + i) as char)
  }

  const UINT64: nat := 0x1_0000_0000_0000_0000

  type Uint64 = n: nat | n < UINT64

  /** The value of a digit, read off the character ranges rather than the table. */
  function Value(c: char): (v: Option<nat>)
    ensures v.Some? ==> v.value < 62
  {
    if '0' <= c <= '9' then Some(c as nat - '0' as nat)
    else if 'A' <= c <= 'Z' then Some(c as nat - 'A' as nat + 10)
    else if 'a' <= c <= 'z' then Some(c as nat - 'a' as nat + 36)
    else None
  }

  function Digit(d: nat): (c: char)
    requires d < 62
    ensures Value(c) == Some(d)
  {
    BASE62[d]
  }

  predicate IsBase62(s: string) {
    forall i :: 0 <= i < |s| ==> Value(s[i]).Some?
  }

  /** Reading a code back, most significant digit first. */
  function Decode(s: string): nat
    requires IsBase62(s)
  {
    if s == [] then 0 else Decode(s[..|s| - 1]) * 62 + Value(s[|s| - 1]).value
  }

  function Pow62(k: nat): (p: nat)
    ensures p >= 1
  {
    if k == 0 then 1 else 62 * Pow62(k - 1)
  }

  /** The digits of a number, with none for zero. */
  function Digits(num: nat): (s: string)
    ensures IsBase62(s)
  {
    if num == 0 then [] else Digits(num / 62) + [Digit(num % 62)]
  }

  function Encode(num: nat): (s: string)
    ensures IsBase62(s)
  {
    if num == 0 then [Digit(0)] else Digits(num)
  }

  /** The encoding loop, which prepends digits to `encoded` while it divides `num`. */
  method EncodeBase62(num: Uint64) returns (encoded: string)
    ensures encoded == Encode(num)
    ensures IsBase62(encoded) && Decode(encoded) == num
    ensures encoded != [] && (encoded[0] == '0' ==> encoded == "0")
  {
    Readable(num);
    if num == 0 {
      return [BASE62[0]];
    }
    var left: nat := num;
    encoded := "";
    while left > 0
      invariant Digits(num) == Digits(left) + encoded
    {
      var remainder := left % 62;
      DigitsStep(left, encoded);
      encoded := [BASE62[remainder]] + encoded;
      left := left / 62;
    }
  }

  lemma {:induction false} DigitsStep(left: nat, encoded: string)
    requires left > 0
    ensures Digits(left) + encoded == Digits(left / 62) + ([BASE62[left % 62]] + encoded)
  {
  }

  // ---------------------------------------------------------------- the encoding is a bijection

  lemma {:induction false} DecodeDigits(num: nat)
    ensures Decode(Digits(num)) == num
  {
    if num != 0 {
      DecodeDigits(num / 62);
      var s := Digits(num);
      assert s[..|s| - 1] == Digits(num / 62);
    }
  }

  /** A code is canonical when it has no leading zero, except for "0" itself. */
  predicate Canonical(s: string) {
    s != [] && IsBase62(s) && (Value(s[0]) == Some(0) ==> |s| == 1)
  }

  lemma {:induction false} DigitsCanonical(num: nat)
    requires num > 0
    ensures Digits(num) != [] && Value(Digits(num)[0]) != Some(0)
  {
    if num >= 62 {
      DigitsCanonical(num / 62);
    }
  }

  /** Decoding undoes encoding, and every encoding is canonical. */
  lemma DecodeEncode(num: nat)
    ensures Decode(Encode(num)) == num && Canonical(Encode(num))
  {
    if num == 0 {
      assert Encode(0)[..0] == [];
      assert Decode(Encode(0)) == Decode([]) * 62 + 0;
    } else {
      DecodeDigits(num);
      DigitsCanonical(num);
    }
  }

  /** What the encoded string says, and that it says it without a superfluous zero. */
  lemma Readable(num: nat)
    ensures var s := Encode(num); IsBase62(s) && Decode(s) == num && s != [] && (s[0] == '0' ==> s == "0")
  {
    DecodeEncode(num);
  }

  lemma {:induction false} DigitsOfDecode(s: string)
    requires s != [] && IsBase62(s) && Value(s[0]) != Some(0)
    ensures Decode(s) > 0 && Digits(Decode(s)) == s
  {
    var init, last := s[..|s| - 1], s[|s| - 1];
    SameValue(last, Value(last).value);
    if init != [] {
      DigitsOfDecode(init);
      assert Decode(s) / 62 == Decode(init) && Decode(s) % 62 == Value(last).value;
    } else {
      assert Decode(s) == Value(last).value;
      assert Digits(Decode(s) / 62) == [];
    }
    assert s == init + [last];
  }

  lemma SameValue(c: char, d: nat)
    requires d < 62 && Value(c) == Some(d)
    ensures Digit(d) == c
  {
  }

  /** Encoding undoes decoding on canonical codes: the two are inverse bijections. */
  lemma EncodeDecode(s: string)
    requires Canonical(s)
    ensures Encode(Decode(s)) == s
  {
    if Value(s[0]) == Some(0) {
      SameValue(s[0], 0);
      assert s[..0] == [];
      assert Decode(s) == Decode([]) * 62 + 0;
    } else {
      DigitsOfDecode(s);
    }
  }

  // ---------------------------------------------------------------- lengths and order

  lemma {:induction false} DecodeBound(s: string)
    requires IsBase62(s)
    ensures Decode(s) < Pow62(|s|)
  {
    if s != [] {
      DecodeBound(s[..|s| - 1]);
    }
  }

  lemma {:induction false} DigitsLength(num: nat)
    requires num > 0
    ensures Digits(num) != [] && Pow62(|Digits(num)| - 1) <= num < Pow62(|Digits(num)|)
  {
    if num >= 62 {
      DigitsLength(num / 62);
      assert |Digits(num)| == |Digits(num / 62)| + 1;
    } else {
      assert Digits(num / 62) == [];
      assert Pow62(1) == 62 * Pow62(0);
    }
  }

  lemma {:induction false} PowMonotone(a: nat, b: nat)
    requires a <= b
    ensures Pow62(a) <= Pow62(b)
  {
    if a < b {
      PowMonotone(a, b - 1);
    }
  }

  lemma Pow62Eleven()
    ensures Pow62(11) > UINT64
  {
    assert Pow62(2) == 62 * 62;
    assert Pow62(4) == 62 * 62 * Pow62(2);
    assert Pow62(6) == 62 * 62 * Pow62(4);
    assert Pow62(8) == 62 * 62 * Pow62(6);
    assert Pow62(10) == 62 * 62 * Pow62(8);
  }

  /** A code reaches length `n` exactly when its number reaches 62^(n-1). */
  lemma LengthIff(num: nat, n: nat)
    requires n >= 2
    ensures |Encode(num)| >= n <==> num >= Pow62(n - 1)
  {
    if num > 0 {
      DigitsLength(num);
      var len := |Digits(num)|;
      if len >= n {
        PowMonotone(n - 1, len - 1);
      } else {
        PowMonotone(len, n - 1);
      }
    } else {
      PowMonotone(0, n - 1);
    }
  }

  lemma LengthAtMostEleven(num: Uint64)
    ensures 1 <= |Encode(num)| <= 11
  {
    Pow62Eleven();
    LengthIff(num, 12);
    DecodeEncode(num);
  }

  /** Character order, the order in which codes of one length sort. */
  predicate Before(s: string, t: string)
    requires |s| == |t|
  {
    exists k :: 0 <= k < |s| && s[..k] == t[..k] && s[k] < t[k]
  }

  /** The last character decides only between equal prefixes. */
  lemma BeforeLast(s: string, t: string, n: nat)
    requires |s| == |t| == n + 1
    ensures Before(s, t) <==> Before(s[..n], t[..n]) || (s[..n] == t[..n] && s[n] < t[n])
  {
    forall k | 0 <= k < n
      ensures s[..n][..k] == s[..k] && t[..n][..k] == t[..k]
    {
    }
    if Before(s[..n], t[..n]) {
      var k :| 0 <= k < n && s[..n][..k] == t[..n][..k] && s[..n][k] < t[..n][k];
      assert s[..k] == t[..k] && s[k] < t[k];
    }
    if Before(s, t) && !(s[..n] == t[..n] && s[n] < t[n]) {
      var k :| 0 <= k <= n && s[..k] == t[..k] && s[k] < t[k];
      assert s[..n][..k] == t[..n][..k] && s[..n][k] < t[..n][k];
    }
  }

  lemma {:induction false} BeforeIffLess(s: string, t: string)
    requires |s| == |t| && IsBase62(s) && IsBase62(t)
    ensures Before(s, t) <==> Decode(s) < Decode(t)
    decreases |s|
  {
    if s != [] {
      var n := |s| - 1;
      BeforeLast(s, t, n);
      BeforeIffLess(s[..n], t[..n]);
      if Decode(s[..n]) == Decode(t[..n]) {
        DecodeInjective(s[..n], t[..n]);
      }
    }
  }

  lemma {:induction false} DecodeInjective(s: string, t: string)
    requires |s| == |t| && IsBase62(s) && IsBase62(t) && Decode(s) == Decode(t)
    ensures s == t
    decreases |s|
  {
    if s != [] {
      var n := |s| - 1;
      DecodeInjective(s[..n], t[..n]);
      SameValue(s[n], Value(s[n]).value);
      SameValue(t[n], Value(t[n]).value);
      assert s == s[..n] + [s[n]] && t == t[..n] + [t[n]];
    }
  }

  /** Codes of one length sort as their numbers do. */
  lemma EncodeKeepsOrder(a: nat, b: nat)
    requires |Encode(a)| == |Encode(b)|
    ensures Before(Encode(a), Encode(b)) <==> a < b
  {
    DecodeEncode(a);
    DecodeEncode(b);
    BeforeIffLess(Encode(a), Encode(b));
  }

  // ---------------------------------------------------------------- generating a code

  datatype GenerateError = InvalidURL | CodeTooShort
  datatype Generated = Code(code: string) | Failed(error: GenerateError)

  /** `canonicalize` and `hash` stand for net/url and SHA-256; None is a URL that does not parse. */
  datatype Generator = Generator(canonicalize: string -> Option<string>, hash: string -> Uint64, codeLength: nat) {
    function Generate(longURL: string): Generated {
      match canonicalize(longURL)
      case None => Failed(InvalidURL)
      case Some(c) =>
        var s := Encode(hash(c));
        if |s| < codeLength then Failed(CodeTooShort) else Code(s[..codeLength])
    }
  }

  lemma {:induction false} PrefixDivides(s: string, n: nat)
    requires n <= |s| && IsBase62(s)
    ensures Decode(s[..n]) == Decode(s) / Pow62(|s| - n)
    decreases |s|
  {
    if n < |s| {
      var init := s[..|s| - 1];
      PrefixDivides(init, n);
      assert init[..n] == s[..n];
      var k := |init| - n;
      assert Decode(s) / 62 == Decode(init);
      DivideTwice(Decode(s), 62, Pow62(k));
    } else {
      assert s[..n] == s;
    }
  }

  /** Generation refuses exactly the URLs that do not parse. For every other it fails exactly when the hash is
      below 62^(n-1), and otherwise yields n digits that decode to the leading part of the hash. */
  lemma GenerateIff(g: Generator, longURL: string)
    ensures g.Generate(longURL) == Failed(InvalidURL) <==> g.canonicalize(longURL).None?
    ensures g.canonicalize(longURL).Some? ==>
              var h := g.hash(g.canonicalize(longURL).value);
              g.Generate(longURL) == Failed(CodeTooShort) <==> g.codeLength >= 2 && h < Pow62(g.codeLength - 1)
    ensures g.Generate(longURL).Code? ==>
              var h := g.hash(g.canonicalize(longURL).value);
              var code := g.Generate(longURL).code;
              && |code| == g.codeLength <= |Encode(h)| && IsBase62(code)
              && Decode(code) == h / Pow62(|Encode(h)| - g.codeLength)
  {
    if g.canonicalize(longURL).Some? {
      var h := g.hash(g.canonicalize(longURL).value);
      DecodeEncode(h);
      if g.codeLength >= 2 {
        LengthIff(h, g.codeLength);
      }
      if g.codeLength <= |Encode(h)| {
        PrefixDivides(Encode(h), g.codeLength);
      }
    }
  }

  /** Two URLs get the same code exactly when the leading parts of their hashes agree. */
  lemma SameCodeIff(g: Generator, a: string, b: string)
    requires g.Generate(a).Code? && g.Generate(b).Code?
    ensures var ha, hb := g.hash(g.canonicalize(a).value), g.hash(g.canonicalize(b).value);
            && |Encode(ha)| >= g.codeLength && |Encode(hb)| >= g.codeLength
            && (g.Generate(a) == g.Generate(b) <==>
                ha / Pow62(|Encode(ha)| - g.codeLength) == hb / Pow62(|Encode(hb)| - g.codeLength))
  {
    GenerateIff(g, a);
    GenerateIff(g, b);
    if Decode(g.Generate(a).code) == Decode(g.Generate(b).code) {
      DecodeInjective(g.Generate(a).code, g.Generate(b).code);
    }
  }
}
