/** The JavaScript string primitives the capture layer relies on, written out
    over Dafny strings (sequences of Unicode scalar values): UTF-8 byte length
    (`Buffer.byteLength`), UTF-16 code units (`charCodeAt`), ASCII case mapping,
    `trim`, `includes`, `startsWith`, `join`, and integer rendering in a radix
    (`Number.prototype.toString`). */
module Text {

  /** Number of bytes UTF-8 needs for one code point. */
  function Utf8Len(c: char): (n: nat)
    ensures 1 <= n <= 4
  {
    var v := c as int;
    if v < 0x80 then 1 else if v < 0x800 then 2 else if v < 0x1_0000 then 3 else 4
  }

  /** UTF-8 byte length of a string. */
  function ByteLength(s: string): nat {
    if |s| == 0 then 0 else ByteLength(s[..|s| - 1]) + Utf8Len(s[|s| - 1])
  }

  lemma {:induction false} ByteLengthAppend(a: string, b: string)
    ensures ByteLength(a + b) == ByteLength(a) + ByteLength(b)
    decreases |b|
  {
    if |b| == 0 {
      assert a + b == a;
    } else {
      assert (a + b)[..|a + b| - 1] == a + b[..|b| - 1];
      ByteLengthAppend(a, b[..|b| - 1]);
    }
  }

  /** Adding code points never shrinks the byte length, and each one costs at least a byte. */
  lemma {:induction false} ByteLengthMonotone(s: string, i: nat, j: nat)
    requires i <= j <= |s|
    ensures ByteLength(s[..i]) + (j - i) <= ByteLength(s[..j])
    decreases j - i
  {
    if i < j {
      ByteLengthMonotone(s, i, j - 1);
      assert s[..j][..j - 1] == s[..j - 1];
    }
  }

  /** UTF-16 code units of a string, as `charCodeAt` sees them: code points
      above U+FFFF become a surrogate pair. */
  function Utf16(s: string): (u: seq<nat>)
    ensures forall k :: 0 <= k < |u| ==> u[k] < 0x1_0000
  {
    if |s| == 0 then []
    else
      var v := s[|s| - 1] as int;
      Utf16(s[..|s| - 1]) +
        (if v < 0x1_0000 then [v]
         else [0xD800 + (v - 0x1_0000) / 0x400, 0xDC00 + (v - 0x1_0000) % 0x400])
  }

  // ---- ASCII case mapping -------------------------------------------------

  function LowerChar(c: char): char {
    if 'A' <= c <= 'Z' then (c as int + 32) as char else c
  }

  function UpperChar(c: char): char {
    if 'a' <= c <= 'z' then (c as int - 32) as char else c
  }

  function ToLower(s: string): (r: string)
    ensures |r| == |s|
    ensures forall i :: 0 <= i < |s| ==> r[i] == LowerChar(s[i])
  {
    seq(|s|, i requires 0 <= i < |s| => LowerChar(s[i]))
  }

  function ToUpper(s: string): (r: string)
    ensures |r| == |s|
    ensures forall i :: 0 <= i < |s| ==> r[i] == UpperChar(s[i])
  {
    seq(|s|, i requires 0 <= i < |s| => UpperChar(s[i]))
  }

  lemma LowerIdempotent(s: string)
    ensures ToLower(ToLower(s)) == ToLower(s)
  {
  }

  /** Lower-casing forgets the case of the input. */
  lemma LowerOfUpper(s: string)
    ensures ToLower(ToUpper(s)) == ToLower(s)
  {
  }

  /** Upper-casing forgets the case of the input. */
  lemma UpperOfLower(s: string)
    ensures ToUpper(ToLower(s)) == ToUpper(s)
  {
  }

  // ---- trim -----------------------------------------------------------------

  /** ECMAScript WhiteSpace and LineTerminator code points, which `trim` removes. */
  predicate IsSpace(c: char) {
    || c == '\t' || c == '\n' || c == '\U{000B}' || c == '\U{000C}' || c == '\r' || c == ' '
    || c == '\U{00A0}' || c == '\U{1680}' || ('\U{2000}' <= c <= '\U{200A}')
    || c == '\U{2028}' || c == '\U{2029}' || c == '\U{202F}' || c == '\U{205F}'
    || c == '\U{3000}' || c == '\U{FEFF}'
  }

  /** No leading or trailing white space. */
  predicate Trimmed(s: string) {
    |s| == 0 || (!IsSpace(s[0]) && !IsSpace(s[|s| - 1]))
  }

  function TrimStart(s: string): (r: string)
    ensures |r| <= |s| && r == s[|s| - |r|..]
    ensures |r| == 0 || !IsSpace(r[0])
  {
    if |s| > 0 && IsSpace(s[0]) then TrimStart(s[1..]) else s
  }

  function TrimEnd(s: string): (r: string)
    ensures r <= s
    ensures |r| == 0 || !IsSpace(r[|r| - 1])
  {
    if |s| > 0 && IsSpace(s[|s| - 1]) then TrimEnd(s[..|s| - 1]) else s
  }

  /** `String.prototype.trim`: the longest infix without white space at either end. */
  function Trim(s: string): (r: string)
    ensures Trimmed(r)
    ensures exists i :: 0 <= i <= |s| && r <= s[i..]
    ensures Trimmed(s) ==> r == s
  {
    var t := TrimStart(s);
    var r := TrimEnd(t);
    assert r <= s[|s| - |t|..];
    r
  }

  /** ASCII lower-casing maps white space to white space and nothing else to it. */
  lemma LowerKeepsTrimmed(s: string)
    requires Trimmed(s)
    ensures Trimmed(ToLower(s))
  {
  }

  // ---- searching ------------------------------------------------------------

  /** `s.includes(q)`. */
  predicate Contains(s: string, q: string) {
    exists i :: 0 <= i <= |s| && q <= s[i..]
  }

  lemma ContainsEmpty(s: string)
    ensures Contains(s, "")
  {
    assert "" <= s[0..];
  }

  // ---- joining ----------------------------------------------------------------

  /** `xs.join(sep)`. */
  function Join(xs: seq<string>, sep: string): (r: string)
    ensures |xs| == 1 ==> r == xs[0]
    ensures |xs| == 0 ==> r == ""
  {
    if |xs| == 0 then ""
    else if |xs| == 1 then xs[0]
    else xs[0] + sep + Join(xs[1..], sep)
  }

  /** Joining one more piece appends the separator and the piece. */
  lemma {:induction false} JoinSnoc(xs: seq<string>, x: string, sep: string)
    requires |xs| > 0
    ensures Join(xs + [x], sep) == Join(xs, sep) + sep + x
    decreases |xs|
  {
    if |xs| > 1 {
      assert (xs + [x])[1..] == xs[1..] + [x];
      JoinSnoc(xs[1..], x, sep);
    } else {
      assert (xs + [x])[1..] == [x];
    }
  }

  // ---- integer rendering ------------------------------------------------------

  /** The digit characters of `Number.prototype.toString(radix)`: 0-9 then a-z. */
  function DigitChar(d: nat): char
    requires d < 36
  {
    if d < 10 then ('0' as int + d) as char else ('a' as int + d - 10) as char
  }

  /** Inverse of `DigitChar`; 36 for a character that is no digit. */
  function DigitValue(c: char): (d: nat)
    ensures d <= 36
  {
    if '0' <= c <= '9' then c as int - '0' as int
    else if 'a' <= c <= 'z' then c as int - 'a' as int + 10
    else 36
  }

  predicate IsDecimalDigit(c: char) { '0' <= c <= '9' }

  lemma DigitCharValue(d: nat)
    requires d < 36
    ensures DigitValue(DigitChar(d)) == d
    ensures d < 10 ==> IsDecimalDigit(DigitChar(d))
    ensures d > 0 ==> DigitChar(d) != '0'
  {
  }

  lemma DivFacts(n: nat, radix: nat)
    requires 2 <= radix <= n
    ensures 1 <= n / radix < n
    ensures n % radix < radix
    ensures n == (n / radix) * radix + n % radix
  {
  }

  /** Rendering of a non-negative integer in base `radix`, most significant digit first. */
  function ToDigits(n: nat, radix: nat): (r: string)
    requires 2 <= radix <= 36
    ensures |r| >= 1
    ensures forall k :: 0 <= k < |r| ==> DigitValue(r[k]) < radix
    ensures radix == 10 ==> forall k :: 0 <= k < |r| ==> IsDecimalDigit(r[k])
    ensures n > 0 ==> r[0] != '0'
    ensures |r| > 1 ==> r[0] != '0'
    decreases n
  {
    if n < radix then
      DigitCharValue(n);
      [DigitChar(n)]
    else
      DivFacts(n, radix);
      DigitCharValue(n % radix);
      ToDigits(n / radix, radix) + [DigitChar(n % radix)]
  }

  /** Value of a digit string in base `radix` (the reading `parseInt` performs). */
  function FromDigits(s: string, radix: nat): nat {
    if |s| == 0 then 0 else FromDigits(s[..|s| - 1], radix) * radix + DigitValue(s[|s| - 1])
  }

  /** Reading back a rendered integer gives the integer. */
  lemma {:induction false} DigitsRoundTrip(n: nat, radix: nat)
    requires 2 <= radix <= 36
    ensures FromDigits(ToDigits(n, radix), radix) == n
    decreases n
  {
    var r := ToDigits(n, radix);
    if n < radix {
      DigitCharValue(n);
    } else {
      DivFacts(n, radix);
      DigitCharValue(n % radix);
      DigitsRoundTrip(n / radix, radix);
      assert r[..|r| - 1] == ToDigits(n / radix, radix);
      assert r[|r| - 1] == DigitChar(n % radix);
    }
  }

  /** Distinct integers render differently. */
  lemma DigitsInjective(m: nat, n: nat, radix: nat)
    requires 2 <= radix <= 36
    requires ToDigits(m, radix) == ToDigits(n, radix)
    ensures m == n
  {
    DigitsRoundTrip(m, radix);
    DigitsRoundTrip(n, radix);
  }

  /** `` `${n}` `` for a non-negative integer. */
  function Decimal(n: nat): string { ToDigits(n, 10) }
}
