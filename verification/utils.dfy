/** The capture-policy helpers every interceptor uses: argument rendering,
    the djb2-style message hash, byte-bounded truncation, HTTP method
    normalisation and header redaction. */
module Utils {
  import opened Common
  import opened Text
  import opened Types

  // ---- safeStringify (string branch) ------------------------------------------

  /** The value `safeStringify` returns: a string, JavaScript `undefined`, or a throw. */
  datatype Stringified = Str(s: string) | Undefined | Threw

  /** Strings pass through verbatim; other values render through the
      `JSON.stringify` / `String` fallback, whose outcome the argument carries. */
  function SafeStringify(a: Arg): (r: Stringified)
    ensures a.StrArg? ==> r == Str(a.s)
    ensures a.ValueArg? && a.rendering.Rendered? ==> r == Str(a.rendering.text)
    ensures r.Undefined? <==> a == ValueArg(RenderedUndefined)
    ensures r.Threw? <==> a == ValueArg(RenderThrows)
  {
    match a
    case StrArg(s) => Str(s)
    case ValueArg(Rendered(t, _)) => Str(t)
    case ValueArg(RenderedUndefined) => Undefined
    case ValueArg(RenderThrows) => Threw
  }

  /** What one argument contributes to the joined message: its rendering, and
      "" for `undefined`, which `join` prints as the empty string. */
  function ArgText(a: Arg): string {
    var x := SafeStringify(a);
    if x.Str? then x.s else ""
  }

  /** `args.map(safeStringify).join(" ")`, or `None` when rendering some argument throws. */
  function RenderMessage(args: seq<Arg>): (r: Option<string>)
    ensures r.None? <==> exists i :: 0 <= i < |args| && SafeStringify(args[i]).Threw?
    ensures r.Some? ==> r.value == Join(Map(args, ArgText), " ")
    ensures (forall i :: 0 <= i < |args| ==> args[i].StrArg?) ==>
      r == Some(Join(Map(args, (a: Arg) => if a.StrArg? then a.s else ""), " "))
  {
    if exists i :: 0 <= i < |args| && SafeStringify(args[i]).Threw? then None
    else
      var parts := Map(args, ArgText);
      assert (forall i :: 0 <= i < |args| ==> args[i].StrArg?) ==>
        parts == Map(args, (a: Arg) => if a.StrArg? then a.s else "");
      Some(Join(parts, " "))
  }

  /** One more argument appends a space and that argument's text; a first
      argument is the whole message. */
  lemma RenderMessageSnoc(args: seq<Arg>, a: Arg)
    requires RenderMessage(args).Some? && !SafeStringify(a).Threw?
    ensures RenderMessage(args + [a]).Some?
    ensures |args| == 0 ==> RenderMessage(args + [a]) == Some(ArgText(a))
    ensures |args| > 0 ==> RenderMessage(args + [a]) == Some(RenderMessage(args).value + " " + ArgText(a))
  {
    var all := args + [a];
    assert forall i :: 0 <= i < |all| ==> !SafeStringify(all[i]).Threw? by {
      forall i | 0 <= i < |all|
        ensures !SafeStringify(all[i]).Threw?
      {
        if i < |args| { assert all[i] == args[i]; }
      }
    }
    assert Map(all, ArgText) == Map(args, ArgText) + [ArgText(a)];
    if |args| > 0 {
      JoinSnoc(Map(args, ArgText), ArgText(a), " ");
    }
  }

  /** A message whose rendering throws is not rendered at all, however many
      good arguments surround it. */
  lemma RenderThrowsAnywhere(before: seq<Arg>, after: seq<Arg>)
    ensures RenderMessage(before + [ValueArg(RenderThrows)] + after).None?
  {
    var all := before + [ValueArg(RenderThrows)] + after;
    assert SafeStringify(all[|before|]).Threw?;
  }

  // ---- messageHash -------------------------------------------------------------

  const HashSeed: nat := 5381
  const Two32: nat := 0x1_0000_0000
  const Two31: nat := 0x8000_0000

  /** The xor of a 32-bit pattern with a 16-bit code unit. */
  function Xor32(a: nat, b: nat): (r: nat)
    requires a < Two32 && b < 0x1_0000
    ensures r < Two32
  {
    var x: bv32 := (a as bv32) ^ (b as bv32);
    assert x as int < 0x1_0000_0000;
    x as nat
  }

  /** One round: multiply by 33 modulo 2^32, then xor in the code unit. */
  function HashStep(h: nat, unit: nat): (r: nat)
    requires h < Two32 && unit < 0x1_0000
    ensures r < Two32
  {
    Xor32((h * 33) % Two32, unit)
  }

  /** The unsigned 32-bit hash of a sequence of UTF-16 code units. */
  function HashUnits(units: seq<nat>): (h: nat)
    requires forall k :: 0 <= k < |units| ==> units[k] < 0x1_0000
    ensures h < Two32
  {
    if |units| == 0 then HashSeed
    else HashStep(HashUnits(units[..|units| - 1]), units[|units| - 1])
  }

  /** `messageHash`: the hash of the string's UTF-16 code units, in base 36,
      without leading zeros. */
  function MessageHash(input: string): (r: string)
    ensures FromDigits(r, 36) == HashUnits(Utf16(input))
    ensures FromDigits(r, 36) < Two32
    ensures forall k :: 0 <= k < |r| ==> DigitValue(r[k]) < 36
    ensures |r| >= 1 && (|r| > 1 ==> r[0] != '0')
  {
    DigitsRoundTrip(HashUnits(Utf16(input)), 36);
    ToDigits(HashUnits(Utf16(input)), 36)
  }

  // ---- the hash in JavaScript's number arithmetic ---------------------------------

  /** ECMAScript `ToInt32`: the signed 32-bit integer congruent to `x` modulo 2^32. */
  function ToInt32(x: int): (r: int)
    ensures -(Two31 as int) <= r < Two31
    ensures 0 <= x < Two31 ==> r == x
  {
    var m := x % Two32;
    if m >= Two31 then m - Two32 else m
  }

  /** ECMAScript `ToUint32`, which `>>> 0` applies. */
  function ToUint32(x: int): (r: nat)
    ensures r < Two32
  {
    x % Two32
  }

  /** The source's round `hash = (hash * 33) ^ code` on a signed 32-bit `hash`.
      The product is exact in a double (its magnitude stays below 2^53); `^`
      applies `ToInt32` to both operands, xors their 32-bit patterns and reads
      the result back as a signed 32-bit integer. */
  function JsHashStep(hash: int, unit: nat): (r: int)
    requires -(Two31 as int) <= hash < Two31 && unit < 0x1_0000
    ensures -(Two31 as int) <= r < Two31
  {
    ToInt32(Xor32(ToUint32(ToInt32(hash * 33)), unit))
  }

  lemma ModOfMultiple(q: int, b: int)
    ensures (q * Two32 + b) % Two32 == b % Two32
  {
  }

  /** Reducing before multiplying by 33 gives the same residue. */
  lemma MulReduce(x: int)
    ensures (x * 33) % Two32 == ((x % Two32) * 33) % Two32
  {
    var q := x / Two32;
    var m := x % Two32;
    assert x * 33 == (q * 33) * Two32 + m * 33;
    ModOfMultiple(q * 33, m * 33);
  }

  lemma Uint32OfInt32(x: int)
    ensures ToUint32(ToInt32(x)) == ToUint32(x)
  {
    var m := x % Two32;
    if m >= Two31 {
      ModOfMultiple(-1, m);
    }
  }

  /** The signed round, read back with `>>> 0`, is the unsigned round: the
      source's signed intermediate values never change the final hash. */
  lemma JsHashStepAgrees(hash: int, unit: nat)
    requires -(Two31 as int) <= hash < Two31 && unit < 0x1_0000
    ensures ToUint32(JsHashStep(hash, unit)) == HashStep(ToUint32(hash), unit)
  {
    var a := ToUint32(ToInt32(hash * 33));
    var x := HashStep(ToUint32(hash), unit);
    ProductResidue(hash);
    assert Xor32(a, unit) == x;
    Uint32OfInt32(x);
    SmallResidue(x);
  }

  lemma SmallResidue(x: int)
    requires 0 <= x < Two32
    ensures ToUint32(x) == x
  {
  }

  lemma ProductResidue(hash: int)
    ensures ToUint32(ToInt32(hash * 33)) == (ToUint32(hash) * 33) % Two32
  {
    Uint32OfInt32(hash * 33);
    MulReduce(hash);
  }

  /** The hash as the source computes it: a signed 32-bit `hash` updated one
      code unit per iteration, then `>>> 0` and `toString(36)`. */
  method MessageHashLoop(input: string) returns (r: string)
    ensures r == MessageHash(input)
  {
    var units := Utf16(input);
    var hash: int := HashSeed;
    var i := 0;
    while i < |units|
      invariant 0 <= i <= |units|
      invariant -(Two31 as int) <= hash < Two31
      invariant ToUint32(hash) == HashUnits(units[..i])
    {
      assert units[..i + 1][..i] == units[..i];
      assert HashUnits(units[..i + 1]) == HashStep(HashUnits(units[..i]), units[i]);
      JsHashStepAgrees(hash, units[i]);
      hash := JsHashStep(hash, units[i]);
      i := i + 1;
    }
    assert units[..i] == units;
    var unsigned := ToUint32(hash);
    assert unsigned == HashUnits(Utf16(input));
    r := ToDigits(unsigned, 36);
  }

  // ---- truncate ------------------------------------------------------------------

  const TruncationMarker := "... [truncated]"

  /** The prefix the source builds code point by code point: stop at the first
      code point that would take the byte length past `maxBytes`. */
  function FitPrefix(s: string, maxBytes: int): (p: string)
    ensures p <= s
    ensures p == [] || ByteLength(p) <= maxBytes
    ensures forall k :: |p| < k <= |s| ==> ByteLength(s[..k]) > maxBytes
  {
    FitFrom(s, 0, maxBytes)
  }

  function FitFrom(s: string, k: nat, maxBytes: int): (p: string)
    requires k <= |s|
    requires k == 0 || ByteLength(s[..k]) <= maxBytes
    ensures k <= |p| <= |s| && p == s[..|p|]
    ensures p == [] || ByteLength(p) <= maxBytes
    ensures forall j :: |p| < j <= |s| ==> ByteLength(s[..j]) > maxBytes
    decreases |s| - k
  {
    if k == |s| then
      assert s[..k] == s;
      s
    else if ByteLength(s[..k + 1]) > maxBytes then
      forall j | k < j <= |s|
        ensures ByteLength(s[..j]) > maxBytes
      {
        ByteLengthMonotone(s, k + 1, j);
      }
      s[..k]
    else
      FitFrom(s, k + 1, maxBytes)
  }

  /** `truncate`: the input itself when its UTF-8 length is within `maxBytes`;
      otherwise the longest code-point prefix within `maxBytes`, followed by the
      marker. The marker itself is not counted against `maxBytes`. */
  function Truncate(value: string, maxBytes: int): (r: string)
    ensures ByteLength(value) <= maxBytes ==> r == value
    ensures ByteLength(value) > maxBytes ==>
      && |r| >= |TruncationMarker|
      && r[|r| - |TruncationMarker|..] == TruncationMarker
      && var p := r[..|r| - |TruncationMarker|];
         && p <= value
         && (p == [] || ByteLength(p) <= maxBytes)
         && forall k :: |p| < k <= |value| ==> ByteLength(value[..k]) > maxBytes
  {
    if ByteLength(value) <= maxBytes then value
    else
      var p := FitPrefix(value, maxBytes);
      assert value[..|value|] == value;
      var r := p + TruncationMarker;
      assert r[..|r| - |TruncationMarker|] == p;
      r
  }

  /** The fitting prefix is determined by its three defining properties. */
  lemma FitPrefixUnique(s: string, p: string, maxBytes: int)
    requires p <= s
    requires p == [] || ByteLength(p) <= maxBytes
    requires forall k :: |p| < k <= |s| ==> ByteLength(s[..k]) > maxBytes
    ensures p == FitPrefix(s, maxBytes)
  {
    var q := FitPrefix(s, maxBytes);
    assert s[..|q|] == q && s[..|p|] == p;
    assert |p| == |q|;
  }

  /** Cutting the input short anywhere past the limit does not change the
      truncated result: a prefix `r` of `full` that is either all of `full`
      or already over the limit truncates exactly as `full` does. */
  lemma TruncateOfCutOff(r: string, full: string, maxBytes: int)
    requires r <= full
    requires ByteLength(r) <= maxBytes ==> r == full
    ensures Truncate(r, maxBytes) == Truncate(full, maxBytes)
  {
    if ByteLength(r) > maxBytes {
      assert full[..|r|] == r;
      assert full[..|full|] == full;
      ByteLengthMonotone(full, |r|, |full|);
      var p := FitPrefix(full, maxBytes);
      if |p| > |r| {
        assert full[..|p|] == p;
        ByteLengthMonotone(full, |r|, |p|);
        assert false;
      }
      forall k | |p| < k <= |r|
        ensures ByteLength(r[..k]) > maxBytes
      {
        assert r[..k] == full[..k];
      }
      FitPrefixUnique(r, p, maxBytes);
    }
  }

  /** The marker can take the result past the limit: a 2-byte budget on a
      4-byte ASCII input yields 2 + 15 bytes. */
  lemma TruncateCanExceedLimit()
    ensures ByteLength(Truncate("abcd", 2)) > 2
  {
    var r := Truncate("abcd", 2);
    ByteLengthMonotone("abcd", 0, 4);
    assert "abcd"[..4] == "abcd";
    ByteLengthMonotone(r, 0, |r|);
    assert r[..|r|] == r;
  }

  /** A value within the limit is a fixed point of truncation. */
  lemma TruncateWithinLimit(value: string, maxBytes: int)
    requires ByteLength(value) <= maxBytes
    ensures Truncate(Truncate(value, maxBytes), maxBytes) == value
  {
  }

  // ---- normalizeMethod -------------------------------------------------------------

  /** The seven recognised method names, already upper-case. */
  function KnownMethod(upper: string): Option<HttpMethod> {
    if upper == "GET" then Some(GET)
    else if upper == "POST" then Some(POST)
    else if upper == "PUT" then Some(PUT)
    else if upper == "DELETE" then Some(DELETE)
    else if upper == "PATCH" then Some(PATCH)
    else if upper == "HEAD" then Some(HEAD)
    else if upper == "OPTIONS" then Some(OPTIONS)
    else None
  }

  /** `normalizeMethod`: `undefined` and "" mean GET; the seven known names are
      recognised in any case; everything else is UNKNOWN. */
  function NormalizeMethod(m: Option<string>): (r: HttpMethod)
    ensures m.None? || m.value == "" ==> r == GET
    ensures m.Some? && m.value != "" ==>
      (r != UNKNOWN <==> ToUpper(m.value) in {"GET", "POST", "PUT", "DELETE", "PATCH", "HEAD", "OPTIONS"})
    ensures m.Some? && m.value != "" && r != UNKNOWN ==> MethodName(r) == ToUpper(m.value)
  {
    if m.None? || m.value == "" then GET
    else
      match KnownMethod(ToUpper(m.value))
      case Some(known) => known
      case None => UNKNOWN
  }

  /** Every method's own name normalises back to it, UNKNOWN included. */
  lemma MethodNameRoundTrip(m: HttpMethod)
    ensures NormalizeMethod(Some(MethodName(m))) == m
  {
    var n := MethodName(m);
    assert ToUpper(n) == n;
  }

  /** Normalising the name of a normalised method gives the same method. */
  lemma NormalizeMethodIdempotent(m: Option<string>)
    ensures NormalizeMethod(Some(MethodName(NormalizeMethod(m)))) == NormalizeMethod(m)
  {
    MethodNameRoundTrip(NormalizeMethod(m));
  }

  /** Case does not matter. */
  lemma NormalizeMethodIgnoresCase(s: string)
    ensures NormalizeMethod(Some(ToLower(s))) == NormalizeMethod(Some(s))
  {
    UpperOfLower(s);
  }

  // ---- redactRecord ----------------------------------------------------------------

  const RedactedValue := "[REDACTED]"

  /** Header `key` matches a blocked name, ignoring case. */
  predicate IsBlocked(key: string, blocked: seq<string>) {
    exists i :: 0 <= i < |blocked| && ToLower(blocked[i]) == ToLower(key)
  }

  /** `redactRecord`: the same keys, with the value of every blocked key replaced
      by the sentinel; an empty block list returns the record untouched. */
  function RedactRecord(record: Headers, blocked: seq<string>): (r: Headers)
    ensures |blocked| == 0 ==> r == record
    ensures r.Keys == record.Keys
    ensures forall k :: k in record ==>
      r[k] == (if IsBlocked(k, blocked) then RedactedValue else record[k])
  {
    if |blocked| == 0 then record
    else
      var blockedSet := set b | b in blocked :: ToLower(b);
      assert forall k :: ToLower(k) in blockedSet <==> IsBlocked(k, blocked);
      map k | k in record :: if ToLower(k) in blockedSet then RedactedValue else record[k]
  }

  /** Redacting twice with the same list is the same as redacting once. */
  lemma RedactIdempotent(record: Headers, blocked: seq<string>)
    ensures RedactRecord(RedactRecord(record, blocked), blocked) == RedactRecord(record, blocked)
  {
  }

  /** Blocking a header under its upper- or lower-case spelling redacts it,
      however the record spells it. */
  lemma RedactIsCaseInsensitive(record: Headers, k: string)
    requires k in record
    ensures RedactRecord(record, [ToUpper(k)])[k] == RedactedValue
    ensures RedactRecord(record, [ToLower(k)])[k] == RedactedValue
  {
    LowerOfUpper(k);
    LowerIdempotent(k);
    assert IsBlocked(k, [ToUpper(k)]) by {
      assert ToLower([ToUpper(k)][0]) == ToLower(k);
    }
    assert IsBlocked(k, [ToLower(k)]) by {
      assert ToLower([ToLower(k)][0]) == ToLower(k);
    }
  }
}
