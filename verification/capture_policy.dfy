/** The runtime capture policy and how a client's `control` patch updates it
    (the `onUpdateCaptureConfig` callback the session hands to the hub). */
module CapturePolicy {
  import opened Common
  import opened Text
  import opened Types

  /** The floor a patched truncation limit is raised to. */
  const MinPatchedTruncateBytes := 1000

  /** One redact-list entry as stored: trimmed, then lower-cased. */
  function NormalizeHeaderName(h: string): string {
    ToLower(Trim(h))
  }

  /** A name as it is stored: non-empty, trimmed and lower-case. */
  predicate IsNormalizedName(x: string) {
    x != "" && Trimmed(x) && ToLower(x) == x
  }

  /** A stored redact list: every entry a normalised name. */
  predicate NormalizedList(hs: seq<string>) {
    forall i :: 0 <= i < |hs| ==> IsNormalizedName(hs[i])
  }

  lemma NormalizedNameFixed(x: string)
    requires IsNormalizedName(x)
    ensures NormalizeHeaderName(x) == x
  {
  }

  lemma NormalizeHeaderNameShape(h: string)
    ensures NormalizeHeaderName(h) != "" ==> IsNormalizedName(NormalizeHeaderName(h))
  {
    LowerKeepsTrimmed(Trim(h));
    LowerIdempotent(Trim(h));
  }

  predicate NonBlank(x: string) { x != "" }

  /** `.map(trim + toLowerCase).filter(non-empty)` over the patch's entries:
      the normalised names, blanks dropped, in the patch's order. */
  function NormalizeRedactList(hs: seq<string>): (r: seq<string>)
    ensures r == Filter(Map(hs, NormalizeHeaderName), NonBlank)
    ensures NormalizedList(r)
    ensures |r| <= |hs|
    ensures forall i :: 0 <= i < |hs| && NormalizeHeaderName(hs[i]) != "" ==> NormalizeHeaderName(hs[i]) in r
  {
    if |hs| == 0 then []
    else
      var h := NormalizeHeaderName(hs[0]);
      var rest := NormalizeRedactList(hs[1..]);
      NormalizeCons(hs, rest);
      FilterMapCons(hs, NormalizeHeaderName, NonBlank);
      (if h != "" then [h] else []) + rest
  }

  /** One step of the normalisation: the head's normalised form, if not
      blank, in front of the normalised tail. */
  lemma NormalizeCons(hs: seq<string>, rest: seq<string>)
    requires |hs| > 0
    requires NormalizedList(rest) && |rest| <= |hs| - 1
    requires forall i :: 0 <= i < |hs[1..]| && NormalizeHeaderName(hs[1..][i]) != "" ==>
      NormalizeHeaderName(hs[1..][i]) in rest
    ensures var h := NormalizeHeaderName(hs[0]);
      var r := (if h != "" then [h] else []) + rest;
      && NormalizedList(r) && |r| <= |hs|
      && forall i :: 0 <= i < |hs| && NormalizeHeaderName(hs[i]) != "" ==> NormalizeHeaderName(hs[i]) in r
  {
    NormalizeHeaderNameShape(hs[0]);
    ConsNormalized(NormalizeHeaderName(hs[0]), rest);
    ConsKeeps(hs, rest, NormalizeHeaderName);
  }

  lemma ConsNormalized(h: string, rest: seq<string>)
    requires h == "" || IsNormalizedName(h)
    requires NormalizedList(rest)
    ensures NormalizedList((if h != "" then [h] else []) + rest)
  {
  }

  /** Mapping then dropping blanks keeps every non-blank image. */
  lemma ConsKeeps(hs: seq<string>, rest: seq<string>, f: string -> string)
    requires |hs| > 0
    requires forall i :: 0 <= i < |hs[1..]| && f(hs[1..][i]) != "" ==> f(hs[1..][i]) in rest
    ensures forall i :: 0 <= i < |hs| && f(hs[i]) != "" ==> f(hs[i]) in (if f(hs[0]) != "" then [f(hs[0])] else []) + rest
  {
    forall i | 0 < i < |hs|
      ensures hs[i] == hs[1..][i - 1]
    {
    }
  }

  /** Normalising an already-normalised list returns it unchanged. */
  lemma {:induction false} NormalizeRedactListFixed(hs: seq<string>)
    requires NormalizedList(hs)
    ensures NormalizeRedactList(hs) == hs
  {
    if |hs| > 0 {
      NormalizedNameFixed(hs[0]);
      NormalizeRedactListFixed(hs[1..]);
    }
  }

  /** Normalisation is idempotent. */
  lemma NormalizeRedactListIdempotent(hs: seq<string>)
    ensures NormalizeRedactList(NormalizeRedactList(hs)) == NormalizeRedactList(hs)
  {
    NormalizeRedactListFixed(NormalizeRedactList(hs));
  }

  /** The strings of a JSON array, or `None` when some element is not a string
      (its `.trim()` would throw). */
  function Strings(items: seq<Json>): (r: Option<seq<string>>)
    ensures r.Some? <==> forall i :: 0 <= i < |items| ==> items[i].JStr?
    ensures r.Some? ==> |r.value| == |items| && forall i :: 0 <= i < |items| ==> r.value[i] == items[i].s
  {
    if |items| == 0 then Some([])
    else if !items[0].JStr? then None
    else
      match Strings(items[1..])
      case None => None
      case Some(rest) => Some([items[0].s] + rest)
  }

  /** The policy after a patch, and whether applying it threw part-way. */
  datatype PatchOutcome = PatchOutcome(config: RuntimeCaptureConfig, threw: bool)

  /** The `onUpdateCaptureConfig` callback. Fields are applied in source order:
      the two body flags, then the limit, then the redact list; a non-string
      redact entry throws after the first three were already applied. */
  function ApplyPatch(c: RuntimeCaptureConfig, p: ControlPatch): (r: PatchOutcome)
    ensures r.config.captureRequestBodies ==
      (if p.captureRequestBodies.Some? then p.captureRequestBodies.value else c.captureRequestBodies)
    ensures r.config.captureResponseBodies ==
      (if p.captureResponseBodies.Some? then p.captureResponseBodies.value else c.captureResponseBodies)
    ensures (p.truncateBodyBytes.Some? && p.truncateBodyBytes.value.Finite?) ==>
      && r.config.truncateBodyBytes >= MinPatchedTruncateBytes
      && r.config.truncateBodyBytes >= p.truncateBodyBytes.value.value.Floor
      && (p.truncateBodyBytes.value.value >= MinPatchedTruncateBytes as real ==>
            r.config.truncateBodyBytes == p.truncateBodyBytes.value.value.Floor)
      && (p.truncateBodyBytes.value.value < MinPatchedTruncateBytes as real ==>
            r.config.truncateBodyBytes == MinPatchedTruncateBytes)
    ensures !(p.truncateBodyBytes.Some? && p.truncateBodyBytes.value.Finite?) ==>
      r.config.truncateBodyBytes == c.truncateBodyBytes
    ensures r.threw <==> p.redactHeaders.Some? && exists i :: 0 <= i < |p.redactHeaders.value| && !p.redactHeaders.value[i].JStr?
    ensures !r.threw && p.redactHeaders.Some? ==>
      && Strings(p.redactHeaders.value).Some?
      && r.config.redactHeaders == NormalizeRedactList(Strings(p.redactHeaders.value).value)
      && NormalizedList(r.config.redactHeaders)
    ensures (r.threw || p.redactHeaders.None?) ==> r.config.redactHeaders == c.redactHeaders
  {
    var c1 := if p.captureRequestBodies.Some? then c.(captureRequestBodies := p.captureRequestBodies.value) else c;
    var c2 := if p.captureResponseBodies.Some? then c1.(captureResponseBodies := p.captureResponseBodies.value) else c1;
    var c3 := match p.truncateBodyBytes
      case Some(Finite(v)) => c2.(truncateBodyBytes := Max(MinPatchedTruncateBytes, v.Floor))
      case _ => c2;
    match p.redactHeaders
    case None => PatchOutcome(c3, false)
    case Some(items) =>
      match Strings(items)
      case None => PatchOutcome(c3, true)
      case Some(names) => PatchOutcome(c3.(redactHeaders := NormalizeRedactList(names)), false)
  }

  /** A patch with nothing well-typed in it leaves the policy as it was. */
  lemma EmptyPatchKeepsPolicy(c: RuntimeCaptureConfig, pauseLogs: Option<bool>, pauseNetwork: Option<bool>)
    ensures ApplyPatch(c, ControlPatch(pauseLogs, pauseNetwork, None, None, None, None)) == PatchOutcome(c, false)
  {
  }

  /** Once a patch has set the limit, every later patch keeps it at or above the floor. */
  lemma PatchedLimitStaysAboveFloor(c: RuntimeCaptureConfig, p: ControlPatch)
    requires c.truncateBodyBytes >= MinPatchedTruncateBytes
    ensures ApplyPatch(c, p).config.truncateBodyBytes >= MinPatchedTruncateBytes
  {
  }

  /** Applying the same patch twice gives the same policy as applying it once. */
  lemma ApplyPatchIdempotent(c: RuntimeCaptureConfig, p: ControlPatch)
    ensures ApplyPatch(ApplyPatch(c, p).config, p) == ApplyPatch(c, p)
  {
    var r1 := ApplyPatch(c, p);
    var r2 := ApplyPatch(r1.config, p);
    assert r2.threw == r1.threw;
    assert r2.config.truncateBodyBytes == r1.config.truncateBodyBytes;
    assert r2.config.redactHeaders == r1.config.redactHeaders by {
      if !r1.threw && p.redactHeaders.Some? {
        NormalizeRedactListIdempotent(Strings(p.redactHeaders.value).value);
      }
    }
  }

}
