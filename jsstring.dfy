/**
 * The JavaScript string operations the card renderer relies on:
 * `String.prototype.indexOf`, `String.prototype.replace` with a string
 * pattern (only the first occurrence is replaced, and the replacement text
 * is expanded as in the GetSubstitution algorithm of ECMA-262, section
 * 22.1.3.19.1), a chain of such calls, and the decimal text of a number in
 * a template literal.
 */
module JsString {
  import opened Wrappers

  /** `pat` occurs in `s` starting at index `i`. */
  predicate OccursAt(s: string, pat: string, i: nat)
  {
    i + |pat| <= |s| && forall t :: 0 <= t < |pat| ==> s[i + t] == pat[t]
  }

  /** `i` is the index of the leftmost occurrence of `pat` in `s`. */
  predicate IsFirstOccurrence(s: string, pat: string, i: nat)
  {
    OccursAt(s, pat, i) && forall j: nat :: j < i ==> !OccursAt(s, pat, j)
  }

  /** `s.indexOf(pat, from)` for `from <= |s|`, scanning left to right from `from`. */
  function IndexFrom(s: string, pat: string, from: nat): (r: Option<nat>)
    ensures r.Some? ==> from <= r.value && OccursAt(s, pat, r.value)
    ensures r.Some? ==> forall j: nat :: from <= j < r.value ==> !OccursAt(s, pat, j)
    ensures r.None? ==> forall j: nat :: from <= j ==> !OccursAt(s, pat, j)
    decreases |s| - from
  {
    if from + |pat| > |s| then None
    else if OccursAt(s, pat, from) then Some(from)
    else IndexFrom(s, pat, from + 1)
  }

  /** `s.indexOf(pat)`: the leftmost occurrence, or none at all. */
  function IndexOf(s: string, pat: string): (r: Option<nat>)
    ensures r.Some? ==> IsFirstOccurrence(s, pat, r.value)
    ensures r.None? ==> forall j: nat :: !OccursAt(s, pat, j)
  {
    IndexFrom(s, pat, 0)
  }

  /**
   * The text a string-pattern `replace` inserts for the replacement
   * `template` when the match is `matched`, preceded by `before` and
   * followed by `after`: "$$" becomes "$", "$&" the match, "$`" the text
   * before it and "$'" the text after it; every other character, including
   * a "$" that starts none of these (there are no capture groups), is kept.
   */
  function Substitution(template: string, matched: string, before: string, after: string): string
    decreases |template|
  {
    if |template| == 0 then ""
    else if template[0] == '$' && |template| >= 2 && template[1] == '$' then
      "$" + Substitution(template[2..], matched, before, after)
    else if template[0] == '$' && |template| >= 2 && template[1] == '&' then
      matched + Substitution(template[2..], matched, before, after)
    else if template[0] == '$' && |template| >= 2 && template[1] == '`' then
      before + Substitution(template[2..], matched, before, after)
    else if template[0] == '$' && |template| >= 2 && template[1] == '\'' then
      after + Substitution(template[2..], matched, before, after)
    else
      [template[0]] + Substitution(template[1..], matched, before, after)
  }

  /** A replacement without "$" is inserted verbatim. */
  lemma {:induction false} SubstitutionOfPlainText(template: string, matched: string, before: string, after: string)
    requires '$' !in template
    ensures Substitution(template, matched, before, after) == template
    decreases |template|
  {
    if |template| > 0 {
      assert '$' !in template[1..];
      SubstitutionOfPlainText(template[1..], matched, before, after);
      assert [template[0]] + template[1..] == template;
    }
  }

  /**
   * `s.replace(pat, replacement)` for a string `pat`: the leftmost
   * occurrence of `pat` is replaced by the expanded replacement, and the
   * string is returned unchanged when `pat` does not occur.
   */
  function ReplaceFirst(s: string, pat: string, replacement: string): (r: string)
    ensures (forall j: nat :: !OccursAt(s, pat, j)) ==> r == s
    ensures forall i: nat :: IsFirstOccurrence(s, pat, i) ==>
      r == s[..i] + Substitution(replacement, pat, s[..i], s[i + |pat|..]) + s[i + |pat|..]
  {
    match IndexOf(s, pat)
    case None => s
    case Some(i) => s[..i] + Substitution(replacement, pat, s[..i], s[i + |pat|..]) + s[i + |pat|..]
  }

  /** The result of `ReplaceFirst` at a known first occurrence `i`. */
  lemma ReplaceFirstAt(s: string, pat: string, replacement: string, i: nat)
    requires IsFirstOccurrence(s, pat, i)
    ensures ReplaceFirst(s, pat, replacement)
      == s[..i] + Substitution(replacement, pat, s[..i], s[i + |pat|..]) + s[i + |pat|..]
  {
  }

  /**
   * Only the first occurrence is touched: the text before it and the text
   * after it are kept exactly, so every later occurrence of `pat` is still
   * present, shifted by the change in length.
   */
  lemma ReplaceFirstKeepsTheRest(s: string, pat: string, replacement: string, i: nat, j: nat)
    requires IsFirstOccurrence(s, pat, i)
    requires i + |pat| <= j && OccursAt(s, pat, j)
    ensures var r := ReplaceFirst(s, pat, replacement);
      var inserted := Substitution(replacement, pat, s[..i], s[i + |pat|..]);
      && |r| == |s| - |pat| + |inserted|
      && r[..i] == s[..i]
      && r[i + |inserted|..] == s[i + |pat|..]
      && OccursAt(r, pat, j - |pat| + |inserted|)
  {
    var before := s[..i];
    var inserted := Substitution(replacement, pat, before, s[i + |pat|..]);
    var r := ReplaceFirst(s, pat, replacement);
    ReplaceFirstAt(s, pat, replacement, i);
    assert r == before + inserted + s[i + |pat|..];
    assert |before| == i;
    Shifted(before, inserted, s, i + |pat|, pat, j);
    assert |before| + |inserted| + j - (i + |pat|) == j - |pat| + |inserted|;
  }

  /** Text `s[m..]` appended after `a + b` keeps every occurrence it had, shifted by `|a| + |b| - m`. */
  lemma Shifted(a: string, b: string, s: string, m: nat, pat: string, j: nat)
    requires m <= j && OccursAt(s, pat, j)
    ensures var r := a + b + s[m..];
      && |r| == |a| + |b| + |s| - m
      && r[..|a|] == a && r[|a| + |b|..] == s[m..]
      && OccursAt(r, pat, |a| + |b| + j - m)
  {
    var r := a + b + s[m..];
    var k := |a| + |b| + j - m;
    forall t | 0 <= t < |pat|
      ensures r[k + t] == pat[t]
    {
      assert r[k + t] == s[j + t];
    }
  }

  /** `s.replace(patterns[0], replacements[0]).replace(patterns[1], replacements[1])...` */
  function ReplaceChain(s: string, patterns: seq<string>, replacements: seq<string>): (r: string)
    requires |patterns| == |replacements|
    ensures (forall k: nat, j: nat :: k < |patterns| ==> !OccursAt(s, patterns[k], j)) ==> r == s
    decreases |patterns|
  {
    if patterns == [] then s
    else ReplaceChain(ReplaceFirst(s, patterns[0], replacements[0]), patterns[1..], replacements[1..])
  }

  /** `texts[0] + slots[0] + texts[1] + ... + slots[n-1] + texts[n]`. */
  function Weave(texts: seq<string>, slots: seq<string>): string
    requires |texts| == |slots| + 1
    decreases |slots|
  {
    if slots == [] then texts[0] else texts[0] + slots[0] + Weave(texts[1..], slots[1..])
  }

  lemma WeaveMergeHead(a: string, b: string, rest: seq<string>, slots: seq<string>)
    requires |rest| == |slots|
    ensures Weave([a + b] + rest, slots) == a + Weave([b] + rest, slots)
  {
    if slots != [] {
      assert ([a + b] + rest)[1..] == rest;
      assert ([b] + rest)[1..] == rest;
    }
  }

  /** No occurrence of a pattern starting with `c` begins inside a prefix free of `c`. */
  lemma FirstOccurrenceAfterPlainPrefix(prefix: string, pat: string, tail: string)
    requires |pat| > 0 && pat[0] !in prefix
    ensures IsFirstOccurrence(prefix + pat + tail, pat, |prefix|)
  {
    var s := prefix + pat + tail;
    forall t | 0 <= t < |pat|
      ensures s[|prefix| + t] == pat[t]
    {
    }
    forall j: nat | j < |prefix|
      ensures !OccursAt(s, pat, j)
    {
      assert s[j + 0] == prefix[j];
    }
  }

  /** Replacing a pattern that first occurs right after `prefix` by a plain value. */
  lemma ReplaceAfterPlainPrefix(prefix: string, pat: string, value: string, tail: string)
    requires |pat| > 0 && pat[0] !in prefix && '$' !in value
    ensures ReplaceFirst(prefix + pat + tail, pat, value) == prefix + value + tail
  {
    var s := prefix + pat + tail;
    FirstOccurrenceAfterPlainPrefix(prefix, pat, tail);
    ReplaceFirstAt(s, pat, value, |prefix|);
    assert s[..|prefix|] == prefix;
    assert s[|prefix| + |pat|..] == tail;
    SubstitutionOfPlainText(value, pat, prefix, tail);
  }

  /** The literal texts once the first slot has been filled with `value`. */
  function MergeFirstSlot(texts: seq<string>, value: string): (r: seq<string>)
    requires |texts| >= 2
    ensures |r| == |texts| - 1
  {
    [texts[0] + value + texts[1]] + texts[2..]
  }

  /** Weaving after filling the first slot is weaving with that slot's value. */
  lemma WeaveFirstSlot(texts: seq<string>, value: string, slots: seq<string>)
    requires |texts| >= 2 && |slots| == |texts| - 2
    ensures Weave(MergeFirstSlot(texts, value), slots) == Weave(texts, [value] + slots)
  {
    assert texts[1..] == [texts[1]] + texts[2..];
    assert ([value] + slots)[1..] == slots;
    WeaveMergeHead(texts[0] + value, texts[1], texts[2..], slots);
  }

  /** Filling the first slot leaves literal texts free of `c` when the value is free of it. */
  lemma MergeFirstSlotFree(texts: seq<string>, value: string, c: char)
    requires |texts| >= 2 && c !in value
    requires forall k :: 0 <= k < |texts| ==> c !in texts[k]
    ensures forall k :: 0 <= k < |texts| - 1 ==> c !in MergeFirstSlot(texts, value)[k]
  {
    var r := MergeFirstSlot(texts, value);
    forall k | 0 <= k < |r|
      ensures c !in r[k]
    {
      if k > 0 { assert r[k] == texts[k + 1]; }
    }
  }

  /**
   * The chain does what a template author means when the template holds
   * every placeholder once, in the order of the chain, and neither the
   * literal text nor the inserted values contain '{' (every placeholder
   * starts with '{') or '$': the result is the template with each
   * placeholder replaced by its value.
   */
  lemma {:induction false} ReplaceChainFillsSlots(texts: seq<string>, patterns: seq<string>, replacements: seq<string>)
    requires |patterns| == |replacements| && |texts| == |patterns| + 1
    requires forall k :: 0 <= k < |texts| ==> '{' !in texts[k]
    requires forall k :: 0 <= k < |patterns| ==> |patterns[k]| > 0 && patterns[k][0] == '{'
    requires forall k :: 0 <= k < |replacements| ==> '{' !in replacements[k] && '$' !in replacements[k]
    ensures ReplaceChain(Weave(texts, patterns), patterns, replacements) == Weave(texts, replacements)
    decreases |patterns|
  {
    if patterns != [] {
      var p, v := patterns[0], replacements[0];
      var merged := MergeFirstSlot(texts, v);
      ReplaceAfterPlainPrefix(texts[0], p, v, Weave(texts[1..], patterns[1..]));
      WeaveFirstSlot(texts, v, patterns[1..]);
      assert ReplaceFirst(Weave(texts, patterns), p, v) == Weave(merged, patterns[1..]);
      MergeFirstSlotFree(texts, v, '{');
      ReplaceChainFillsSlots(merged, patterns[1..], replacements[1..]);
      WeaveFirstSlot(texts, v, replacements[1..]);
      assert [v] + replacements[1..] == replacements;
    }
  }

  function DigitChar(d: nat): (c: char)
    requires d < 10
  {
    "0123456789"[d]
  }

  function DigitValue(c: char): nat
  {
    if '0' <= c <= '9' then (c as int - '0' as int) as nat else 0
  }

  lemma DigitRoundTrip(d: nat)
    requires d < 10
    ensures DigitValue(DigitChar(d)) == d
  {
  }

  /** The value of a string of decimal digits. */
  function DecimalValue(s: string): nat
    decreases |s|
  {
    if s == [] then 0 else 10 * DecimalValue(s[..|s| - 1]) + DigitValue(s[|s| - 1])
  }

  /** How a number `n` is written in a template literal: its decimal digits, no leading zero. */
  function DecimalString(n: nat): (r: string)
    ensures |r| > 0 && forall k :: 0 <= k < |r| ==> '0' <= r[k] <= '9'
    ensures |r| > 1 ==> r[0] != '0'
    decreases n
  {
    if n < 10 then [DigitChar(n)] else DecimalString(n / 10) + [DigitChar(n % 10)]
  }

  /** The digits written for `n` read back as `n`. */
  lemma {:induction false} DecimalRoundTrip(n: nat)
    ensures DecimalValue(DecimalString(n)) == n
    decreases n
  {
    if n < 10 {
      DigitRoundTrip(n);
    } else {
      var q, d := n / 10, n % 10;
      var s := DecimalString(n);
      assert s == DecimalString(q) + [DigitChar(d)];
      assert s[..|s| - 1] == DecimalString(q);
      DecimalRoundTrip(q);
      DigitRoundTrip(d);
      assert n == 10 * q + d;
    }
  }
}
