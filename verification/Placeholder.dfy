/**
Filling the node's private key into a deployed WireGuard text: every occurrence of the placeholder
is replaced, scanning left to right.
*/
module Placeholder {
  import opened Text

  datatype Rendered = Rendered(text: string) | KeyMissing

  const PLACEHOLDER := "{{WIREGUARD_PRIVATE_KEY}}"

  predicate StartsWith(s: string, prefix: string) {
    |prefix| <= |s| && s[..|prefix|] == prefix
  }

  predicate Contains(s: string, part: string) {
    exists i :: 0 <= i <= |s| && StartsWith(s[i..], part)
  }

  function ReplaceAll(s: string, part: string, fill: string): string
    requires part != ""
    decreases |s|
  {
    if s == "" then ""
    else if StartsWith(s, part) then fill + ReplaceAll(s[|part|..], part, fill)
    else [s[0]] + ReplaceAll(s[1..], part, fill)
  }

  function RenderWireGuardConfig(config: string, key: string): Rendered {
    if Contains(config, PLACEHOLDER) then
      if key == "" then KeyMissing else Rendered(ReplaceAll(config, PLACEHOLDER, key))
    else Rendered(config)
  }

  // ----- the text between placeholders -----

  // The stretches of `s` before, between and after the occurrences that are replaced.
  ghost function Gaps(s: string, part: string): (r: seq<string>)
    requires part != ""
    ensures |r| >= 1
    decreases |s|
  {
    if s == "" then [""]
    else if StartsWith(s, part) then [""] + Gaps(s[|part|..], part)
    else
      var rest := Gaps(s[1..], part);
      [[s[0]] + rest[0]] + rest[1..]
  }

  ghost function JoinWith(gaps: seq<string>, separator: string): string
    requires |gaps| >= 1
  {
    if |gaps| == 1 then gaps[0] else gaps[0] + separator + JoinWith(gaps[1..], separator)
  }

  // The text keeps every stretch in order; only what stands between the stretches changes.
  lemma {:induction false} ReplaceKeepsGaps(s: string, part: string, fill: string)
    requires part != ""
    ensures JoinWith(Gaps(s, part), part) == s
    ensures JoinWith(Gaps(s, part), fill) == ReplaceAll(s, part, fill)
    decreases |s|
  {
    if s == "" {
    } else if StartsWith(s, part) {
      var gaps := Gaps(s[|part|..], part);
      ReplaceKeepsGaps(s[|part|..], part, fill);
      hide Gaps;
      JoinPrepend(gaps, part);
      JoinPrepend(gaps, fill);
      assert s == part + s[|part|..];
    } else {
      var gaps := Gaps(s[1..], part);
      ReplaceKeepsGaps(s[1..], part, fill);
      hide Gaps;
      JoinExtend(s[0], gaps, part);
      JoinExtend(s[0], gaps, fill);
      assert s == [s[0]] + s[1..];
    }
  }

  lemma JoinPrepend(gaps: seq<string>, separator: string)
    requires |gaps| >= 1
    ensures JoinWith([""] + gaps, separator) == separator + JoinWith(gaps, separator)
  {
    assert ([""] + gaps)[1..] == gaps;
    assert "" + separator + JoinWith(gaps, separator) == separator + JoinWith(gaps, separator);
  }

  lemma JoinExtend(c: char, gaps: seq<string>, separator: string)
    requires |gaps| >= 1
    ensures JoinWith([[c] + gaps[0]] + gaps[1..], separator) == [c] + JoinWith(gaps, separator)
  {
    var extended := [[c] + gaps[0]] + gaps[1..];
    assert extended[1..] == gaps[1..];
    if |gaps| > 1 {
      var rest := JoinWith(gaps[1..], separator);
      assert [c] + gaps[0] + separator + rest == [c] + (gaps[0] + separator + rest);
    }
  }

  lemma {:induction false} NothingReplaced(s: string, part: string, fill: string)
    requires part != "" && !Contains(s, part)
    ensures ReplaceAll(s, part, fill) == s
    decreases |s|
  {
    if s != "" {
      assert s[0..] == s && !StartsWith(s[0..], part);
      forall i | 0 <= i <= |s[1..]|
        ensures !StartsWith(s[1..][i..], part)
      {
        assert s[1..][i..] == s[i + 1..];
        assert !StartsWith(s[i + 1..], part);
      }
      NothingReplaced(s[1..], part, fill);
    }
  }

  // The text written is the deployed one with the key between its stretches; it is refused exactly
  // when it has a placeholder and the node no key.
  lemma RenderedText(config: string, key: string)
    ensures RenderWireGuardConfig(config, key) ==
      if Contains(config, PLACEHOLDER) && key == "" then KeyMissing else Rendered(JoinWith(Gaps(config, PLACEHOLDER), key))
  {
    ReplaceKeepsGaps(config, PLACEHOLDER, key);
    hide Gaps, ReplaceAll;
    if !Contains(config, PLACEHOLDER) {
      NothingReplaced(config, PLACEHOLDER, key);
    }
  }

  // ----- no placeholder survives, not even across a seam -----

  lemma StartsWithAgrees(s: string, prefix: string, n: nat)
    requires n < |prefix|
    ensures StartsWith(s, prefix) ==> n < |s| && s[n] == prefix[n]
  {
    if StartsWith(s, prefix) {
      assert s[..|prefix|][n] == s[n];
    }
  }

  // A key stands in the way of every tail of the placeholder: it is longer and has no '}'.
  lemma KeyBlocksTail(key: string, rest: string, k: nat)
    requires WireGuardKey(key) && k < |PLACEHOLDER|
    ensures !StartsWith(key + rest, PLACEHOLDER[k..])
  {
    var tail := PLACEHOLDER[k..];
    var n := |tail| - 1;
    assert tail[n] == '}' && (key + rest)[n] == key[n];
    StartsWithAgrees(key + rest, tail, n);
  }

  // Nor can the placeholder begin inside a key, which has no '{'.
  lemma KeyBlocksStart(key: string, rest: string, i: nat)
    requires WireGuardKey(key) && i < 44
    ensures !StartsWith((key + rest)[i..], PLACEHOLDER)
  {
    var r := (key + rest)[i..];
    assert r[0] == key[i];
    StartsWithAgrees(r, PLACEHOLDER, 0);
  }

  lemma StartsWithSplit(s: string, prefix: string)
    requires prefix != "" && s != ""
    ensures StartsWith(s, prefix) <==> s[0] == prefix[0] && StartsWith(s[1..], prefix[1..])
  {
    if |prefix| <= |s| {
      assert s[..|prefix|] == [s[0]] + s[1..][..|prefix| - 1];
      assert prefix == [prefix[0]] + prefix[1..];
    }
  }

  // The placeholder's last characters, from `k` on, are found at the head of a replaced text only
  // if they stood at the head of the original.
  lemma {:induction false} TailReflects(s: string, key: string, k: nat)
    requires WireGuardKey(key) && k <= |PLACEHOLDER|
    requires StartsWith(ReplaceAll(s, PLACEHOLDER, key), PLACEHOLDER[k..])
    ensures StartsWith(s, PLACEHOLDER[k..])
    decreases |PLACEHOLDER| - k
  {
    if k < |PLACEHOLDER| {
      if StartsWith(s, PLACEHOLDER) {
        KeyBlocksTail(key, ReplaceAll(s[|PLACEHOLDER|..], PLACEHOLDER, key), k);
      } else {
        var r := ReplaceAll(s, PLACEHOLDER, key);
        assert r[1..] == ReplaceAll(s[1..], PLACEHOLDER, key);
        assert PLACEHOLDER[k..][1..] == PLACEHOLDER[k + 1..];
        StartsWithSplit(r, PLACEHOLDER[k..]);
        StartsWithSplit(s, PLACEHOLDER[k..]);
        TailReflects(s[1..], key, k + 1);
      }
    }
  }

  lemma {:induction false} NoneAt(s: string, key: string, i: nat)
    requires WireGuardKey(key) && i <= |ReplaceAll(s, PLACEHOLDER, key)|
    ensures !StartsWith(ReplaceAll(s, PLACEHOLDER, key)[i..], PLACEHOLDER)
    decreases |s|
  {
    var r := ReplaceAll(s, PLACEHOLDER, key);
    if s != "" {
      if StartsWith(s, PLACEHOLDER) {
        var rest := ReplaceAll(s[|PLACEHOLDER|..], PLACEHOLDER, key);
        if i < 44 {
          KeyBlocksStart(key, rest, i);
        } else {
          assert r[i..] == rest[i - 44..];
          NoneAt(s[|PLACEHOLDER|..], key, i - 44);
        }
      } else if i > 0 {
        assert r[i..] == ReplaceAll(s[1..], PLACEHOLDER, key)[i - 1..];
        NoneAt(s[1..], key, i - 1);
      } else if StartsWith(r[0..], PLACEHOLDER) {
        assert r[0..] == r && PLACEHOLDER[0..] == PLACEHOLDER;
        TailReflects(s, key, 0);
      }
    }
  }

  lemma NewlineAddsNone(text: string)
    requires !Contains(text, PLACEHOLDER)
    ensures !Contains(text + "\n", PLACEHOLDER)
  {
    var whole, n := text + "\n", |PLACEHOLDER| - 1;
    forall i | 0 <= i <= |whole|
      ensures !StartsWith(whole[i..], PLACEHOLDER)
    {
      StartsWithAgrees(whole[i..], PLACEHOLDER, n);
      if i + n < |text| {
        assert whole[i..][..n + 1] == text[i..][..n + 1];
        assert !StartsWith(text[i..], PLACEHOLDER);
      }
    }
  }

  // With a well-formed key the WireGuard file written to the router holds no placeholder anywhere.
  lemma RenderedHasNoPlaceholder(config: string, key: string)
    requires WireGuardKey(key)
    ensures var r := RenderWireGuardConfig(config, key);
      r.Rendered? && !Contains(r.text + "\n", PLACEHOLDER)
  {
    var r := RenderWireGuardConfig(config, key);
    if Contains(config, PLACEHOLDER) {
      forall i | 0 <= i <= |r.text|
        ensures !StartsWith(r.text[i..], PLACEHOLDER)
      {
        NoneAt(config, key, i);
      }
    }
    NewlineAddsNone(r.text);
  }
}
