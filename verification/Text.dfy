/** The few text operations the validators are made of, over ASCII text. */
module Text {

  datatype Result<+T, +E> = Ok(value: T) | Err(error: E) {
    predicate IsFailure() { Err? }

    function PropagateFailure<U>(): Result<U, E>
      requires Err?
    {
      Err(error)
    }

    function Extract(): T
      requires Ok?
    {
      value
    }
  }

  // White space as the backend's language and as the node's trims it from ASCII text.
  datatype Spaces = PythonSpaces | GoSpaces

  predicate IsSpace(c: char, spaces: Spaces) {
    c == ' ' || '\t' <= c <= '\r' || (spaces.PythonSpaces? && 28 as char <= c <= 31 as char)
  }

  predicate IsDigit(c: char) { '0' <= c <= '9' }

  predicate AllDigits(s: string) {
    s != "" && forall i :: 0 <= i < |s| ==> IsDigit(s[i])
  }

  predicate OnlyDigits(s: string) {
    forall i :: 0 <= i < |s| ==> IsDigit(s[i])
  }

  function StripLeft(s: string, spaces: Spaces): (r: string)
    ensures r == "" || !IsSpace(r[0], spaces)
    ensures |r| <= |s| && r == s[|s| - |r|..]
  {
    if s != "" && IsSpace(s[0], spaces) then StripLeft(s[1..], spaces) else s
  }

  function StripRight(s: string, spaces: Spaces): (r: string)
    ensures r == "" || !IsSpace(r[|r| - 1], spaces)
    ensures |r| <= |s| && r == s[..|r|]
  {
    if s != "" && IsSpace(s[|s| - 1], spaces) then StripRight(s[..|s| - 1], spaces) else s
  }

  // What the backend strips.
  function Strip(s: string): string {
    StripRight(StripLeft(s, PythonSpaces), PythonSpaces)
  }

  // What the node trims.
  function TrimSpace(s: string): string {
    StripRight(StripLeft(s, GoSpaces), GoSpaces)
  }

  // Text with no white space at either end.
  predicate Trimmed(s: string, spaces: Spaces) {
    s == "" || (!IsSpace(s[0], spaces) && !IsSpace(s[|s| - 1], spaces))
  }

  lemma StripTrims(s: string)
    ensures Trimmed(Strip(s), PythonSpaces)
  {
    var left := StripLeft(s, PythonSpaces);
    var r := StripRight(left, PythonSpaces);
    assert r != "" ==> r[0] == left[0];
  }

  lemma StripKeepsTrimmed(s: string)
    requires Trimmed(s, PythonSpaces)
    ensures Strip(s) == s
  {
  }

  lemma TrimKeepsTrimmed(s: string)
    requires Trimmed(s, GoSpaces)
    ensures TrimSpace(s) == s
  {
  }

  predicate AllSpaces(s: string, spaces: Spaces) { forall i :: 0 <= i < |s| ==> IsSpace(s[i], spaces) }

  // `core` is `s` without the white space at its ends, and nothing else.
  ghost predicate IsCore(core: string, s: string, spaces: Spaces) {
    Trimmed(core, spaces) && exists before, after ::
      AllSpaces(before, spaces) && AllSpaces(after, spaces) && s == before + core + after
  }

  lemma {:induction false} StripLeftCuts(s: string, spaces: Spaces)
    ensures AllSpaces(s[..|s| - |StripLeft(s, spaces)|], spaces)
  {
    if s != "" && IsSpace(s[0], spaces) {
      StripLeftCuts(s[1..], spaces);
      var n := |s| - |StripLeft(s, spaces)|;
      assert forall i :: 1 <= i < n ==> s[i] == s[1..][..n - 1][i - 1];
    }
  }

  lemma {:induction false} StripRightCuts(s: string, spaces: Spaces)
    ensures AllSpaces(s[|StripRight(s, spaces)|..], spaces)
  {
    if s != "" && IsSpace(s[|s| - 1], spaces) {
      var front, n := s[..|s| - 1], |StripRight(s, spaces)|;
      StripRightCuts(front, spaces);
      assert forall i :: 0 <= i < |s| - n - 1 ==> s[n..][i] == front[n..][i];
    }
  }

  lemma Cut(s: string, left: string, core: string)
    requires |left| <= |s| && left == s[|s| - |left|..] && |core| <= |left| && core == left[..|core|]
    ensures s == s[..|s| - |left|] + core + left[|core|..]
  {
    assert s == s[..|s| - |left|] + left && left == core + left[|core|..];
  }

  lemma CoreOfParts(before: string, core: string, after: string, s: string, spaces: Spaces)
    requires Trimmed(core, spaces) && AllSpaces(before, spaces) && AllSpaces(after, spaces) && s == before + core + after
    ensures IsCore(core, s, spaces)
  {
    hide Trimmed, AllSpaces;
  }

  lemma StripCore(s: string, spaces: Spaces)
    ensures IsCore(StripRight(StripLeft(s, spaces), spaces), s, spaces)
  {
    var left := StripLeft(s, spaces);
    var core := StripRight(left, spaces);
    StripLeftCuts(s, spaces);
    StripRightCuts(left, spaces);
    assert core != "" ==> core[0] == left[0];
    assert Trimmed(core, spaces);
    hide StripLeft, StripRight, AllSpaces, Trimmed, IsCore;
    Cut(s, left, core);
    CoreOfParts(s[..|s| - |left|], core, left[|core|..], s, spaces);
  }

  // Stripping and trimming take the white space off the ends, and nothing else.
  lemma StripIsCore(s: string)
    ensures IsCore(Strip(s), s, PythonSpaces) && IsCore(TrimSpace(s), s, GoSpaces)
  {
    StripCore(s, PythonSpaces);
    StripCore(s, GoSpaces);
    hide IsCore;
  }

  // A WireGuard key: 32 bytes in base64, 43 characters of the alphabet and one '='.
  predicate WireGuardKey(key: string) {
    |key| == 44 && key[43] == '=' && forall i :: 0 <= i < 43 ==> Base64Char(key[i])
  }

  predicate Base64Char(c: char) {
    'A' <= c <= 'Z' || 'a' <= c <= 'z' || IsDigit(c) || c == '+' || c == '/'
  }

  function UpperChar(c: char): char { if 'a' <= c <= 'z' then c - 'a' + 'A' else c }

  function LowerChar(c: char): char { if 'A' <= c <= 'Z' then c - 'A' + 'a' else c }

  function Upper(s: string): (r: string)
    ensures |r| == |s|
  {
    seq(|s|, i requires 0 <= i < |s| => UpperChar(s[i]))
  }

  function Lower(s: string): (r: string)
    ensures |r| == |s|
  {
    seq(|s|, i requires 0 <= i < |s| => LowerChar(s[i]))
  }

  // The last `n` characters, or all of them when there are fewer.
  function LastChars(s: string, n: nat): (r: string)
    ensures |r| == if |s| < n then |s| else n
  {
    if |s| < n then s else s[|s| - n..]
  }

  function Digit(c: char): (d: nat)
    requires IsDigit(c)
    ensures d < 10 && (d == 0 <==> c == '0')
  {
    c as nat - '0' as nat
  }

  datatype Radix = Ten | Sixteen

  // The value of a string of decimal digits, read in base ten or sixteen.
  function ValueIn(s: string, radix: Radix): nat
    requires OnlyDigits(s)
  {
    if s == "" then 0
    else
      var front, last := ValueIn(s[..|s| - 1], radix), s[|s| - 1];
      assert IsDigit(last);
      (if radix.Ten? then 10 * front else 16 * front) + Digit(last)
  }

  function Decimal(n: nat): (r: string)
    ensures AllDigits(r)
  {
    if n < 10 then [('0' as nat + n) as char] else Decimal(n / 10) + [('0' as nat + n % 10) as char]
  }

  lemma {:induction false} DecimalReadBack(n: nat)
    ensures ValueIn(Decimal(n), Ten) == n
  {
    if n >= 10 {
      DecimalReadBack(n / 10);
      assert Decimal(n)[..|Decimal(n)| - 1] == Decimal(n / 10);
    } else {
      assert Decimal(n)[..0] == "";
    }
  }

  function Power(b: nat, k: nat): nat {
    if k == 0 then 1 else b * Power(b, k - 1)
  }

  // Leading zeros add nothing to a numeral's value.
  lemma {:induction false} ValueZero(s: string, radix: Radix)
    requires OnlyDigits(s)
    ensures OnlyDigits("0" + s) && ValueIn("0" + s, radix) == ValueIn(s, radix)
  {
    var t := "0" + s;
    assert t[0] == '0' && forall k :: 0 < k < |t| ==> t[k] == s[k - 1];
    if s == "" {
      assert t == "0" && t[..0] == "";
    } else {
      ValueZero(s[..|s| - 1], radix);
      assert t[..|t| - 1] == "0" + s[..|s| - 1];
    }
  }

  // A digit string's value is below the power of its length, and reaches the power below that
  // unless it starts with a zero.
  lemma {:induction false} ValueBounds(s: string)
    requires AllDigits(s)
    ensures ValueIn(s, Sixteen) < Power(16, |s|)
    ensures s[0] != '0' ==> ValueIn(s, Sixteen) >= Power(16, |s| - 1)
  {
    if |s| > 1 {
      ValueBounds(s[..|s| - 1]);
    } else {
      assert s[..0] == "";
    }
  }

  lemma {:induction false} ValuePrepend(c: char, s: string)
    requires IsDigit(c) && forall i :: 0 <= i < |s| ==> IsDigit(s[i])
    ensures ValueIn(s, Ten) < Power(10, |s|)
    ensures ValueIn([c] + s, Ten) == Digit(c) * Power(10, |s|) + ValueIn(s, Ten)
  {
    var t, n := [c] + s, |s| - 1;
    if s == "" {
      assert t[..0] == "";
    } else {
      ValuePrepend(c, s[..n]);
      assert t[..|s|] == [c] + s[..n];
      TimesTen(Digit(c), Power(10, n));
    }
  }

  lemma TimesTen(d: nat, p: nat)
    ensures 10 * (d * p) == d * (10 * p)
  {
  }

  lemma TimesGrows(b: nat, p: nat)
    requires b >= 1
    ensures p <= b * p
  {
    assert b * p == p + (b - 1) * p;
  }

  lemma {:induction false} PowerGrows(b: nat, k: nat, m: nat)
    requires b >= 1 && k <= m
    ensures Power(b, k) <= Power(b, m)
    decreases m - k
  {
    if k < m {
      PowerGrows(b, k, m - 1);
      assert Power(b, m) == b * Power(b, m - 1);
      hide Power;
      TimesGrows(b, Power(b, m - 1));
    }
  }

  lemma LastSnoc(s: string, n: nat)
    requires s != "" && n > 0
    ensures LastChars(s, n) == LastChars(s[..|s| - 1], n - 1) + [s[|s| - 1]]
  {
  }

  lemma ValueSnoc(s: string, c: char)
    requires IsDigit(c) && OnlyDigits(s)
    ensures (OnlyDigits(s + [c])) && ValueIn(s + [c], Ten) == 10 * ValueIn(s, Ten) + Digit(c)
  {
    assert (s + [c])[..|s|] == s;
  }

  lemma ShiftIn(v: nat, q: nat, p: nat, w: nat, d: nat)
    requires v == q * p + w && w < p && d < 10
    ensures 10 * v + d == q * (10 * p) + (10 * w + d) && 10 * w + d < 10 * p
  {
    TimesTen(q, p);
  }

  lemma ValueOfLastStep(s: string, n: nat, q: nat, p: nat)
    requires s != "" && n > 0 && OnlyDigits(s)
    requires OnlyDigits(LastChars(s[..|s| - 1], n - 1))
    requires ValueIn(s[..|s| - 1], Ten) == q * p + ValueIn(LastChars(s[..|s| - 1], n - 1), Ten)
    requires ValueIn(LastChars(s[..|s| - 1], n - 1), Ten) < p
    ensures OnlyDigits(LastChars(s, n))
    ensures ValueIn(s, Ten) == q * (10 * p) + ValueIn(LastChars(s, n), Ten)
    ensures ValueIn(LastChars(s, n), Ten) < 10 * p
  {
    hide ValueIn, LastChars, IsDigit;
    var front, c := s[..|s| - 1], s[|s| - 1];
    assert s == front + [c];
    LastSnoc(s, n);
    ValueSnoc(front, c);
    ValueSnoc(LastChars(front, n - 1), c);
    ShiftIn(ValueIn(front, Ten), q, p, ValueIn(LastChars(front, n - 1), Ten), Digit(c));
  }

  // The last digits of a numeral are what remains of its value beyond a multiple of a power of ten.
  lemma {:induction false} ValueOfLast(s: string, n: nat) returns (q: nat)
    requires OnlyDigits(s)
    ensures OnlyDigits(LastChars(s, n))
    ensures ValueIn(s, Ten) == q * Power(10, n) + ValueIn(LastChars(s, n), Ten)
    ensures ValueIn(LastChars(s, n), Ten) < Power(10, n)
  {
    if n == 0 {
      q := ValueIn(s, Ten);
      assert LastChars(s, 0) == "";
    } else if s == "" {
      q := 0;
      hide Power;
      PowerPositive(10, n);
    } else {
      q := ValueOfLast(s[..|s| - 1], n - 1);
      assert Power(10, n) == 10 * Power(10, n - 1);
      hide ValueIn, LastChars, Power, IsDigit;
      ValueOfLastStep(s, n, q, Power(10, n - 1));
    }
  }

  lemma {:induction false} PowerPositive(b: nat, k: nat)
    requires b > 0
    ensures Power(b, k) > 0
  {
    if k > 0 {
      PowerPositive(b, k - 1);
    }
  }

  // Numerals of one length that have the same value are the same text.
  lemma {:induction false} ValueInjective(s: string, t: string, radix: Radix)
    requires AllDigits(s) && AllDigits(t) && |s| == |t| && ValueIn(s, radix) == ValueIn(t, radix)
    ensures s == t
  {
    var n := |s| - 1;
    assert s == s[..n] + [s[n]] && t == t[..n] + [t[n]];
    if n > 0 {
      ValueInjective(s[..n], t[..n], radix);
    }
  }
}
