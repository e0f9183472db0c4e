/** String building shared by the quote export: decimal rendering of
    non-negative integers (what a template literal `${n}` prints for them),
    `Array.prototype.join`, and the `replace(/\s+/g, rep)` used to build a
    file name. */
module Text {

  /** The character of decimal digit `d`. */
  function DigitChar(d: nat): (c: char)
    requires d < 10
    ensures '0' <= c <= '9'
    ensures (c as int) - ('0' as int) == d
  {
    (('0' as int) + d) as char
  }

  predicate IsDigit(c: char) {
    '0' <= c <= '9'
  }

  predicate IsDigits(s: string) {
    forall i :: 0 <= i < |s| ==> IsDigit(s[i])
  }

  /** The value of a string of decimal digits, read most significant digit first. */
  function DigitsValue(s: string): nat
    requires IsDigits(s)
  {
    if s == [] then 0
    else DigitsValue(s[..|s| - 1]) * 10 + ((s[|s| - 1] as int) - ('0' as int))
  }

  /** Decimal rendering of `n`: at least one digit, only digits, no leading zero. */
  function NatToString(n: nat): (s: string)
    ensures |s| >= 1 && IsDigits(s)
    ensures s[0] == '0' ==> n == 0
    ensures n < 10 <==> |s| == 1
    ensures CanonicalDigits(s)
  {
    if n < 10 then [DigitChar(n)]
    else NatToString(n / 10) + [DigitChar(n % 10)]
  }

  /** Reading back the decimal rendering gives the number: the rendering loses nothing. */
  lemma {:induction false} NatToStringRoundTrip(n: nat)
    ensures DigitsValue(NatToString(n)) == n
  {
    if n >= 10 {
      var s := NatToString(n / 10);
      NatToStringRoundTrip(n / 10);
      var t := s + [DigitChar(n % 10)];
      assert t[..|t| - 1] == s;
    }
  }

  /** Two different numbers never print the same. */
  lemma NatToStringInjective(a: nat, b: nat)
    ensures NatToString(a) == NatToString(b) ==> a == b
  {
    NatToStringRoundTrip(a);
    NatToStringRoundTrip(b);
  }

  /** A digit string as `${n}` prints one: non-empty, and starting with `0` only
      when it is the single digit `0`. */
  predicate CanonicalDigits(s: string) {
    |s| >= 1 && IsDigits(s) && (s[0] == '0' ==> |s| == 1)
  }

  /** A digit string that does not start with `0` has a positive value. */
  lemma {:induction false} LeadingDigitPositive(s: string)
    requires |s| >= 1 && IsDigits(s) && s[0] != '0'
    ensures DigitsValue(s) > 0
    decreases |s|
  {
    if |s| > 1 {
      LeadingDigitPositive(s[..|s| - 1]);
    }
  }

  /** The only canonical digit string of a value is its decimal rendering, so a
      contract that asks for canonical digits reading back as `n` pins the text
      down to `NatToString(n)`. */
  lemma {:induction false} CanonicalDigitsAreRendering(s: string)
    requires CanonicalDigits(s)
    ensures s == NatToString(DigitsValue(s))
    decreases |s|
  {
    if |s| > 1 {
      var p := s[..|s| - 1];
      var d := (s[|s| - 1] as int) - ('0' as int);
      LeadingDigitPositive(p);
      CanonicalDigitsAreRendering(p);
      var v := DigitsValue(s);
      assert v == DigitsValue(p) * 10 + d;
      assert v / 10 == DigitsValue(p) && v % 10 == d;
      assert DigitChar(d) == s[|s| - 1];
      assert s == p + [s[|s| - 1]];
    } else {
      assert DigitsValue(s) == DigitsValue(s[..0]) * 10 + ((s[0] as int) - ('0' as int));
      assert DigitChar(DigitsValue(s)) == s[0];
    }
  }

  /** `xs.join(sep)`. */
  function Join(sep: string, xs: seq<string>): (r: string)
    ensures |xs| == 0 ==> r == ""
    ensures |xs| == 1 ==> r == xs[0]
    ensures |xs| > 0 ==> |r| >= |xs[|xs| - 1]| && r[|r| - |xs[|xs| - 1]|..] == xs[|xs| - 1]
    ensures |xs| > 0 ==> |r| >= |xs[0]| && r[..|xs[0]|] == xs[0]
  {
    if |xs| == 0 then ""
    else if |xs| == 1 then xs[0]
    else xs[0] + sep + Join(sep, xs[1..])
  }

  /** A join ends with the last character of its last element. */
  lemma JoinLastChar(sep: string, xs: seq<string>)
    requires |xs| > 0 && |xs[|xs| - 1]| > 0
    ensures var r, last := Join(sep, xs), xs[|xs| - 1];
      |r| > 0 && r[|r| - 1] == last[|last| - 1]
  {
    var r, last := Join(sep, xs), xs[|xs| - 1];
    assert r[|r| - |last|..][|last| - 1] == r[|r| - 1];
  }

  /** Joining one more element appends the separator and that element: together
      with the empty and one-element cases this pins `join` down completely. */
  lemma {:induction false} JoinSnoc(sep: string, xs: seq<string>, x: string)
    requires |xs| > 0
    ensures Join(sep, xs + [x]) == Join(sep, xs) + sep + x
    decreases |xs|
  {
    var ys := xs + [x];
    assert ys[0] == xs[0];
    if |xs| == 1 {
      assert ys[1..] == [x];
    } else {
      var tail := xs[1..];
      assert ys[1..] == tail + [x];
      JoinSnoc(sep, tail, x);
      var rest := Join(sep, tail);
      assert Join(sep, ys) == xs[0] + sep + (rest + sep + x);
      assert Join(sep, xs) == xs[0] + sep + rest;
    }
  }

  /** The characters JavaScript's `\s` matches: the ECMAScript WhiteSpace and
      LineTerminator code points. */
  predicate IsJsWhitespace(c: char) {
    var k := c as int;
    k == 0x09 || k == 0x0A || k == 0x0B || k == 0x0C || k == 0x0D || k == 0x20
    || k == 0xA0 || k == 0x1680 || (0x2000 <= k <= 0x200A)
    || k == 0x2028 || k == 0x2029 || k == 0x202F || k == 0x205F || k == 0x3000 || k == 0xFEFF
  }

  predicate NoJsWhitespace(s: string) {
    forall i :: 0 <= i < |s| ==> !IsJsWhitespace(s[i])
  }

  /** `s` with its leading whitespace run removed. */
  function DropLeadingWhitespace(s: string): (r: string)
    ensures |r| <= |s| && r == s[|s| - |r|..]
    ensures r == [] || !IsJsWhitespace(r[0])
    ensures forall i :: 0 <= i < |s| - |r| ==> IsJsWhitespace(s[i])
  {
    if s != [] && IsJsWhitespace(s[0]) then DropLeadingWhitespace(s[1..]) else s
  }

  /** `s.replace(/\s+/g, [rep])`: every maximal run of whitespace becomes one `rep`. */
  function ReplaceWhitespaceRuns(s: string, rep: char): (r: string)
    ensures |r| <= |s|
    decreases |s|
  {
    if s == [] then []
    else if IsJsWhitespace(s[0]) then [rep] + ReplaceWhitespaceRuns(DropLeadingWhitespace(s), rep)
    else [s[0]] + ReplaceWhitespaceRuns(s[1..], rep)
  }

  /** `s` without the characters `keep` rejects. */
  function Keep(s: string, keep: char -> bool): (r: string)
    ensures |r| <= |s|
  {
    if s == [] then []
    else (if keep(s[0]) then [s[0]] else []) + Keep(s[1..], keep)
  }

  /** A replacement character that is not whitespace leaves no whitespace behind. */
  lemma {:induction false} ReplaceWhitespaceRunsRemovesWhitespace(s: string, rep: char)
    requires !IsJsWhitespace(rep)
    ensures NoJsWhitespace(ReplaceWhitespaceRuns(s, rep))
    decreases |s|
  {
    if s == [] {
    } else if IsJsWhitespace(s[0]) {
      ReplaceWhitespaceRunsRemovesWhitespace(DropLeadingWhitespace(s), rep);
    } else {
      ReplaceWhitespaceRunsRemovesWhitespace(s[1..], rep);
    }
  }

  /** A string without whitespace is left exactly as it is. */
  lemma {:induction false} ReplaceWhitespaceRunsIdentity(s: string, rep: char)
    requires NoJsWhitespace(s)
    ensures ReplaceWhitespaceRuns(s, rep) == s
    decreases |s|
  {
    if s != [] {
      assert !IsJsWhitespace(s[0]);
      ReplaceWhitespaceRunsIdentity(s[1..], rep);
    }
  }

  /** Nothing but whitespace is replaced: deleting the replacement character from
      the result gives `s` with its whitespace and that character deleted, in order. */
  lemma {:induction false} ReplaceWhitespaceRunsKeepsContent(s: string, rep: char)
    requires !IsJsWhitespace(rep)
    ensures Keep(ReplaceWhitespaceRuns(s, rep), c => c != rep)
         == Keep(s, c => !IsJsWhitespace(c) && c != rep)
    decreases |s|
  {
    if s == [] {
    } else if IsJsWhitespace(s[0]) {
      var d := DropLeadingWhitespace(s);
      ReplaceWhitespaceRunsKeepsContent(d, rep);
      KeepSkipsWhitespacePrefix(s, |s| - |d|, rep);
      assert s[|s| - |d|..] == d;
    } else {
      ReplaceWhitespaceRunsKeepsContent(s[1..], rep);
      assert ([s[0]] + ReplaceWhitespaceRuns(s[1..], rep))[1..] == ReplaceWhitespaceRuns(s[1..], rep);
    }
  }

  /** Dropping the leading whitespace of `a + b`, when `a` ends in a character
      that is not whitespace, touches only `a`. */
  lemma {:induction false} DropLeadingWhitespaceAppend(a: string, b: string)
    requires |a| > 0 && !IsJsWhitespace(a[|a| - 1])
    ensures DropLeadingWhitespace(a + b) == DropLeadingWhitespace(a) + b
    decreases |a|
  {
    var ab := a + b;
    assert ab[0] == a[0];
    if IsJsWhitespace(a[0]) {
      assert ab[1..] == a[1..] + b;
      DropLeadingWhitespaceAppend(a[1..], b);
    }
  }

  /** A whitespace run followed by a non-whitespace character (or nothing) is
      dropped entirely. */
  lemma {:induction false} DropWhitespaceRun(w: string, b: string)
    requires forall i :: 0 <= i < |w| ==> IsJsWhitespace(w[i])
    requires b == [] || !IsJsWhitespace(b[0])
    ensures DropLeadingWhitespace(w + b) == b
    decreases |w|
  {
    if w == [] {
      assert w + b == b;
    } else {
      var wb := w + b;
      assert wb[0] == w[0];
      assert wb[1..] == w[1..] + b;
      DropWhitespaceRun(w[1..], b);
    }
  }

  /** Cutting after a character that is not whitespace splits no run, so the
      replacement works on the two parts independently. */
  lemma {:induction false} ReplaceWhitespaceRunsAppend(a: string, b: string, rep: char)
    requires a == [] || !IsJsWhitespace(a[|a| - 1])
    ensures ReplaceWhitespaceRuns(a + b, rep) == ReplaceWhitespaceRuns(a, rep) + ReplaceWhitespaceRuns(b, rep)
    decreases |a|, 1
  {
    if a == [] {
      assert a + b == b;
    } else if IsJsWhitespace(a[0]) {
      AppendAfterWhitespace(a, b, rep);
    } else {
      AppendAfterCharacter(a, b, rep);
    }
  }

  /** `a` starts with a run: the run becomes `rep`, and the rest of `a` is split off. */
  lemma {:induction false} AppendAfterWhitespace(a: string, b: string, rep: char)
    requires a != [] && IsJsWhitespace(a[0]) && !IsJsWhitespace(a[|a| - 1])
    ensures ReplaceWhitespaceRuns(a + b, rep) == ReplaceWhitespaceRuns(a, rep) + ReplaceWhitespaceRuns(b, rep)
    decreases |a|, 0
  {
    var d := DropLeadingWhitespace(a);
    DropLeadingWhitespaceKeepsLast(a);
    DropLeadingWhitespaceAppend(a, b);
    ReplaceWhitespaceRunsAppend(d, b, rep);
    var ab := a + b;
    assert ab[0] == a[0];
    ReplaceWhitespaceHead(ab, rep);
    ReplaceWhitespaceHead(a, rep);
    ConcatAssoc([rep], ReplaceWhitespaceRuns(d, rep), ReplaceWhitespaceRuns(b, rep));
  }

  /** When `a` ends in a character that is not whitespace, dropping its leading
      run leaves that character last; a dropped run makes the string shorter. */
  lemma DropLeadingWhitespaceKeepsLast(a: string)
    requires a != [] && !IsJsWhitespace(a[|a| - 1])
    ensures var d := DropLeadingWhitespace(a);
      |d| > 0 && d[|d| - 1] == a[|a| - 1] && (IsJsWhitespace(a[0]) ==> |d| < |a|)
  {
    var d := DropLeadingWhitespace(a);
    assert d == a[|a| - |d|..];
    assert !IsJsWhitespace(a[|a| - 1]);
    assert |d| > 0;
  }

  /** `a` starts with an ordinary character: it is kept, and the rest of `a` is split off. */
  lemma {:induction false} AppendAfterCharacter(a: string, b: string, rep: char)
    requires a != [] && !IsJsWhitespace(a[0]) && !IsJsWhitespace(a[|a| - 1])
    ensures ReplaceWhitespaceRuns(a + b, rep) == ReplaceWhitespaceRuns(a, rep) + ReplaceWhitespaceRuns(b, rep)
    decreases |a|, 0
  {
    var c, tail := a[0], a[1..];
    assert a == [c] + tail;
    ConcatAssoc([c], tail, b);
    ReplaceWhitespaceRunsAppend(tail, b, rep);
    ReplaceCharacterHead(c, tail + b, rep);
    ReplaceCharacterHead(c, tail, rep);
    ConcatAssoc([c], ReplaceWhitespaceRuns(tail, rep), ReplaceWhitespaceRuns(b, rep));
  }

  lemma ReplaceCharacterHead(c: char, t: string, rep: char)
    requires !IsJsWhitespace(c)
    ensures ReplaceWhitespaceRuns([c] + t, rep) == [c] + ReplaceWhitespaceRuns(t, rep)
  {
    var s := [c] + t;
    assert s[0] == c && s[1..] == t;
  }

  lemma ReplaceWhitespaceHead(s: string, rep: char)
    requires s != [] && IsJsWhitespace(s[0])
    ensures ReplaceWhitespaceRuns(s, rep) == [rep] + ReplaceWhitespaceRuns(DropLeadingWhitespace(s), rep)
  {
  }

  /** One whitespace run, however long, between two parts becomes exactly one
      `rep`. */
  lemma ReplaceWhitespaceRunsOneRun(a: string, w: string, b: string, rep: char)
    requires a == [] || !IsJsWhitespace(a[|a| - 1])
    requires |w| > 0 && forall i :: 0 <= i < |w| ==> IsJsWhitespace(w[i])
    requires b == [] || !IsJsWhitespace(b[0])
    ensures ReplaceWhitespaceRuns(a + w + b, rep)
         == ReplaceWhitespaceRuns(a, rep) + [rep] + ReplaceWhitespaceRuns(b, rep)
  {
    ConcatAssoc(a, w, b);
    LeadingRun(w, b, rep);
    ReplaceWhitespaceRunsAppend(a, w + b, rep);
    ConcatAssoc(ReplaceWhitespaceRuns(a, rep), [rep], ReplaceWhitespaceRuns(b, rep));
  }

  lemma ConcatAssoc(x: string, y: string, z: string)
    ensures x + y + z == x + (y + z)
  {
  }

  /** A leading run becomes one `rep` in front of the rest. */
  lemma LeadingRun(w: string, b: string, rep: char)
    requires |w| > 0 && forall i :: 0 <= i < |w| ==> IsJsWhitespace(w[i])
    requires b == [] || !IsJsWhitespace(b[0])
    ensures ReplaceWhitespaceRuns(w + b, rep) == [rep] + ReplaceWhitespaceRuns(b, rep)
  {
    var wb := w + b;
    assert wb[0] == w[0];
    DropWhitespaceRun(w, b);
    ReplaceWhitespaceHead(wb, rep);
  }

  /** A whitespace prefix contributes nothing to the kept characters. */
  lemma {:induction false} KeepSkipsWhitespacePrefix(s: string, k: nat, rep: char)
    requires k <= |s|
    requires forall i :: 0 <= i < k ==> IsJsWhitespace(s[i])
    ensures Keep(s, c => !IsJsWhitespace(c) && c != rep) == Keep(s[k..], c => !IsJsWhitespace(c) && c != rep)
  {
    if k > 0 {
      KeepSkipsWhitespacePrefix(s[1..], k - 1, rep);
      assert s[1..][k - 1..] == s[k..];
    }
  }
}
