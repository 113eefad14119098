/** The java.lang.String operations the adapter relies on. */
module Strings {

  predicate StartsWith(s: string, prefix: string) {
    |prefix| <= |s| && s[..|prefix|] == prefix
  }

  /** Character.toLowerCase, restricted to the ASCII letters. */
  function LowerChar(c: char): char {
    if 'A' <= c <= 'Z' then (c as int + 32) as char else c
  }

  /** String.toLowerCase: every character lowered, the length kept. */
  function ToLower(s: string): (r: string)
    ensures |r| == |s|
    ensures forall i :: 0 <= i < |s| ==> r[i] == LowerChar(s[i])
  {
    if s == [] then [] else [LowerChar(s[0])] + ToLower(s[1..])
  }

  predicate OccursAt(s: string, t: string, k: nat) {
    k + |t| <= |s| && s[k..k + |t|] == t
  }

  /** String.replace(CharSequence, CharSequence): every occurrence of `target`,
      scanning left to right without overlap, is replaced by `replacement`. */
  function ReplaceAll(s: string, target: string, replacement: string): string
    requires |target| > 0
    decreases |s|
  {
    if |s| < |target| then s
    else if s[..|target|] == target then replacement + ReplaceAll(s[|target|..], target, replacement)
    else [s[0]] + ReplaceAll(s[1..], target, replacement)
  }

  /** A string without any occurrence of the target is left unchanged. */
  lemma {:induction false} ReplaceAbsent(s: string, target: string, replacement: string)
    requires |target| > 0
    requires forall k: nat :: !OccursAt(s, target, k)
    ensures ReplaceAll(s, target, replacement) == s
    decreases |s|
  {
    if |s| >= |target| {
      assert !OccursAt(s, target, 0);
      forall k: nat ensures !OccursAt(s[1..], target, k) {
        assert !OccursAt(s, target, k + 1);
      }
      ReplaceAbsent(s[1..], target, replacement);
    }
  }

  /** Replacing in a string whose first character cannot start the target. */
  lemma ReplaceSkip(s: string, target: string, replacement: string)
    requires |target| > 0 && |s| > 0 && s[0] != target[0]
    ensures ReplaceAll(s, target, replacement) == [s[0]] + ReplaceAll(s[1..], target, replacement)
  {
    if |s| >= |target| {
      assert s[..|target|][0] == s[0];
    }
  }

  /** Replacing in a string that starts with the target. */
  lemma ReplaceHit(target: string, rest: string, replacement: string)
    requires |target| > 0
    ensures ReplaceAll(target + rest, target, replacement) == replacement + ReplaceAll(rest, target, replacement)
  {
    var s := target + rest;
    assert s[..|target|] == target;
    assert s[|target|..] == rest;
  }

  /** A prefix none of whose characters can start the target is copied as it is. */
  lemma {:induction false} ReplaceSkipPrefix(prefix: string, t: string, target: string, replacement: string)
    requires |target| > 0 && target[0] !in prefix
    ensures ReplaceAll(prefix + t, target, replacement) == prefix + ReplaceAll(t, target, replacement)
    decreases |prefix|
  {
    if prefix == [] {
      assert prefix + t == t;
    } else {
      var s := prefix + t;
      assert s[0] == prefix[0];
      ReplaceSkip(s, target, replacement);
      assert s[1..] == prefix[1..] + t;
      ReplaceSkipPrefix(prefix[1..], t, target, replacement);
      var r := ReplaceAll(t, target, replacement);
      assert prefix == [prefix[0]] + prefix[1..];
      assert [prefix[0]] + (prefix[1..] + r) == prefix + r;
    }
  }

  /** A template whose only opening brace starts the placeholder: the text before
      the placeholder is kept and the placeholder is replaced. */
  lemma ReplacePlaceholder(prefix: string, target: string, suffix: string, replacement: string)
    requires |target| > 0 && target[0] == '{'
    requires '{' !in prefix
    ensures ReplaceAll(prefix + target + suffix, target, replacement)
            == prefix + replacement + ReplaceAll(suffix, target, replacement)
  {
    assert prefix + target + suffix == prefix + (target + suffix);
    ReplaceSkipPrefix(prefix, target + suffix, target, replacement);
    ReplaceHit(target, suffix, replacement);
  }

  /** Integer.toString of a non-negative value: decimal digits, no leading zero. */
  function NatToString(n: nat): (r: string)
    ensures |r| > 0
    ensures forall i :: 0 <= i < |r| ==> '0' <= r[i] <= '9'
    ensures |r| > 1 ==> r[0] != '0'
    decreases n
  {
    if n < 10 then [Digit(n)] else NatToString(n / 10) + [Digit(n % 10)]
  }

  function Digit(d: nat): (c: char)
    requires d < 10
    ensures '0' <= c <= '9'
  {
    ("0123456789")[d]
  }

  function IntToString(i: int): string {
    if i < 0 then "-" + NatToString(-i) else NatToString(i)
  }

  /** String.compareTo(a, b) < 0: lexicographic by character code, a proper
      prefix coming first. */
  predicate Less(a: string, b: string)
    decreases |a|
  {
    if a == [] then b != []
    else if b == [] then false
    else if a[0] != b[0] then a[0] < b[0]
    else Less(a[1..], b[1..])
  }

  lemma {:induction false} LessIrreflexive(a: string)
    ensures !Less(a, a)
    decreases |a|
  {
    if a != [] { LessIrreflexive(a[1..]); }
  }

  lemma {:induction false} LessTransitive(a: string, b: string, c: string)
    requires Less(a, b) && Less(b, c)
    ensures Less(a, c)
    decreases |a|
  {
    if a != [] && b != [] && c != [] && a[0] == b[0] && b[0] == c[0] {
      LessTransitive(a[1..], b[1..], c[1..]);
    }
  }

  /** Two different strings are ordered one way or the other. */
  lemma {:induction false} LessTotal(a: string, b: string)
    requires a != b
    ensures Less(a, b) || Less(b, a)
    decreases |a|
  {
    if a != [] && b != [] && a[0] == b[0] {
      assert a == [a[0]] + a[1..] && b == [b[0]] + b[1..];
      LessTotal(a[1..], b[1..]);
    }
  }

  lemma {:induction false} LessAsymmetric(a: string, b: string)
    requires Less(a, b)
    ensures !Less(b, a)
    decreases |a|
  {
    if a != [] && b != [] && a[0] == b[0] {
      LessAsymmetric(a[1..], b[1..]);
    }
  }
}
