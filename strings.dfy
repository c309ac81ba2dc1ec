/** The Python `str` operations the scripts rely on, over `seq<char>`. */
module Strings {

  /** `s.startswith(p)` */
  predicate StartsWith(s: string, p: string) {
    |p| <= |s| && s[..|p|] == p
  }

  /** `s.endswith(p)` */
  predicate EndsWith(s: string, p: string) {
    |p| <= |s| && s[|s| - |p|..] == p
  }

  /** p occurs in s at index k. */
  predicate OccursAt(s: string, p: string, k: int)
  {
    0 <= k <= |s| - |p| && s[k..k + |p|] == p
  }

  /** `p in s` for a string p */
  predicate Contains(s: string, p: string)
  {
    exists k :: 0 <= k <= |s| - |p| && OccursAt(s, p, k)
  }

  /** An occurrence at 0 is a prefix; a later one is an occurrence in the tail. */
  lemma OccursAtShift(s: string, p: string, k: int)
    ensures OccursAt(s, p, 0) <==> StartsWith(s, p)
    ensures 1 <= k ==> (OccursAt(s, p, k) <==> |s| > 0 && OccursAt(s[1..], p, k - 1))
  {
    if |p| <= |s| {
      assert s[0..0 + |p|] == s[..|p|];
    }
    if 1 <= k <= |s| - |p| {
      assert s[1..][k - 1..k - 1 + |p|] == s[k..k + |p|];
    }
  }

  /** p occurs in s either at its start or somewhere in its tail. */
  lemma ContainsStep(s: string, p: string)
    ensures Contains(s, p) <==> StartsWith(s, p) || (|s| > 0 && Contains(s[1..], p))
  {
    OccursAtShift(s, p, 0);
    if Contains(s, p) && !StartsWith(s, p) {
      var k :| 0 <= k <= |s| - |p| && OccursAt(s, p, k);
      OccursAtShift(s, p, k);
      assert OccursAt(s[1..], p, k - 1);
    }
    if |s| > 0 && Contains(s[1..], p) {
      var k :| 0 <= k <= |s[1..]| - |p| && OccursAt(s[1..], p, k);
      OccursAtShift(s, p, k + 1);
      assert OccursAt(s, p, k + 1);
    }
  }

  /** `s.find(p)`: the first index at which p occurs in s, or -1. */
  function Find(s: string, p: string): (k: int)
    decreases |s|
    ensures k == -1 <==> !Contains(s, p)
    ensures -1 <= k
    ensures 0 <= k ==> OccursAt(s, p, k) && forall i :: 0 <= i < k ==> !OccursAt(s, p, i)
  {
    ContainsStep(s, p);
    OccursAtShift(s, p, 0);
    if StartsWith(s, p) then 0
    else if |s| == 0 then -1
    else
      var r := Find(s[1..], p);
      if r < 0 then -1
      else
        FindShift(s, p, r);
        r + 1
  }

  lemma FindShift(s: string, p: string, r: nat)
    requires |s| > 0 && !StartsWith(s, p)
    requires OccursAt(s[1..], p, r) && forall i :: 0 <= i < r ==> !OccursAt(s[1..], p, i)
    ensures OccursAt(s, p, r + 1) && forall i :: 0 <= i < r + 1 ==> !OccursAt(s, p, i)
  {
    OccursAtShift(s, p, r + 1);
    forall i | 0 <= i < r + 1
      ensures !OccursAt(s, p, i)
    {
      OccursAtShift(s, p, i);
    }
  }

  /** The index of the first occurrence of c in s. */
  function IndexOf(s: string, c: char): (k: nat)
    requires c in s
    ensures k < |s| && s[k] == c && c !in s[..k]
  {
    if s[0] == c then 0
    else
      var r := IndexOf(s[1..], c);
      assert s[..r + 1] == [s[0]] + s[1..][..r];
      r + 1
  }

  /** `s.split(c)` for a one-character separator c: the maximal pieces between occurrences of c. */
  function Split(s: string, c: char): (parts: seq<string>)
    decreases |s|
    ensures |parts| >= 1
    ensures forall i :: 0 <= i < |parts| ==> c !in parts[i]
  {
    if c !in s then [s]
    else
      var k := IndexOf(s, c);
      [s[..k]] + Split(s[k + 1..], c)
  }

  /** `c.join(parts)` for a one-character separator c. */
  function Join(parts: seq<string>, c: char): string
  {
    if |parts| == 0 then ""
    else if |parts| == 1 then parts[0]
    else parts[0] + [c] + Join(parts[1..], c)
  }

  /** Joining the pieces of a split gives back the string. */
  lemma {:induction false} JoinSplit(s: string, c: char)
    ensures Join(Split(s, c), c) == s
    decreases |s|
  {
    if c in s {
      var k := IndexOf(s, c);
      var rest := Split(s[k + 1..], c);
      JoinSplit(s[k + 1..], c);
      assert Split(s, c) == [s[..k]] + rest;
      assert ([s[..k]] + rest)[1..] == rest;
      assert Join(Split(s, c), c) == s[..k] + [c] + Join(rest, c);
      assert s == s[..k] + [c] + s[k + 1..];
    }
  }

  /** Splitting a join of separator-free pieces gives back the pieces. */
  lemma {:induction false} SplitJoin(parts: seq<string>, c: char)
    requires |parts| >= 1
    requires forall i :: 0 <= i < |parts| ==> c !in parts[i]
    ensures Split(Join(parts, c), c) == parts
  {
    if |parts| > 1 {
      var rest := Join(parts[1..], c);
      SplitAtFirst(parts[0], c, rest);
      SplitJoin(parts[1..], c);
    }
  }

  /** A separator-free piece, the separator and a rest split into the piece and the rest's pieces. */
  lemma SplitAtFirst(head: string, c: char, rest: string)
    requires c !in head
    ensures Split(head + [c] + rest, c) == [head] + Split(rest, c)
  {
    var s := head + [c] + rest;
    assert s[|head|] == c;
    var k := IndexOf(s, c);
    assert s[..|head|] == head;
    assert s[k + 1..] == rest;
  }

  /** `s.replace(a, b)` for one-character a and b. */
  function Replace(s: string, a: char, b: char): (r: string)
    ensures |r| == |s|
    ensures forall i :: 0 <= i < |s| ==> r[i] == if s[i] == a then b else s[i]
  {
    seq(|s|, i requires 0 <= i < |s| => if s[i] == a then b else s[i])
  }

  predicate IsDigits(s: string) {
    forall i :: 0 <= i < |s| ==> '0' <= s[i] <= '9'
  }

  function DigitChar(d: nat): (c: char)
    requires d < 10
    ensures '0' <= c <= '9' && c as int - '0' as int == d
  {
    ('0' as int + d) as char
  }

  /** `str(n)` for a natural number: its decimal digits, most significant first. */
  function NatToString(n: nat): (s: string)
    ensures |s| >= 1 && IsDigits(s)
    decreases n
  {
    if n < 10 then [DigitChar(n)] else NatToString(n / 10) + [DigitChar(n % 10)]
  }

  /** `int(s)` for a string of decimal digits. */
  function ParseNat(s: string): nat
    requires IsDigits(s)
    decreases |s|
  {
    if |s| == 0 then 0 else ParseNat(s[..|s| - 1]) * 10 + (s[|s| - 1] as int - '0' as int)
  }

  lemma {:induction false} ParseNatToString(n: nat)
    ensures ParseNat(NatToString(n)) == n
    decreases n
  {
    if n >= 10 {
      var s := NatToString(n);
      assert s[..|s| - 1] == NatToString(n / 10);
      ParseNatToString(n / 10);
    }
  }

  /** `str(i)` for an integer: an optional '-' and the decimal digits. */
  function IntToString(i: int): (s: string)
    ensures IsInteger(s)
  {
    if i < 0 then "-" + NatToString(-i) else NatToString(i)
  }

  predicate IsInteger(s: string) {
    (|s| > 0 && s[0] == '-' && IsDigits(s[1..])) || IsDigits(s)
  }

  /** `int(s)` for a decimal integer literal. */
  function ParseInt(s: string): int
    requires IsInteger(s)
  {
    if |s| > 0 && s[0] == '-' then 0 - ParseNat(s[1..]) else ParseNat(s)
  }

  /** Decimal rendering is undone by parsing, and never contains a comma. */
  lemma IntToStringRoundTrip(i: int)
    ensures ParseInt(IntToString(i)) == i
    ensures ',' !in IntToString(i)
  {
    if i < 0 {
      assert ("-" + NatToString(-i))[1..] == NatToString(-i);
      ParseNatToString(-i);
    } else {
      ParseNatToString(i);
    }
  }
}
