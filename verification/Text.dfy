/** The QString operations the daemon relies on: splitting into sections, removing
    every occurrence of a substring, printing in base 16 and parsing an integer. */
module Text {

  datatype Option<+T> = None | Some(value: T)

  /** The sections of `s` between occurrences of `c`, empty ones included. */
  function Split(s: string, c: char): (parts: seq<string>)
    ensures parts != []
  {
    if s == [] then [[]]
    else
      var rest := Split(s[1..], c);
      if s[0] == c then [[]] + rest else [[s[0]] + rest[0]] + rest[1..]
  }

  /** What one more character in front does to the sections. */
  function PrependChar(x: char, parts: seq<string>, c: char): seq<string>
    requires parts != []
  {
    if x == c then [[]] + parts else [[x] + parts[0]] + parts[1..]
  }

  lemma SplitCons(x: char, t: string, c: char)
    ensures Split([x] + t, c) == PrependChar(x, Split(t, c), c)
  {
    assert ([x] + t)[1..] == t;
  }

  lemma PrependConcat(x: char, front: seq<string>, back: seq<string>, c: char)
    requires front != []
    ensures PrependChar(x, front + back, c) == PrependChar(x, front, c) + back
  {
    assert (front + back)[1..] == front[1..] + back;
  }

  lemma {:induction false} SplitConcat(a: string, c: char, b: string)
    ensures Split(a + [c] + b, c) == Split(a, c) + Split(b, c)
  {
    if a == [] {
      assert a + [c] + b == [c] + b;
      SplitCons(c, b, c);
      assert Split(a, c) == [[]];
    } else {
      var tail := a[1..];
      SplitConcat(tail, c, b);
      SplitCons(a[0], tail, c);
      SplitCons(a[0], tail + [c] + b, c);
      hide Split;
      assert [a[0]] + tail == a && [a[0]] + (tail + [c] + b) == a + [c] + b;
      PrependConcat(a[0], Split(tail, c), Split(b, c), c);
    }
  }

  lemma {:induction false} SplitWhole(s: string, c: char)
    requires c !in s
    ensures Split(s, c) == [s]
  {
    if s != [] {
      SplitWhole(s[1..], c);
      assert s[0] != c;
      assert [s[0]] + s[1..] == s;
    }
  }

  /** section(c, -1): what follows the last separator. */
  function LastSection(s: string, c: char): string {
    var parts := Split(s, c);
    parts[|parts| - 1]
  }

  /** section(c, -3, -3): empty when there are fewer than three sections. */
  function ThirdLastSection(s: string, c: char): string {
    var parts := Split(s, c);
    if |parts| < 3 then [] else parts[|parts| - 3]
  }

  /** The first element that is not empty; empty when there is none. */
  function FirstNonEmpty(parts: seq<string>): string {
    if parts == [] then [] else if parts[0] != [] then parts[0] else FirstNonEmpty(parts[1..])
  }

  lemma LastSectionOf(a: string, c: char, b: string)
    requires c !in b
    ensures LastSection(a + [c] + b, c) == b
  {
    SplitConcat(a, c, b);
    SplitWhole(b, c);
  }

  /** No section contains the separator. */
  lemma {:induction false} SectionsAreClean(s: string, c: char)
    ensures forall i :: 0 <= i < |Split(s, c)| ==> c !in Split(s, c)[i]
  {
    if s != [] {
      SectionsAreClean(s[1..], c);
      var rest := Split(s[1..], c);
      forall i | 0 <= i < |Split(s, c)| ensures c !in Split(s, c)[i] {
        if s[0] == c {
          assert i > 0 ==> Split(s, c)[i] == rest[i - 1];
        } else {
          assert i > 0 ==> Split(s, c)[i] == rest[i];
        }
      }
    }
  }

  lemma {:induction false} FirstNonEmptyIsSection(parts: seq<string>)
    ensures FirstNonEmpty(parts) == [] || FirstNonEmpty(parts) in parts
  {
    if parts != [] && parts[0] == [] {
      FirstNonEmptyIsSection(parts[1..]);
    }
  }

  /** QString::remove(p): occurrences are removed from left to right; an empty `p` removes nothing. */
  function RemoveAll(s: string, p: string): string
    decreases |s|
  {
    if p == [] || |s| < |p| then s
    else if s[..|p|] == p then RemoveAll(s[|p|..], p)
    else [s[0]] + RemoveAll(s[1..], p)
  }

  predicate OccursAt(s: string, p: string, i: int) {
    0 <= i && i + |p| <= |s| && s[i..i + |p|] == p
  }

  ghost predicate Occurs(s: string, p: string) {
    exists i :: OccursAt(s, p, i)
  }

  lemma {:induction false} RemoveNothing(s: string, p: string)
    requires !Occurs(s, p)
    ensures RemoveAll(s, p) == s
  {
    if p != [] && |s| >= |p| {
      assert !OccursAt(s, p, 0);
      forall i ensures !OccursAt(s[1..], p, i) {
        assert !OccursAt(s, p, i + 1);
        if 0 <= i && i + |p| <= |s| - 1 {
          assert s[1..][i..i + |p|] == s[i + 1..i + 1 + |p|];
        }
      }
      RemoveNothing(s[1..], p);
    }
  }

  lemma RemovePrefix(p: string, rest: string)
    requires p != [] && !Occurs(rest, p)
    ensures RemoveAll(p + rest, p) == rest
  {
    assert (p + rest)[..|p|] == p && (p + rest)[|p|..] == rest;
    RemoveNothing(rest, p);
  }

  /** `prefix` occurs in `path` at the start and nowhere after it. */
  ghost predicate CleanPath(prefix: string, path: string) {
    prefix != [] && prefix <= path && !Occurs(path[|prefix|..], prefix)
  }

  /** Removing the prefix from paths that contain it once loses nothing. */
  lemma CleanPathsDiffer(prefix: string, path: string, path': string)
    requires CleanPath(prefix, path) && CleanPath(prefix, path')
    requires RemoveAll(path, prefix) == RemoveAll(path', prefix)
    ensures path == path'
  {
    assert path == prefix + path[|prefix|..] && path' == prefix + path'[|prefix|..];
    RemovePrefix(prefix, path[|prefix|..]);
    RemovePrefix(prefix, path'[|prefix|..]);
  }

  function HexDigit(d: nat): char
    requires d < 16
  {
    if d < 10 then '0' + d as char else 'a' + (d - 10) as char
  }

  /** QString::number(n, 16) of a non-negative number. */
  function Hex(n: nat): string {
    if n < 16 then [HexDigit(n)] else Hex(n / 16) + [HexDigit(n % 16)]
  }

  function HexValue(c: char): nat {
    if '0' <= c <= '9' then (c - '0') as nat
    else if 'a' <= c <= 'f' then (c - 'a') as nat + 10
    else 0
  }

  function FromHex(s: string): nat {
    if s == [] then 0 else FromHex(s[..|s| - 1]) * 16 + HexValue(s[|s| - 1])
  }

  lemma HexDigitRoundTrip(d: nat)
    requires d < 16
    ensures HexValue(HexDigit(d)) == d && HexDigit(d) != '#'
  {
  }

  /** Printing in base 16 loses nothing, and never prints a '#'. */
  lemma {:induction false} HexRoundTrip(n: nat)
    ensures FromHex(Hex(n)) == n && '#' !in Hex(n)
  {
    HexDigitRoundTrip(n % 16);
    if n >= 16 {
      HexRoundTrip(n / 16);
      var h := Hex(n / 16);
      assert Hex(n)[..|Hex(n)| - 1] == h;
    } else {
      assert Hex(n)[..0] == [];
    }
  }

  /** Two strings joined by a separator that the second part lacks split in only one way. */
  lemma JoinInjective(a: string, b: string, a': string, b': string, c: char)
    requires c !in b && c !in b'
    requires a + [c] + b == a' + [c] + b'
    ensures a == a' && b == b'
  {
    var s := a + [c] + b;
    assert s[|a|] == c && s[|a'|] == c;
    assert forall i :: |a| < i < |s| ==> s[i] == b[i - |a| - 1];
    assert forall i :: |a'| < i < |s| ==> s[i] == b'[i - |a'| - 1];
    assert |a| == |a'|;
    assert a == s[..|a|] && a' == s[..|a|];
    assert b == s[|a| + 1..] && b' == s[|a| + 1..];
  }

  predicate IsDigit(c: char) { '0' <= c <= '9' }

  predicate IsBlank(c: char) { c == ' ' || '\t' <= c <= '\r' }

  function Trim(s: string): string
    decreases |s|
  {
    if s == [] then s
    else if IsBlank(s[0]) then Trim(s[1..])
    else if IsBlank(s[|s| - 1]) then Trim(s[..|s| - 1])
    else s
  }

  predicate AllDigits(s: string) {
    forall i :: 0 <= i < |s| ==> IsDigit(s[i])
  }

  function Decimal(s: string): nat
    requires AllDigits(s)
  {
    if s == [] then 0
    else
      assert IsDigit(s[|s| - 1]);
      Decimal(s[..|s| - 1]) * 10 + (s[|s| - 1] - '0') as nat
  }

  const INT_MIN: int := -0x8000_0000
  const INT_MAX: int := 0x7FFF_FFFF

  /** QString::toInt in base 10: blanks around it, one optional sign, digits, and the 32-bit range. */
  function ToInt(s: string): Option<int> {
    var t := Trim(s);
    var negative := t != [] && t[0] == '-';
    var digits := if t != [] && (t[0] == '-' || t[0] == '+') then t[1..] else t;
    if digits == [] || !AllDigits(digits) then None
    else
      var n := (if negative then -1 else 1) * Decimal(digits);
      if INT_MIN <= n <= INT_MAX then Some(n) else None
  }

  function Join(parts: seq<string>, c: char): string
    requires parts != []
  {
    if |parts| == 1 then parts[0] else parts[0] + [c] + Join(parts[1..], c)
  }

  lemma {:induction false} JoinSplit(s: string, c: char)
    ensures Join(Split(s, c), c) == s
  {
    if s != [] {
      JoinSplit(s[1..], c);
      var rest, parts := Split(s[1..], c), Split(s, c);
      if s[0] == c {
        assert parts[1..] == rest;
        assert Join(parts, c) == [] + [c] + Join(rest, c);
      } else {
        assert parts[1..] == rest[1..];
        assert Join(parts, c) == [s[0]] + Join(rest, c);
      }
      assert s == [s[0]] + s[1..];
    }
  }

  /** Exactly two sections: one separator between two strings that have none. */
  lemma SplitInTwo(s: string, c: char, a: string, b: string)
    ensures Split(s, c) == [a, b] <==> s == a + [c] + b && c !in a && c !in b
  {
    if Split(s, c) == [a, b] {
      JoinSplit(s, c);
      SectionsAreClean(s, c);
      assert [a, b][0] == a && [a, b][1] == b && [a, b][1..] == [b];
    }
    if s == a + [c] + b && c !in a && c !in b {
      SplitConcat(a, c, b);
      SplitWhole(a, c);
      SplitWhole(b, c);
    }
  }

  /** QString::number(n) of a non-negative number. */
  function Digits(n: nat): string {
    if n < 10 then ['0' + n as char] else Digits(n / 10) + ['0' + (n % 10) as char]
  }

  lemma {:induction false} DigitsAreDecimal(n: nat)
    ensures Digits(n) != [] && forall i :: 0 <= i < |Digits(n)| ==> IsDigit(Digits(n)[i])
    ensures Decimal(Digits(n)) == n
  {
    if n >= 10 {
      DigitsAreDecimal(n / 10);
      assert Digits(n)[..|Digits(n)| - 1] == Digits(n / 10);
    }
  }

  /** A printed number reads back as itself, if it has at most 31 bits. */
  lemma NumberRoundTrip(n: nat)
    ensures ToInt(Digits(n)) == if n < 0x8000_0000 then Some(n) else None
  {
    DigitsAreDecimal(n);
    var s := Digits(n);
    assert IsDigit(s[0]) && IsDigit(s[|s| - 1]);
    assert Trim(s) == s;
  }

  /** So does a negative one. */
  lemma NegativeRoundTrip(n: nat)
    ensures var m := 0 - n; ToInt("-" + Digits(n)) == if m >= -0x8000_0000 then Some(m) else None
  {
    DigitsAreDecimal(n);
    var s := "-" + Digits(n);
    assert s[1..] == Digits(n) && s[|s| - 1] == Digits(n)[|Digits(n)| - 1];
    assert IsDigit(s[|s| - 1]) && Trim(s) == s;
  }

  lemma {:induction false} TrimKeepsInside(s: string, i: nat) returns (j: nat)
    requires i < |s| && !IsBlank(s[i])
    ensures j < |Trim(s)| && Trim(s)[j] == s[i]
    decreases |s|
  {
    if IsBlank(s[0]) {
      j := TrimKeepsInside(s[1..], i - 1);
    } else if IsBlank(s[|s| - 1]) {
      j := TrimKeepsInside(s[..|s| - 1], i);
    } else {
      j := i;
    }
  }

  lemma NonDigit(s: string, i: nat)
    requires i < |s| && !IsDigit(s[i])
    ensures !AllDigits(s)
  {
  }

  /** A string with any other character than digits, signs and blanks is not a number, nor is the empty one. */
  lemma NotANumber(s: string)
    requires s == [] || exists i :: 0 <= i < |s| && !IsDigit(s[i]) && !IsBlank(s[i]) && s[i] != '-' && s[i] != '+'
    ensures ToInt(s) == None
  {
    if s != [] {
      var i :| 0 <= i < |s| && !IsDigit(s[i]) && !IsBlank(s[i]) && s[i] != '-' && s[i] != '+';
      var j := TrimKeepsInside(s, i);
      var t := Trim(s);
      if t[0] == '-' || t[0] == '+' {
        NonDigit(t[1..], j - 1);
      } else {
        NonDigit(t, j);
      }
    }
  }
}
