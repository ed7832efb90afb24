/** String helpers the Ruby code gets from its core library: String#upcase,
    Integer#to_s with zero padding (as strftime pads), and String#split. */
module Text {

  // ---------------------------------------------------------------- upcase

  function UpcaseChar(c: char): char {
    if 'a' <= c <= 'z' then (c as int - 32) as char else c
  }

  /** String#upcase, restricted to ASCII letters. */
  function Upcase(s: string): (u: string)
    ensures |u| == |s|
    ensures forall i :: 0 <= i < |s| ==> u[i] == UpcaseChar(s[i])
  {
    seq(|s|, i requires 0 <= i < |s| => UpcaseChar(s[i]))
  }

  lemma UpcaseAppend(a: string, b: string)
    ensures Upcase(a + b) == Upcase(a) + Upcase(b)
  {
    assert forall i :: 0 <= i < |a + b| ==> Upcase(a + b)[i] == (Upcase(a) + Upcase(b))[i];
  }

  /** Upcasing neither adds nor removes a given non-letter character. */
  lemma UpcaseKeepsChar(s: string, c: char)
    requires !('a' <= c <= 'z') && !('A' <= c <= 'Z')
    ensures c in Upcase(s) <==> c in s
  {
    if c in s {
      var i :| 0 <= i < |s| && s[i] == c;
      assert Upcase(s)[i] == c;
    }
    if c in Upcase(s) {
      var i :| 0 <= i < |s| && Upcase(s)[i] == c;
      assert s[i] == c;
    }
  }

  /** A string without lower-case letters is its own upper case. */
  lemma UpcaseIdentity(s: string)
    requires forall i :: 0 <= i < |s| ==> !('a' <= s[i] <= 'z')
    ensures Upcase(s) == s
  {
  }

  // ---------------------------------------------------------------- decimal digits

  predicate IsDigit(c: char) {
    '0' <= c <= '9'
  }

  predicate AllDigits(s: string) {
    forall i :: 0 <= i < |s| ==> IsDigit(s[i])
  }

  function DigitChar(d: nat): (c: char)
    requires d < 10
    ensures IsDigit(c)
  {
    (48 + d) as char
  }

  function DigitValue(c: char): (d: nat)
    requires IsDigit(c)
    ensures d < 10
  {
    c as int - 48
  }

  /** Integer#to_s for a non-negative integer: decimal, no leading zero. */
  function NatToString(n: nat): (s: string)
    ensures |s| >= 1 && AllDigits(s)
    ensures n < 10 ==> |s| == 1
    ensures 10 <= n < 100 ==> |s| == 2
    decreases n
  {
    if n < 10 then [DigitChar(n)] else NatToString(n / 10) + [DigitChar(n % 10)]
  }

  /** The number a string of decimal digits denotes (leading zeros allowed). */
  function DigitsValue(s: string): nat
    requires AllDigits(s)
    decreases |s|
  {
    if s == [] then 0 else 10 * DigitsValue(s[..|s| - 1]) + DigitValue(s[|s| - 1])
  }

  lemma {:induction false} NatToStringValue(n: nat)
    ensures DigitsValue(NatToString(n)) == n
    decreases n
  {
    var s := NatToString(n);
    if n < 10 {
      assert s[..|s| - 1] == [];
    } else {
      assert s[..|s| - 1] == NatToString(n / 10);
      NatToStringValue(n / 10);
    }
  }

  function Zeros(n: nat): (z: string)
    ensures |z| == n && forall i :: 0 <= i < n ==> z[i] == '0'
  {
    seq(n, _ => '0')
  }

  lemma {:induction false} ZerosValue(n: nat)
    ensures DigitsValue(Zeros(n)) == 0
    decreases n
  {
    if n > 0 {
      assert Zeros(n)[..n - 1] == Zeros(n - 1);
      ZerosValue(n - 1);
    }
  }

  lemma {:induction false} LeadingZerosValue(n: nat, s: string)
    requires AllDigits(s)
    ensures AllDigits(Zeros(n) + s) && DigitsValue(Zeros(n) + s) == DigitsValue(s)
    decreases |s|
  {
    var t := Zeros(n) + s;
    if s == [] {
      assert t == Zeros(n);
      ZerosValue(n);
    } else {
      assert t[..|t| - 1] == Zeros(n) + s[..|s| - 1];
      LeadingZerosValue(n, s[..|s| - 1]);
    }
  }

  /** Left-pads a digit string with zeros to at least `width` characters. */
  function PadLeft(s: string, width: nat): (r: string)
  {
    if |s| >= width then s else Zeros(width - |s|) + s
  }

  /** `n` written in decimal and zero-padded to at least `width` digits, as
      strftime's %Y (width 4), %m and %d (width 2) and Date#to_s write it. */
  function Padded(n: nat, width: nat): (s: string)
    ensures AllDigits(s) && DigitsValue(s) == n
    ensures |s| >= width
    ensures n < 100 && width == 2 ==> |s| == 2
  {
    NatToStringValue(n);
    LeadingZerosValue(if |NatToString(n)| >= width then 0 else width - |NatToString(n)|, NatToString(n));
    PadLeft(NatToString(n), width)
  }

  /** Padding loses nothing: equal padded strings denote equal numbers. */
  lemma PaddedInjective(m: nat, n: nat, width: nat)
    requires Padded(m, width) == Padded(n, width)
    ensures m == n
  {
  }

  /** A string is the concatenation of its two halves at any split point. */
  lemma ConcatAt(a: string, b: string, whole: string)
    requires |whole| == |a| + |b| && whole[..|a|] == a && whole[|a|..] == b
    ensures a + b == whole
  {
    assert whole == whole[..|a|] + whole[|a|..];
  }

  // ---------------------------------------------------------------- separators

  /** If `c` occurs in neither `a` nor `a'`, then `a + [c] + b == a' + [c] + b'`
      can only split one way. */
  lemma FirstSeparator(a: string, b: string, a': string, b': string, c: char)
    requires c !in a && c !in a'
    requires a + [c] + b == a' + [c] + b'
    ensures a == a' && b == b'
  {
    var s := a + [c] + b;
    assert s[|a|] == c && s[|a'|] == c;
    assert |a| == |a'|;
    assert a == s[..|a|] == a';
    assert b == s[|a| + 1..] == b';
  }

  // ---------------------------------------------------------------- split

  /** Every piece of `s` between the leftmost, non-overlapping occurrences of
      `sep`, empty pieces included. */
  function SplitOn(s: string, sep: string): (parts: seq<string>)
    requires |sep| > 0
    ensures |parts| >= 1
    decreases |s|
  {
    if |s| < |sep| then [s]
    else if s[..|sep|] == sep then [""] + SplitOn(s[|sep|..], sep)
    else
      var rest := SplitOn(s[1..], sep);
      [[s[0]] + rest[0]] + rest[1..]
  }

  function DropTrailingEmpty(parts: seq<string>): (r: seq<string>)
    ensures |r| <= |parts| && r == parts[..|r|]
    ensures r != [] ==> r[|r| - 1] != ""
    ensures forall i :: |r| <= i < |parts| ==> parts[i] == ""
    decreases |parts|
  {
    if parts == [] then []
    else if parts[|parts| - 1] == "" then DropTrailingEmpty(parts[..|parts| - 1])
    else parts
  }

  /** String#split with a string pattern and no limit: trailing empty pieces
      are dropped. */
  function RubySplit(s: string, sep: string): seq<string>
    requires |sep| > 0
  {
    DropTrailingEmpty(SplitOn(s, sep))
  }

  lemma {:induction false} SplitOnWithoutSeparator(s: string, sep: string)
    requires |sep| > 0 && sep[0] !in s
    ensures SplitOn(s, sep) == [s]
    decreases |s|
  {
    if |s| >= |sep| {
      assert s[..|sep|][0] == s[0];
      assert s[0] in s;
      SplitOnWithoutSeparator(s[1..], sep);
      assert [s[0]] + s[1..] == s;
    }
  }

  lemma {:induction false} SplitOnAfterFirst(a: string, sep: string, b: string)
    requires |sep| > 0 && sep[0] !in a
    ensures SplitOn(a + sep + b, sep) == [a] + SplitOn(b, sep)
    decreases |a|
  {
    var s := a + sep + b;
    if a == [] {
      assert s == sep + b;
      assert s[..|sep|] == sep;
      assert s[|sep|..] == b;
    } else {
      assert s[0] == a[0] && a[0] in a;
      assert s[..|sep|][0] == a[0];
      assert s[1..] == a[1..] + sep + b;
      SplitOnAfterFirst(a[1..], sep, b);
      assert [a[0]] + a[1..] == a;
    }
  }

  /** Joining two pieces with `sep` and splitting again gives the pieces back,
      provided neither piece holds the separator's first character and the
      second piece is not empty. */
  lemma SplitJoinRoundTrip(a: string, sep: string, b: string)
    requires |sep| > 0 && sep[0] !in a && sep[0] !in b && b != ""
    ensures RubySplit(a + sep + b, sep) == [a, b]
  {
    SplitOnAfterFirst(a, sep, b);
    SplitOnWithoutSeparator(b, sep);
    assert SplitOn(a + sep + b, sep) == [a, b];
  }
}
