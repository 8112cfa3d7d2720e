/**
 * The name under which an attachment's bytes are kept on disk:
 * `"ID" + pad8(email id) + "-" + pad8(attachment id) + sep + original name`, where
 * `pad8` is Python's `format(n, "08d")` on a non-negative id, and `sep` is `_` in the
 * manual job and `-` in the scheduled job.  The point of the scheme is that the two
 * numeric ids make the name unique; `StoredNameInjective` proves it is so.
 */
module StoredNames {

  predicate IsDigit(c: char) {
    '0' <= c <= '9'
  }

  predicate AllDigits(s: string) {
    forall i :: 0 <= i < |s| ==> IsDigit(s[i])
  }

  function DigitChar(d: nat): char
    requires d < 10
  {
    ('0' as int + d) as char
  }

  /** The decimal digits of `n`, without leading zeros (`str(n)`). */
  function Decimal(n: nat): (r: string)
    decreases n
  {
    if n < 10 then [DigitChar(n)] else Decimal(n / 10) + [DigitChar(n % 10)]
  }

  function Zeros(k: nat): (r: string)
    ensures |r| == k && AllDigits(r)
  {
    if k == 0 then [] else "0" + Zeros(k - 1)
  }

  /** `format(n, "0{width}d")`: left-padded with zeros to at least `width` digits. */
  function ZeroPad(n: nat, width: nat): (r: string) {
    var d := Decimal(n);
    if |d| < width then Zeros(width - |d|) + d else d
  }

  function Pad8(n: nat): string {
    ZeroPad(n, 8)
  }

  const ManualSeparator: char := '_'
  const ScheduledSeparator: char := '-'

  predicate IsSeparator(sep: char) {
    sep == ManualSeparator || sep == ScheduledSeparator
  }

  function StoredName(emailId: nat, attachmentId: nat, sep: char, original: string): string {
    "ID" + Pad8(emailId) + "-" + Pad8(attachmentId) + [sep] + original
  }

  /** The value of a string of decimal digits, read from the left. */
  function Value(s: string): nat
    requires AllDigits(s)
    decreases |s|
  {
    if s == [] then 0 else Value(s[..|s| - 1]) * 10 + (s[|s| - 1] as int - '0' as int)
  }

  lemma {:induction false} DecimalRoundTrip(n: nat)
    ensures AllDigits(Decimal(n)) && |Decimal(n)| > 0
    ensures Value(Decimal(n)) == n
    decreases n
  {
    if n >= 10 {
      DecimalRoundTrip(n / 10);
      var d := Decimal(n);
      assert d[..|d| - 1] == Decimal(n / 10);
    }
  }

  lemma {:induction false} LeadingZeroValue(s: string)
    requires AllDigits(s)
    ensures AllDigits("0" + s) && Value("0" + s) == Value(s)
    decreases |s|
  {
    if s != [] {
      var t := "0" + s;
      assert t[..|t| - 1] == "0" + s[..|s| - 1];
      LeadingZeroValue(s[..|s| - 1]);
    }
  }

  lemma {:induction false} ZerosThenValue(k: nat, s: string)
    requires AllDigits(s)
    ensures AllDigits(Zeros(k) + s) && Value(Zeros(k) + s) == Value(s)
    decreases k
  {
    if k > 0 {
      var rest := Zeros(k - 1) + s;
      ZerosThenValue(k - 1, s);
      assert Zeros(k) + s == "0" + rest;
      LeadingZeroValue(rest);
      assert Value("0" + rest) == Value(rest);
    } else {
      assert Zeros(k) + s == s;
    }
  }

  /** Padding keeps the value: reading `pad8(n)` back gives `n`. */
  lemma Pad8RoundTrip(n: nat)
    ensures AllDigits(Pad8(n)) && |Pad8(n)| >= 8
    ensures Value(Pad8(n)) == n
  {
    DecimalRoundTrip(n);
    var d := Decimal(n);
    if |d| < 8 {
      ZerosThenValue(8 - |d|, d);
    }
  }

  lemma CharAtJoin(d: string, c: char, r: string)
    ensures (d + [c] + r)[|d|] == c
    ensures forall k :: 0 <= k < |d| ==> (d + [c] + r)[k] == d[k]
  {
  }

  /** A run of digits followed by a non-digit is split at that non-digit only. */
  lemma SplitAtNonDigit(d1: string, c1: char, r1: string, d2: string, c2: char, r2: string)
    requires AllDigits(d1) && AllDigits(d2) && !IsDigit(c1) && !IsDigit(c2)
    requires d1 + [c1] + r1 == d2 + [c2] + r2
    ensures d1 == d2 && c1 == c2 && r1 == r2
  {
    var s := d1 + [c1] + r1;
    CharAtJoin(d1, c1, r1);
    CharAtJoin(d2, c2, r2);
    if |d1| != |d2| {
      assert false;
    }
    assert d1 == s[..|d1|] == d2;
    assert r1 == s[|d1| + 1..] == r2;
  }

  /** The part of a stored name after `ID`: the email id's digits, `-`, and the rest. */
  lemma StoredNameTail(e: nat, a: nat, sep: char, o: string)
    ensures StoredName(e, a, sep, o)[..2] == "ID"
    ensures StoredName(e, a, sep, o)[2..] == Pad8(e) + ['-'] + (Pad8(a) + [sep] + o)
  {
  }

  /**
   * Stored names are injective: equal names come from the same email id, the same
   * attachment id, the same separator and the same original name.  So distinct
   * attachment ids never share a file, in either job, and the two jobs' names never
   * collide with each other.
   */
  lemma StoredNameInjective(e1: nat, a1: nat, s1: char, o1: string, e2: nat, a2: nat, s2: char, o2: string)
    requires IsSeparator(s1) && IsSeparator(s2)
    requires StoredName(e1, a1, s1, o1) == StoredName(e2, a2, s2, o2)
    ensures e1 == e2 && a1 == a2 && s1 == s2 && o1 == o2
  {
    Pad8RoundTrip(e1);
    Pad8RoundTrip(e2);
    Pad8RoundTrip(a1);
    Pad8RoundTrip(a2);
    StoredNameTail(e1, a1, s1, o1);
    StoredNameTail(e2, a2, s2, o2);
    SplitAtNonDigit(Pad8(e1), '-', Pad8(a1) + [s1] + o1, Pad8(e2), '-', Pad8(a2) + [s2] + o2);
    SplitAtNonDigit(Pad8(a1), s1, o1, Pad8(a2), s2, o2);
    assert Value(Pad8(e1)) == Value(Pad8(e2));
    assert Value(Pad8(a1)) == Value(Pad8(a2));
  }
}
