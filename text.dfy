/**
 * The pieces of Go's `fmt` and `strings` packages that the core relies on:
 * `%d` and `%0<w>d` formatting of integers, reading decimal digits back,
 * `strings.TrimRight` with a cut set, and joining strings with a separator.
 */
module Text {

  import opened Wrappers

  predicate IsDigit(c: char) { '0' <= c <= '9' }

  predicate AllDigits(s: string) { forall i :: 0 <= i < |s| ==> IsDigit(s[i]) }

  function DigitChar(d: nat): char
    requires d < 10
  {
    ('0' as int + d) as char
  }

  function DigitValue(c: char): nat
    requires IsDigit(c)
  {
    c as int - '0' as int
  }

  function Pow10(w: nat): nat
  {
    if w == 0 then 1 else 10 * Pow10(w - 1)
  }

  /** The decimal digits of a non-negative integer, most significant first. */
  function NatString(n: nat): (s: string)
    ensures |s| >= 1 && AllDigits(s)
  {
    if n < 10 then [DigitChar(n)] else NatString(n / 10) + [DigitChar(n % 10)]
  }

  /** `fmt.Sprintf("%d", n)`. */
  function IntString(n: int): string
  {
    if n < 0 then "-" + NatString(-n) else NatString(n)
  }

  function Zeros(k: nat): (s: string)
    ensures |s| == k && AllDigits(s)
  {
    seq(k, _ => '0')
  }

  /** The digits of `n`, left-padded with zeros to at least `w` characters. */
  function PadNat(n: nat, w: nat): string
  {
    var ds := NatString(n);
    if |ds| < w then Zeros(w - |ds|) + ds else ds
  }

  /** `fmt.Sprintf("%0<w>d", n)`: the sign, when there is one, takes one column of the width. */
  function PadInt(n: int, w: nat): string
  {
    if n < 0 then "-" + PadNat(-n, if w > 0 then w - 1 else 0) else PadNat(n, w)
  }

  /** The number a string of decimal digits denotes. */
  function DigitsValue(s: string): nat
    requires AllDigits(s)
  {
    if s == [] then 0 else DigitsValue(s[..|s| - 1]) * 10 + DigitValue(s[|s| - 1])
  }

  /** The length of the longest prefix of `s` made of digits. */
  function SpanDigits(s: string): (k: nat)
    ensures k <= |s| && AllDigits(s[..k])
    ensures k < |s| ==> !IsDigit(s[k])
  {
    if s == [] || !IsDigit(s[0]) then 0
    else
      var k := 1 + SpanDigits(s[1..]);
      assert s[..k] == [s[0]] + s[1..][..k - 1];
      k
  }

  /** Reads a non-empty run of digits from the front of `s`. */
  function ReadNat(s: string): (r: Option<(nat, string)>)
    ensures r.Some? ==> |r.value.1| < |s|
  {
    var k := SpanDigits(s);
    if k == 0 then None else Some((DigitsValue(s[..k]), s[k..]))
  }

  /** Reads an optionally negative decimal integer from the front of `s`. */
  function ReadInt(s: string): (r: Option<(int, string)>)
    ensures r.Some? ==> |r.value.1| < |s|
  {
    var negative := |s| > 0 && s[0] == '-';
    match ReadNat(if negative then s[1..] else s)
    case None => None
    case Some((v, rest)) =>
      var n: int := if negative then -(v as int) else v;
      Some((n, rest))
  }

  /** `strings.TrimRight(s, cut)`: drops trailing characters that belong to `cut`. */
  function TrimRight(s: string, cut: set<char>): string
  {
    if s != [] && s[|s| - 1] in cut then TrimRight(s[..|s| - 1], cut) else s
  }

  /** The strings joined with `sep` between neighbours. */
  function Join(ss: seq<string>, sep: string): string
  {
    if ss == [] then ""
    else if |ss| == 1 then ss[0]
    else ss[0] + sep + Join(ss[1..], sep)
  }

  /** Every string followed by `sep`, as a loop doing `acc += s + sep` builds it. */
  function Terminated(ss: seq<string>, sep: string): string
  {
    if ss == [] then "" else ss[0] + sep + Terminated(ss[1..], sep)
  }

  // ---------------------------------------------------------------------
  // Lemmas

  lemma AppendAssoc(a: string, b: string, c: string)
    ensures (a + b) + c == a + (b + c)
  {
  }

  lemma DropPrefix(a: string, b: string)
    ensures (a + b)[|a|..] == b
  {
  }

  lemma {:induction false} NatStringValue(n: nat)
    ensures DigitsValue(NatString(n)) == n
  {
    if n >= 10 {
      NatStringValue(n / 10);
      var s := NatString(n);
      assert s[..|s| - 1] == NatString(n / 10);
    }
  }

  lemma {:induction false} NatStringShort(n: nat, w: nat)
    requires w >= 1 && n < Pow10(w)
    ensures |NatString(n)| <= w
  {
    if n >= 10 {
      assert w >= 2;
      assert (n / 10) * 10 <= n;
      NatStringShort(n / 10, w - 1);
    }
  }

  lemma {:induction false} ZerosValue(k: nat)
    ensures DigitsValue(Zeros(k)) == 0
  {
    if k > 0 {
      assert Zeros(k)[..k - 1] == Zeros(k - 1);
      ZerosValue(k - 1);
    }
  }

  /** Leading zeros do not change the value of a digit string. */
  lemma {:induction false} LeadingZerosValue(k: nat, ds: string)
    requires AllDigits(ds)
    ensures AllDigits(Zeros(k) + ds) && DigitsValue(Zeros(k) + ds) == DigitsValue(ds)
  {
    var s := Zeros(k) + ds;
    assert AllDigits(s) by {
      forall i | 0 <= i < |s| ensures IsDigit(s[i]) {
        if i < k { assert s[i] == Zeros(k)[i]; } else { assert s[i] == ds[i - k]; }
      }
    }
    if ds == [] {
      assert s == Zeros(k);
      ZerosValue(k);
    } else {
      var init := ds[..|ds| - 1];
      LeadingZerosValue(k, init);
      assert s[..|s| - 1] == Zeros(k) + init;
    }
  }

  /** `PadNat` has the width asked for when the number fits in it, and denotes the number. */
  lemma PadNatFacts(n: nat, w: nat)
    requires w >= 1 && n < Pow10(w)
    ensures |PadNat(n, w)| == w
    ensures AllDigits(PadNat(n, w)) && DigitsValue(PadNat(n, w)) == n
  {
    var ds := NatString(n);
    NatStringShort(n, w);
    NatStringValue(n);
    if |ds| < w {
      LeadingZerosValue(w - |ds|, ds);
    }
  }

  lemma PadNatDigits(n: nat, w: nat)
    ensures |PadNat(n, w)| >= 1 && AllDigits(PadNat(n, w))
    ensures DigitsValue(PadNat(n, w)) == n
  {
    var ds := NatString(n);
    NatStringValue(n);
    if |ds| < w {
      LeadingZerosValue(w - |ds|, ds);
    }
  }

  lemma {:induction false} SpanDigitsOf(ds: string, rest: string)
    requires AllDigits(ds)
    requires rest == [] || !IsDigit(rest[0])
    ensures SpanDigits(ds + rest) == |ds|
  {
    if ds != [] {
      assert (ds + rest)[1..] == ds[1..] + rest;
      SpanDigitsOf(ds[1..], rest);
    } else {
      assert ds + rest == rest;
    }
  }

  /** Reading digits back recovers the number up to the first non-digit. */
  lemma ReadNatOf(ds: string, rest: string)
    requires |ds| >= 1 && AllDigits(ds)
    requires rest == [] || !IsDigit(rest[0])
    ensures ReadNat(ds + rest) == Some((DigitsValue(ds), rest))
  {
    SpanDigitsOf(ds, rest);
    assert (ds + rest)[..|ds|] == ds;
    assert (ds + rest)[|ds|..] == rest;
  }

  /** `ReadInt` inverts `%d`. */
  lemma IntStringRoundTrip(n: int, rest: string)
    requires rest == [] || !IsDigit(rest[0])
    ensures ReadInt(IntString(n) + rest) == Some((n, rest))
  {
    var m: nat := if n < 0 then -n else n;
    var ds := NatString(m);
    var s := IntString(n) + rest;
    ReadNatOf(ds, rest);
    NatStringValue(m);
    if n < 0 {
      AppendAssoc("-", ds, rest);
      DropPrefix("-", ds + rest);
    } else {
      assert s[0] == ds[0] && IsDigit(ds[0]);
    }
  }

  /** Trimming a suffix made of cut characters stops at a kept character. */
  lemma {:induction false} TrimRightSuffix(a: string, b: string, cut: set<char>)
    requires a != [] && a[|a| - 1] !in cut
    requires forall i :: 0 <= i < |b| ==> b[i] in cut
    ensures TrimRight(a + b, cut) == a
  {
    if b == [] {
      assert a + b == a;
    } else {
      var b' := b[..|b| - 1];
      assert (a + b)[..|a + b| - 1] == a + b';
      TrimRightSuffix(a, b', cut);
    }
  }

  lemma {:induction false} TerminatedSnoc(ss: seq<string>, s: string, sep: string)
    ensures Terminated(ss + [s], sep) == Terminated(ss, sep) + s + sep
  {
    if ss == [] {
      assert ss + [s] == [s];
    } else {
      assert (ss + [s])[1..] == ss[1..] + [s];
      TerminatedSnoc(ss[1..], s, sep);
    }
  }

  lemma {:induction false} TerminatedJoin(ss: seq<string>, sep: string)
    requires |ss| >= 1
    ensures Terminated(ss, sep) == Join(ss, sep) + sep
  {
    if |ss| == 1 {
      assert ss[1..] == [];
    } else {
      TerminatedJoin(ss[1..], sep);
    }
  }
}
