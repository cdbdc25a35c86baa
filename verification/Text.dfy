/** Strings as the tools use them: numerals, splitting and joining on a
    separator, newline-terminated lines, and the order strings sort in. */
module Text {

  datatype Option<+T> = None | Some(value: T)

  // ---------------------------------------------------------------------
  // Numerals
  // ---------------------------------------------------------------------

  /** The digits of n, most significant first, with no leading zero. */
  function Digits(n: nat, radix: nat): (ds: seq<nat>)
    requires radix >= 2
    ensures IsNumeral(ds, radix) && (n > 0 ==> ds[0] > 0)
  {
    if n < radix then [n] else
    (DivSmaller(n, radix); Digits(n / radix, radix) + [n % radix])
  }

  lemma DivSmaller(n: nat, radix: nat)
    requires n >= radix >= 2
    ensures 0 < n / radix < n
  {
    DivModIdentity(n, radix);
    MulGrows(n / radix - 1, radix);
  }

  function Value(ds: seq<nat>, radix: nat): nat {
    if ds == [] then 0 else Value(ds[..|ds| - 1], radix) * radix + ds[|ds| - 1]
  }

  predicate IsNumeral(ds: seq<nat>, radix: nat) {
    && ds != []
    && (forall k :: 0 <= k < |ds| ==> ds[k] < radix)
    && (ds[0] == 0 ==> |ds| == 1)
  }

  lemma {:induction false} ValueOfDigits(n: nat, radix: nat)
    requires radix >= 2
    ensures Value(Digits(n, radix), radix) == n
  {
    if n < radix {
      assert Digits(n, radix)[..0] == [];
    } else {
      DivSmaller(n, radix);
      ValueOfDigits(n / radix, radix);
      ValueSnoc(Digits(n / radix, radix), n % radix, radix);
      DivModIdentity(n, radix);
    }
  }

  lemma ValueSnoc(ds: seq<nat>, d: nat, radix: nat)
    ensures Value(ds + [d], radix) == Value(ds, radix) * radix + d
  {
    assert (ds + [d])[..|ds|] == ds;
  }

  lemma {:induction false} ValuePositive(ds: seq<nat>, radix: nat)
    requires IsNumeral(ds, radix) && ds[0] != 0
    ensures Value(ds, radix) > 0
    decreases |ds|
  {
    if |ds| > 1 {
      ValuePositive(ds[..|ds| - 1], radix);
      MulGrows(Value(ds[..|ds| - 1], radix), radix);
    }
  }

  lemma DivMod(q: nat, radix: nat, d: nat)
    requires d < radix
    ensures (q * radix + d) / radix == q && (q * radix + d) % radix == d
  {
    var n := q * radix + d;
    DivModIdentity(n, radix);
    var k := q - n / radix;
    assert k * radix == n % radix - d;
    MulGrows(k, radix);
  }

  lemma DivModIdentity(n: nat, radix: nat)
    requires radix > 0
    ensures n == (n / radix) * radix + n % radix
  {
  }

  lemma MulGrows(k: int, radix: nat)
    ensures k > 0 ==> k * radix >= radix
    ensures k < 0 ==> k * radix <= -(radix as int)
  {
  }

  lemma {:induction false} DigitsOfValue(ds: seq<nat>, radix: nat)
    requires radix >= 2 && IsNumeral(ds, radix)
    ensures Digits(Value(ds, radix), radix) == ds
    decreases |ds|
  {
    var front, d := ds[..|ds| - 1], ds[|ds| - 1];
    var q := Value(front, radix);
    if |ds| == 1 {
      assert ds == [d];
    } else {
      ValuePositive(front, radix);
      DigitsOfValue(front, radix);
      DivMod(q, radix, d);
      MulGrows(q, radix);
      assert ds == front + [d];
    }
  }

  function DigitChar(d: nat): (c: char)
    requires d < 16
  {
    "0123456789abcdef"[d]
  }

  /** The digit a character stands for, 16 when it is no digit. */
  function CharDigit(c: char): (d: nat)
    ensures d <= 16
    ensures d < 16 ==> DigitChar(d) == c
  {
    if '0' <= c <= '9' then (c - '0') as nat
    else if 'a' <= c <= 'f' then (c - 'a') as nat + 10
    else 16
  }

  lemma CharOfDigit(d: nat)
    requires d < 16
    ensures CharDigit(DigitChar(d)) == d
    ensures DigitChar(d) != '\n' && DigitChar(d) != ' ' && DigitChar(d) != 'x' && DigitChar(d) != 'S'
    ensures DigitChar(d) != '.' && DigitChar(d) != '_'
  {
  }

  /** The numeral of n: str(n) for radix 10, '%x' % n for radix 16. */
  function Numeral(n: nat, radix: nat): (s: string)
    requires 2 <= radix <= 16
    ensures s != []
  {
    var ds := Digits(n, radix);
    seq(|ds|, k requires 0 <= k < |ds| => DigitChar(ds[k]))
  }

  function DigitsOf(s: string): (ds: seq<nat>)
    ensures |ds| == |s|
  {
    seq(|s|, k requires 0 <= k < |s| => CharDigit(s[k]))
  }

  /** The number a numeral without leading zeros stands for. */
  function ParseNumeral(s: string, radix: nat): Option<nat>
    requires 2 <= radix <= 16
  {
    if IsNumeral(DigitsOf(s), radix) then Some(Value(DigitsOf(s), radix)) else None
  }

  lemma ParseOfNumeral(n: nat, radix: nat)
    requires 2 <= radix <= 16
    ensures ParseNumeral(Numeral(n, radix), radix) == Some(n)
    ensures forall c :: c in Numeral(n, radix) ==> CharDigit(c) < radix
    ensures forall c :: c in Numeral(n, radix) ==> c !in ['\n', ' ', 'x', 'S', '.', '_']
  {
    var ds, s := Digits(n, radix), Numeral(n, radix);
    forall k | 0 <= k < |s|
      ensures CharDigit(s[k]) == ds[k] && s[k] !in ['\n', ' ', 'x', 'S', '.', '_']
    {
      CharOfDigit(ds[k]);
    }
    assert DigitsOf(s) == ds;
    ValueOfDigits(n, radix);
  }

  lemma NumeralOfParse(s: string, radix: nat)
    requires 2 <= radix <= 16 && ParseNumeral(s, radix).Some?
    ensures Numeral(ParseNumeral(s, radix).value, radix) == s
  {
    DigitsOfValue(DigitsOf(s), radix);
  }

  // ---------------------------------------------------------------------
  // Sequences
  // ---------------------------------------------------------------------

  predicate StartsWith(s: string, prefix: string) {
    |prefix| <= |s| && s[..|prefix|] == prefix
  }

  lemma Assoc<T>(a: seq<T>, b: seq<T>, c: seq<T>)
    ensures a + b + c == a + (b + c)
  {
  }

  lemma Regroup4<T>(a: seq<T>, b: seq<T>, c: seq<T>, d: seq<T>)
    ensures a + (b + (c + d)) == a + b + c + d
  {
  }

  // ---------------------------------------------------------------------
  // Splitting and joining
  // ---------------------------------------------------------------------

  /** The fields of s between separators, as str.split(sep) gives them. */
  function Split(s: string, sep: char): (fields: seq<string>)
    ensures fields != []
    ensures forall k :: 0 <= k < |fields| ==> sep !in fields[k]
  {
    if s == [] then [[]]
    else
      var rest := Split(s[1..], sep);
      if s[0] == sep then [[]] + rest else [[s[0]] + rest[0]] + rest[1..]
  }

  function Join(fields: seq<string>, sep: char): string
    requires fields != []
  {
    if |fields| == 1 then fields[0] else fields[0] + [sep] + Join(fields[1..], sep)
  }

  lemma {:induction false} JoinOfSplit(s: string, sep: char)
    ensures Join(Split(s, sep), sep) == s
    decreases |s|
  {
    if s != [] {
      var rest := Split(s[1..], sep);
      JoinOfSplit(s[1..], sep);
      if s[0] == sep {
        assert ([[]] + rest)[1..] == rest;
      } else {
        assert Split(s, sep)[1..] == rest[1..];
      }
    }
  }

  lemma {:induction false} SplitField(f: string, sep: char, tail: string)
    requires sep !in f
    ensures Split(f + [sep] + tail, sep) == [f] + Split(tail, sep)
    decreases |f|
  {
    var s := f + [sep] + tail;
    if f == [] {
      assert s[1..] == tail;
    } else {
      assert s[1..] == f[1..] + [sep] + tail;
      SplitField(f[1..], sep, tail);
      assert f == [f[0]] + f[1..];
    }
  }

  lemma {:induction false} SplitPlain(f: string, sep: char)
    requires sep !in f
    ensures Split(f, sep) == [f]
    decreases |f|
  {
    if f != [] {
      SplitPlain(f[1..], sep);
      assert f == [f[0]] + f[1..];
    }
  }

  lemma {:induction false} SplitOfJoin(fields: seq<string>, sep: char)
    requires fields != [] && forall k :: 0 <= k < |fields| ==> sep !in fields[k]
    ensures Split(Join(fields, sep), sep) == fields
    decreases |fields|
  {
    if |fields| == 1 {
      SplitPlain(fields[0], sep);
    } else {
      SplitOfJoin(fields[1..], sep);
      SplitField(fields[0], sep, Join(fields[1..], sep));
    }
  }

  // ---------------------------------------------------------------------
  // White space
  // ---------------------------------------------------------------------

  predicate IsSpace(c: char) {
    c == ' ' || c == '\t' || c == '\n' || c == '\r'
  }

  function LStrip(s: string): (r: string)
    ensures |r| <= |s|
    ensures r != [] ==> !IsSpace(r[0])
  {
    if s != [] && IsSpace(s[0]) then LStrip(s[1..]) else s
  }

  function RStrip(s: string): string {
    if s != [] && IsSpace(s[|s| - 1]) then RStrip(s[..|s| - 1]) else s
  }

  function Strip(s: string): string {
    RStrip(LStrip(s))
  }

  predicate AllSpace(s: string) {
    forall k :: 0 <= k < |s| ==> IsSpace(s[k])
  }

  /** Nothing to strip. */
  predicate IsStripped(s: string) {
    s == "" || (!IsSpace(s[0]) && !IsSpace(s[|s| - 1]))
  }

  lemma {:induction false} LStripExactly(a: string, s: string)
    requires AllSpace(a) && (s == "" || !IsSpace(s[0]))
    ensures LStrip(a + s) == s
    decreases |a|
  {
    if a == "" {
      assert a + s == s;
    } else {
      assert (a + s)[1..] == a[1..] + s;
      LStripExactly(a[1..], s);
    }
  }

  lemma {:induction false} RStripExactly(s: string, b: string)
    requires AllSpace(b) && (s == "" || !IsSpace(s[|s| - 1]))
    ensures RStrip(s + b) == s
    decreases |b|
  {
    if b == "" {
      assert s + b == s;
    } else {
      assert (s + b)[..|s + b| - 1] == s + b[..|b| - 1];
      RStripExactly(s, b[..|b| - 1]);
    }
  }

  /** Stripping takes off the white space around a text, and only that. */
  lemma StripExactly(a: string, s: string, b: string)
    requires AllSpace(a) && AllSpace(b) && IsStripped(s)
    ensures Strip(a + s + b) == s
  {
    if s == "" {
      assert a + s + b == a + b + "";
      assert AllSpace(a + b);
      LStripExactly(a + b, "");
    } else {
      assert a + s + b == a + (s + b);
      LStripExactly(a, s + b);
      RStripExactly(s, b);
    }
  }

  // ---------------------------------------------------------------------
  // The order strings sort in
  // ---------------------------------------------------------------------

  /** Code point order, a proper prefix first. */
  predicate Less(a: string, b: string) {
    b != [] && (a == [] || a[0] < b[0] || (a[0] == b[0] && Less(a[1..], b[1..])))
  }

  lemma {:induction false} LessIrreflexive(a: string)
    ensures !Less(a, a)
    decreases |a|
  {
    if a != [] {
      LessIrreflexive(a[1..]);
    }
  }

  lemma {:induction false} LessTransitive(a: string, b: string, c: string)
    requires Less(a, b) && Less(b, c)
    ensures Less(a, c)
    decreases |a|
  {
    if a != [] && a[0] == b[0] && b[0] == c[0] {
      LessTransitive(a[1..], b[1..], c[1..]);
    }
  }

  lemma {:induction false} LessTotal(a: string, b: string)
    ensures Less(a, b) || a == b || Less(b, a)
    decreases |a|
  {
    if a != [] && b != [] && a[0] == b[0] {
      LessTotal(a[1..], b[1..]);
      assert a == [a[0]] + a[1..] && b == [b[0]] + b[1..];
    }
  }

  /** a comes first where they first differ, or where it ends. */
  predicate DifferAt(a: string, b: string, k: nat) {
    && k <= |a| && k < |b| && a[..k] == b[..k]
    && (k == |a| || a[k] < b[k])
  }

  lemma {:induction false} LessMeans(a: string, b: string)
    ensures Less(a, b) <==> exists k: nat :: DifferAt(a, b, k)
    decreases |a|
  {
    if a == [] {
      assert b != [] ==> DifferAt(a, b, 0);
    } else if b != [] {
      LessMeans(a[1..], b[1..]);
      assert a[0] < b[0] ==> DifferAt(a, b, 0);
      if a[0] == b[0] && Less(a[1..], b[1..]) {
        var k: nat :| DifferAt(a[1..], b[1..], k);
        LessLater(a, b, k);
      }
      if exists k: nat :: DifferAt(a, b, k) {
        var k: nat :| DifferAt(a, b, k);
        if k > 0 {
          LessEarlier(a, b, k);
        }
      }
    }
  }

  lemma LessLater(a: string, b: string, k: nat)
    requires a != [] && b != [] && a[0] == b[0] && DifferAt(a[1..], b[1..], k)
    ensures DifferAt(a, b, k + 1)
  {
    assert a[..k + 1] == [a[0]] + a[1..][..k] && b[..k + 1] == [b[0]] + b[1..][..k];
  }

  lemma LessEarlier(a: string, b: string, k: nat)
    requires a != [] && k > 0 && DifferAt(a, b, k)
    ensures a[0] == b[0] && DifferAt(a[1..], b[1..], k - 1)
  {
    assert a[0] == a[..k][0] && b[0] == b[..k][0];
    assert a[1..][..k - 1] == a[..k][1..] && b[1..][..k - 1] == b[..k][1..];
  }
}
