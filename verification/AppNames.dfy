/** App names: the shape the registry accepts and the numbered names tried when one is taken. */
module AppNames {
  import opened Text

  const MAX_NAME_LENGTH := 32

  /** Largest number of elements a JavaScript array can hold. */
  const MAX_ARRAY_LENGTH := 0x1_0000_0000

  predicate NameChar(c: char) {
    'a' <= c <= 'z' || '0' <= c <= '9'
  }

  /** One to 32 lower-case letters, digits and hyphens, with no hyphen at either end. */
  predicate ValidShape(name: string) {
    && 1 <= |name| <= MAX_NAME_LENGTH
    && NameChar(name[0]) && NameChar(name[|name| - 1])
    && forall i :: 0 <= i < |name| ==> NameChar(name[i]) || name[i] == '-'
  }

  /** The shape as its regular expression reads: one name character, or two with at most 30 in between. */
  lemma ShapeTells(name: string)
    ensures ValidShape(name) <==>
              || (exists c :: NameChar(c) && name == [c])
              || exists a, middle, b :: name == [a] + middle + [b] && NameChar(a) && NameChar(b) && |middle| <= 30
                                       && forall i :: 0 <= i < |middle| ==> NameChar(middle[i]) || middle[i] == '-'
  {
    if ValidShape(name) {
      if |name| == 1 {
        assert name == [name[0]];
      } else {
        var a, middle, b := name[0], name[1..|name| - 1], name[|name| - 1];
        assert name == [a] + middle + [b];
        assert forall i :: 0 <= i < |middle| ==> middle[i] == name[i + 1];
      }
    }
  }

  /** `s.slice(0, end)`: a negative end counts from the back. */
  function SliceTo(s: string, end: int): string {
    if end >= |s| then s
    else if end >= 0 then s[..end]
    else if |s| + end >= 0 then s[..|s| + end]
    else []
  }

  /** The base name shortened to leave room for a numeric suffix, with that suffix. */
  function Suffixed(base: string, n: nat): string {
    var suffix := "-" + Decimal(n);
    SliceTo(base, MAX_NAME_LENGTH - |suffix|) + suffix
  }

  /** The suffix follows the base, of which only so much goes as the 32 characters leave no room for. */
  lemma SuffixedTells(base: string, n: nat)
    ensures var suffix := "-" + Decimal(n);
            && (|base| + |suffix| <= 32 ==> Suffixed(base, n) == base + suffix)
            && (|suffix| <= 32 < |base| + |suffix| ==>
                  |Suffixed(base, n)| == 32 && Suffixed(base, n) == base[..32 - |suffix|] + suffix)
  {
  }

  /** Different numbers give different names, however the base was shortened. */
  lemma SuffixedInjective(base: string, m: nat, n: nat)
    requires Suffixed(base, m) == Suffixed(base, n)
    ensures m == n
  {
    var s := Suffixed(base, m);
    var dm, dn := Decimal(m), Decimal(n);
    NumeralAtEnd(base, m);
    NumeralAtEnd(base, n);
    assert s[|s| - |dm| - 1] == '-' == s[|s| - |dn| - 1];
    assert dm == dn;
    DecimalValue(m);
    DecimalValue(n);
  }

  /** A hyphen stands before the numeral, and no hyphen inside it. */
  lemma NumeralAtEnd(base: string, n: nat)
    ensures var s, d := Suffixed(base, n), Decimal(n);
            && |s| > |d| && s[|s| - |d|..] == d && s[|s| - |d| - 1] == '-'
            && forall j :: |s| - |d| <= j < |s| ==> '0' <= s[j] <= '9'
  {
    var s, d := Suffixed(base, n), Decimal(n);
    assert s == SliceTo(base, MAX_NAME_LENGTH - |"-" + d|) + (['-'] + d);
    forall j | |s| - |d| <= j < |s| ensures s[j] == d[j - |s| + |d|] {}
  }

  /** A suffixed name keeps the accepted shape as long as the numeral leaves room for one base character. */
  lemma SuffixedShape(base: string, n: nat)
    requires ValidShape(base) && |Decimal(n)| <= 30
    ensures ValidShape(Suffixed(base, n))
  {
    var suffix := "-" + Decimal(n);
    var p := SliceTo(base, MAX_NAME_LENGTH - |suffix|);
    var s := Suffixed(base, n);
    assert s == p + suffix && |p| >= 1 && s[0] == base[0];
    assert s[|s| - 1] == suffix[|suffix| - 1];
    forall i | 0 <= i < |s| ensures NameChar(s[i]) || s[i] == '-' {
      if i < |p| {
        assert s[i] == base[i];
      } else {
        assert s[i] == suffix[i - |p|];
      }
    }
  }

  ghost function Numbered(base: string, count: nat): set<string> {
    set n | 2 <= n < 2 + count :: Suffixed(base, n)
  }

  lemma {:induction false} NumberedSize(base: string, count: nat)
    ensures |Numbered(base, count)| == count
  {
    if count > 0 {
      NumberedSize(base, count - 1);
      var last := Suffixed(base, count + 1);
      assert last !in Numbered(base, count - 1) by {
        forall n | 2 <= n < count + 1 ensures Suffixed(base, n) != last {
          if Suffixed(base, n) == last {
            SuffixedInjective(base, n, count + 1);
          }
        }
      }
      assert Numbered(base, count) == Numbered(base, count - 1) + {last};
    }
  }

  lemma SubsetSize<T>(a: set<T>, b: set<T>)
    requires a <= b
    ensures |a| <= |b|
  {
    assert b == a + (b - a);
  }

  /** If the first numbers are all taken, there are at least that many taken names. */
  lemma TakenBound(base: string, names: set<string>, n: nat)
    requires n >= 2
    requires forall m :: 2 <= m < n ==> Suffixed(base, m) in names
    ensures n - 2 <= |names|
  {
    NumberedSize(base, n - 2);
    SubsetSize(Numbered(base, n - 2), names);
  }

  /** The least number from `n` on whose name is free; the search stops because names are finite. */
  function FreshIndex(base: string, names: set<string>, n: nat): (r: nat)
    requires n >= 2
    requires forall m :: 2 <= m < n ==> Suffixed(base, m) in names
    ensures r >= n && Suffixed(base, r) !in names
    ensures forall m :: 2 <= m < r ==> Suffixed(base, m) in names
    decreases |names| + 2 - n
  {
    TakenBound(base, names, n);
    if Suffixed(base, n) !in names then n
    else
      TakenBound(base, names, n + 1);
      FreshIndex(base, names, n + 1)
  }

  function FreshName(base: string, names: set<string>): (r: string)
    ensures r !in names
  {
    if base !in names then base else Suffixed(base, FreshIndex(base, names, 2))
  }

  /** A fresh name made from a well-shaped base is well shaped, for any registry an array can hold. */
  lemma FreshNameShape(base: string, names: set<string>)
    requires ValidShape(base) && |names| < MAX_ARRAY_LENGTH
    ensures ValidShape(FreshName(base, names))
  {
    if base in names {
      var r := FreshIndex(base, names, 2);
      TakenBound(base, names, r);
      assert Power10(10) == 10_000_000_000 by {
        assert Power10(5) == 100_000;
        assert Power10(10) == 10 * (10 * (10 * (10 * (10 * Power10(5)))));
      }
      DecimalLength(r, 10, Power10(10));
      SuffixedShape(base, r);
    }
  }
}
