/** Strings as the browser sees them: whitespace trimming, line splitting and decimal numerals. */
module Text {

  /** The white space and line terminators that `String.prototype.trim` removes. */
  predicate IsSpace(c: char) {
    || '\t' <= c <= '\r'
    || c in {' ', '\U{00A0}', '\U{1680}', '\U{2028}', '\U{2029}', '\U{202F}', '\U{205F}', '\U{3000}', '\U{FEFF}'}
    || '\U{2000}' <= c <= '\U{200A}'
  }

  /** The code points of the white space and line terminators of ECMAScript. */
  lemma SpacesAre(c: char)
    ensures IsSpace(c) <==>
              || 9 <= c as int <= 13 || c as int == 32 || c as int == 160 || c as int == 5760
              || 8192 <= c as int <= 8202 || c as int == 8232 || c as int == 8233 || c as int == 8239
              || c as int == 8287 || c as int == 12288 || c as int == 65279
  {
  }

  function TrimStart(s: string): string {
    if s == [] || !IsSpace(s[0]) then s else TrimStart(s[1..])
  }

  function TrimEnd(s: string): string {
    if s == [] || !IsSpace(s[|s| - 1]) then s else TrimEnd(s[..|s| - 1])
  }

  function Trim(s: string): string {
    TrimEnd(TrimStart(s))
  }

  /** What is left is the longest end of the text that starts with something visible. */
  lemma {:induction false} TrimStartIs(s: string)
    ensures var r := TrimStart(s); |r| <= |s| && r == s[|s| - |r|..] && (r == [] || !IsSpace(r[0]))
  {
    if s != [] && IsSpace(s[0]) {
      TrimStartIs(s[1..]);
    }
  }

  /** What is left is the longest beginning of the text that ends with something visible. */
  lemma {:induction false} TrimEndIs(s: string)
    ensures var r := TrimEnd(s); |r| <= |s| && r == s[..|r|] && (r == [] || !IsSpace(r[|r| - 1]))
  {
    if s != [] && IsSpace(s[|s| - 1]) {
      TrimEndIs(s[..|s| - 1]);
    }
  }

  /** Trimming twice is trimming once. */
  lemma TrimIdempotent(s: string)
    ensures Trim(Trim(s)) == Trim(s)
  {
    var r := Trim(s);
    TrimStartIs(s);
    TrimEndIs(TrimStart(s));
    if r != [] {
      assert r[0] == TrimStart(s)[0];
      assert TrimStart(r) == r && TrimEnd(r) == r;
    }
  }

  /** Trimming cuts white space off both ends and stops at something visible. */
  lemma TrimCuts(s: string) returns (a: nat, b: nat)
    ensures a <= b <= |s| && Trim(s) == s[a..b]
    ensures Blank(s[..a]) && Blank(s[b..])
    ensures a == b || (!IsSpace(s[a]) && !IsSpace(s[b - 1]))
  {
    a := CutFront(s);
    var rest := TrimStart(s);
    var n := CutBack(rest);
    b := a + n;
    assert s[b..] == rest[n..];
  }

  lemma {:induction false} CutFront(s: string) returns (a: nat)
    ensures a <= |s| && TrimStart(s) == s[a..] && Blank(s[..a]) && (a < |s| ==> !IsSpace(s[a]))
  {
    a := 0;
    if s != [] && IsSpace(s[0]) {
      var rest := CutFront(s[1..]);
      a := rest + 1;
      forall i | 0 <= i < a ensures IsSpace(s[i]) {
        assert i > 0 ==> IsSpace(s[1..][..rest][i - 1]);
      }
    }
  }

  lemma {:induction false} CutBack(s: string) returns (n: nat)
    ensures n <= |s| && TrimEnd(s) == s[..n] && Blank(s[n..]) && (n > 0 ==> !IsSpace(s[n - 1]))
  {
    n := |s|;
    if s != [] && IsSpace(s[|s| - 1]) {
      n := CutBack(s[..|s| - 1]);
      assert s[..|s| - 1][..n] == s[..n];
      forall i | 0 <= i < |s| - n ensures IsSpace(s[n..][i]) {
        assert i < |s| - n - 1 ==> IsSpace(s[..|s| - 1][n..][i]);
      }
    }
  }

  /** Text without white space at its ends is left alone. */
  lemma TrimKeeps(s: string)
    requires s != [] && !IsSpace(s[0]) && !IsSpace(s[|s| - 1])
    ensures Trim(s) == s
  {
    assert TrimStart(s) == s;
  }

  lemma TrimNothing()
    ensures Trim("") == ""
  {
  }

  predicate Blank(s: string) {
    forall i :: 0 <= i < |s| ==> IsSpace(s[i])
  }

  /** Nothing is left after trimming exactly when every character is a space. */
  lemma {:induction false} TrimEmpty(s: string)
    ensures Trim(s) == [] <==> Blank(s)
  {
    TrimStartEmpty(s);
    var t := TrimStart(s);
    TrimEndEmpty(t);
    TrimStartIs(s);
    if t != [] {
      assert !IsSpace(t[0]);
      assert t[0] == s[|s| - |t|];
    }
  }

  lemma {:induction false} TrimStartEmpty(s: string)
    ensures TrimStart(s) == [] <==> Blank(s)
  {
    if s != [] && IsSpace(s[0]) {
      TrimStartEmpty(s[1..]);
      assert Blank(s) <==> Blank(s[1..]) by {
        assert forall i :: 1 <= i < |s| ==> s[i] == s[1..][i - 1];
      }
    }
  }

  lemma {:induction false} TrimEndEmpty(s: string)
    ensures TrimEnd(s) == [] <==> Blank(s)
  {
    if s != [] && IsSpace(s[|s| - 1]) {
      TrimEndEmpty(s[..|s| - 1]);
      assert Blank(s) <==> Blank(s[..|s| - 1]);
    }
  }

  /** Decimal numeral of a natural number, as a template string prints it. */
  function Decimal(n: nat): (s: string)
    ensures s != []
    ensures forall i :: 0 <= i < |s| ==> '0' <= s[i] <= '9'
  {
    if n < 10 then [Digit(n)] else Decimal(n / 10) + [Digit(n % 10)]
  }

  function Digit(d: nat): (c: char)
    requires d < 10
    ensures '0' <= c <= '9'
  {
    '0' + d as char
  }

  function NumeralValue(s: string): nat
    requires forall i :: 0 <= i < |s| ==> '0' <= s[i] <= '9'
  {
    if s == [] then 0 else NumeralValue(s[..|s| - 1]) * 10 + (s[|s| - 1] - '0') as nat
  }

  /** Reading a numeral back gives the number. */
  lemma {:induction false} DecimalValue(n: nat)
    ensures NumeralValue(Decimal(n)) == n
  {
    var s := Decimal(n);
    if n >= 10 {
      DecimalValue(n / 10);
      assert s[..|s| - 1] == Decimal(n / 10);
    } else {
      assert s[..|s| - 1] == [];
    }
  }

  lemma {:induction false} DecimalLength(n: nat, digits: nat, bound: nat)
    requires digits >= 1 && bound == Power10(digits) && n < bound
    ensures |Decimal(n)| <= digits
    decreases digits
  {
    if n >= 10 {
      DecimalLength(n / 10, digits - 1, bound / 10);
    }
  }

  function Power10(k: nat): nat {
    if k == 0 then 1 else 10 * Power10(k - 1)
  }
}
