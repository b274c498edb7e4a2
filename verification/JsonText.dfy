/** The JSON printer, tokenizer and parser of src/json.c, and when they undo each other. */
module JsonText {
  import opened JsonValues

  predicate IsSpace(c: char) {
    c == ' ' || 0x09 <= c as int <= 0x0d
  }

  predicate IsDigit(c: char) {
    '0' <= c <= '9'
  }

  predicate IsIdent(c: char) {
    'a' <= c <= 'z' || 'A' <= c <= 'Z' || IsDigit(c) || c == '_' || c as int >= 0x80
  }

  predicate Digits(s: string) {
    forall i :: 0 <= i < |s| ==> IsDigit(s[i])
  }

  // ---------------------------------------------------------------- numbers

  /** The parts of a number as section 6 of RFC 8259 has them; an absent fraction or exponent is empty. */
  datatype Number = Number(minus: bool, whole: string, frac: string, exp: string)
  {
    ghost predicate Valid() {
      && Digits(whole) && whole != "" && (whole[0] == '0' ==> |whole| == 1)
      && Digits(frac)
      && (exp == "" || IsExponent(exp))
    }

    ghost function Text(): (s: string)
    {
      (if minus then "-" else "") + whole + (if frac == "" then "" else "." + frac) + exp
    }
  }

  predicate IsExponent(s: string) {
    && |s| >= 2 && (s[0] == 'e' || s[0] == 'E')
    && (Digits(s[1..]) || (|s| >= 3 && (s[1] == '+' || s[1] == '-') && Digits(s[2..])))
  }

  ghost predicate IsNumber(s: string) {
    exists n: Number :: n.Valid() && n.Text() == s
  }

  /** A number as it is written; a value read from text keeps its numbers in this form. */
  type Lexeme = s: string | IsNumber(s) ghost witness Number(false, "0", "", "").Text()

  type Value = Json<Lexeme>

  function DigitsEnd(z: string, i: nat): (e: nat)
    requires i <= |z|
    ensures i <= e <= |z| && Digits(z[i..e]) && (e < |z| ==> !IsDigit(z[e]))
    decreases |z| - i
  {
    if i < |z| && IsDigit(z[i]) then
      var e := DigitsEnd(z, i + 1);
      assert z[i..e] == [z[i]] + z[i + 1..e];
      e
    else i
  }

  /** Whether engineering notation begins at `i`. */
  predicate IsExp(z: string, i: nat)
    requires i <= |z|
  {
    && |z| - i >= 2 && (z[i] == 'e' || z[i] == 'E')
    && (IsDigit(z[i + 1]) || (|z| - i >= 3 && (z[i + 1] == '-' || z[i + 1] == '+') && IsDigit(z[i + 2])))
  }

  function WholeEnd(z: string, a: nat): (b: nat)
    requires a < |z| && IsDigit(z[a])
    ensures a < b <= |z|
  {
    if z[a] == '0' then a + 1 else DigitsEnd(z, a)
  }

  function FracEnd(z: string, b: nat): (c: nat)
    requires b <= |z|
    ensures b <= c <= |z|
  {
    if b + 1 < |z| && z[b] == '.' && IsDigit(z[b + 1]) then DigitsEnd(z, b + 1) else b
  }

  function ExpEnd(z: string, c: nat): (e: nat)
    requires c <= |z|
    ensures c <= e <= |z|
  {
    if IsExp(z, c) then DigitsEnd(z, c + 2) else c
  }

  /** Where the number at `i` ends, or `i` if a minus sign has no digit after it. */
  function NumberEnd(z: string, i: nat): (e: nat)
    requires i < |z| && (z[i] == '-' || IsDigit(z[i]))
    ensures i <= e <= |z|
  {
    var a := if z[i] == '-' then i + 1 else i;
    if a >= |z| || !IsDigit(z[a]) then i else ExpEnd(z, FracEnd(z, WholeEnd(z, a)))
  }

  lemma DigitInside(z: string, i: nat, e: nat, k: nat)
    requires i <= k < e <= |z| && Digits(z[i..e])
    ensures IsDigit(z[k])
  {
    assert IsDigit(z[i..e][k - i]);
  }

  lemma DigitsEndAt(z: string, i: nat, e: nat)
    requires i <= e <= |z| && Digits(z[i..e]) && (e < |z| ==> !IsDigit(z[e]))
    ensures DigitsEnd(z, i) == e
  {
    var d := DigitsEnd(z, i);
    if d < e {
      DigitInside(z, i, e, d);
    } else if e < d {
      DigitInside(z, i, d, e);
    }
  }

  lemma WholeScanned(z: string, a: nat)
    requires a < |z| && IsDigit(z[a])
    ensures var whole := z[a..WholeEnd(z, a)]; Digits(whole) && whole[0] == z[a] && (whole[0] == '0' ==> |whole| == 1)
  {
  }

  lemma FracScanned(z: string, b: nat)
    requires b <= |z|
    ensures var c := FracEnd(z, b); c > b ==> c > b + 1 && Digits(z[b + 1..c]) && z[b..c] == "." + z[b + 1..c]
  {
  }

  lemma ExpScanned(z: string, c: nat)
    requires c <= |z|
    ensures var e := ExpEnd(z, c); c < e ==> IsExponent(z[c..e])
  {
    var e := ExpEnd(z, c);
    if c < e {
      assert z[c..e][2..] == z[c + 2..e];
      if IsDigit(z[c + 1]) {
        assert z[c..e][1..] == [z[c + 1]] + z[c + 2..e];
      }
    }
  }

  /** Every number token is a number of the grammar. */
  lemma ScannedNumber(z: string, i: nat)
    requires i < |z| && (z[i] == '-' || IsDigit(z[i])) && NumberEnd(z, i) > i
    ensures IsNumber(z[i..NumberEnd(z, i)])
  {
    hide WholeEnd, FracEnd, ExpEnd, IsExponent, Digits, IsExp;
    var a := if z[i] == '-' then i + 1 else i;
    var b := WholeEnd(z, a);
    var c := FracEnd(z, b);
    var e := ExpEnd(z, c);
    WholeScanned(z, a);
    FracScanned(z, b);
    ExpScanned(z, c);
    NoDigits();
    var n := Number(z[i] == '-', z[a..b], if c > b then z[b + 1..c] else "", z[c..e]);
    assert n.Valid();
    assert z[i..a] == if n.minus then "-" else "";
    assert z[b..c] == if n.frac == "" then "" else "." + n.frac;
    FourParts(z, i, a, b, c, e);
  }

  lemma FourParts(z: string, i: nat, a: nat, b: nat, c: nat, e: nat)
    requires i <= a <= b <= c <= e <= |z|
    ensures z[i..a] + z[a..b] + z[b..c] + z[c..e] == z[i..e]
  {
  }

  lemma NoDigits()
    ensures Digits("")
  {
  }

  // ---------------------------------------------------------------- text at a position

  predicate TextAt(z: string, i: nat, s: string) {
    i + |s| <= |z| && z[i..i + |s|] == s
  }

  lemma TextParts(z: string, i: nat, s: string, t: string)
    ensures TextAt(z, i, s + t) <==> TextAt(z, i, s) && TextAt(z, i + |s|, t)
  {
    if TextAt(z, i, s + t) {
      assert z[i..i + |s|] == (s + t)[..|s|];
      assert z[i + |s|..i + |s| + |t|] == (s + t)[|s|..];
    }
    if TextAt(z, i, s) && TextAt(z, i + |s|, t) {
      assert z[i..i + |s + t|] == z[i..i + |s|] + z[i + |s|..i + |s| + |t|];
    }
  }

  lemma CharAt(z: string, i: nat, s: string, k: nat)
    requires TextAt(z, i, s) && k < |s|
    ensures i + |s| <= |z| && z[i + k] == s[k]
  {
    assert z[i..i + |s|][k] == s[k];
  }

  lemma TextIs(z: string, i: nat, s: string, e: nat)
    requires TextAt(z, i, s) && e == i + |s|
    ensures e <= |z| && z[i..e] == s
  {
  }

  /** The text ends here, or a character follows that closes a value. */
  predicate Closes(z: string, e: nat) {
    e <= |z| && (e == |z| || z[e] == ',' || z[e] == ']' || z[e] == '}')
  }

  lemma WholeStops(z: string, a: nat, b: nat)
    requires a < b <= |z| && Digits(z[a..b]) && (z[a] == '0' ==> b == a + 1) && (b < |z| ==> !IsDigit(z[b]))
    ensures IsDigit(z[a]) && WholeEnd(z, a) == b
  {
    assert z[a..b][0] == z[a];
    if z[a] != '0' {
      DigitsEndAt(z, a, b);
    }
  }

  lemma FracStops(z: string, b: nat, c: nat)
    requires b <= c <= |z| && (c == b ==> b < |z| ==> z[b] != '.') && (c < |z| ==> !IsDigit(z[c]))
    requires c > b ==> c > b + 1 && z[b] == '.' && Digits(z[b + 1..c])
    ensures FracEnd(z, b) == c
  {
    if c > b {
      assert z[b + 1..c][0] == z[b + 1];
      DigitsEndAt(z, b + 1, c);
    }
  }

  lemma ExpStops(z: string, c: nat, e: nat)
    requires c <= e <= |z| && (e < |z| ==> !IsDigit(z[e]))
    requires if c == e then (e < |z| ==> z[e] != 'e' && z[e] != 'E') else IsExponent(z[c..e])
    ensures ExpEnd(z, c) == e
  {
    if c < e {
      var x := z[c..e];
      assert x[0] == z[c] && x[1] == z[c + 1] && x[2..] == z[c + 2..e];
      if Digits(x[1..]) {
        assert x[1..][0] == z[c + 1] && x[1..][1..] == x[2..];
      } else {
        assert x[2] == z[c + 2] && x[2..][0] == z[c + 2];
      }
      DigitsEndAt(z, c + 2, e);
    }
  }

  lemma FirstChar(z: string, i: nat, s: string)
    requires TextAt(z, i, s) && s != ""
    ensures i < |z| && z[i] == s[0]
  {
    CharAt(z, i, s, 0);
  }

  /** The parts of a number that is written into a text: up to `b` the whole part, up to `c` the fraction. */
  lemma NumberParts(z: string, i: nat, n: Number, b: nat, c: nat)
    requires n.Valid() && TextAt(z, i, n.Text())
    requires b == i + (if n.minus then 1 else 0) + |n.whole| && c == b + (if n.frac == "" then 0 else 1 + |n.frac|)
    ensures n.Text() != "" && i + |n.Text()| == c + |n.exp| <= |z| && (n.minus ==> z[i] == '-')
    ensures z[b - |n.whole|..b] == n.whole && z[c..c + |n.exp|] == n.exp
    ensures n.frac != "" ==> z[b] == '.' && z[b + 1..c] == n.frac
  {
    hide IsExponent, TextAt, Digits;
    var s0, s2 := if n.minus then "-" else "", if n.frac == "" then "" else "." + n.frac;
    TextParts(z, i, s0 + n.whole + s2, n.exp);
    TextParts(z, i, s0 + n.whole, s2);
    TextParts(z, i, s0, n.whole);
    TextIs(z, b - |n.whole|, n.whole, b);
    TextIs(z, b, s2, c);
    TextIs(z, c, n.exp, c + |n.exp|);
    if n.minus {
      FirstChar(z, i, s0);
    }
    if n.frac != "" {
      FirstChar(z, b, s2);
      assert z[b + 1..c] == s2[1..] == n.frac;
    }
  }

  /** A number written into a text is scanned to its end and no further. */
  lemma NumberScanned(z: string, i: nat, n: Number)
    requires n.Valid() && TextAt(z, i, n.Text()) && Closes(z, i + |n.Text()|)
    ensures n.Text() != "" && (z[i] == '-' || IsDigit(z[i]))
    ensures NumberEnd(z, i) == i + |n.Text()|
  {
    hide IsExponent, WholeEnd, FracEnd, ExpEnd, IsExp, TextAt, Number.Text;
    var a := i + if n.minus then 1 else 0;
    var b := a + |n.whole|;
    var c := b + if n.frac == "" then 0 else 1 + |n.frac|;
    var e := c + |n.exp|;
    NumberParts(z, i, n, b, c);
    assert z[a..b][0] == z[a];
    if n.exp != "" {
      ExponentStarts(n.exp);
      assert z[c..e][0] == z[c];
    }
    WholeStops(z, a, b);
    FracStops(z, b, c);
    ExpStops(z, c, e);
  }

  lemma ExponentStarts(x: string)
    requires IsExponent(x)
    ensures |x| >= 2 && (x[0] == 'e' || x[0] == 'E')
  {
  }
}
