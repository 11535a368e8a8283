/**
 * The few `java.lang.String` and `java.lang.Integer` operations the plugin's
 * decisions depend on, with the JDK's rules written out: `trim`, `contains`,
 * `toLowerCase`, `replace` of a literal and `Integer.parseInt`.
 */
module JavaText {
  import opened Remote

  const MinInt: int := -0x8000_0000
  const MaxInt: int := 0x7FFF_FFFF

  // ---------------------------------------------------------------------
  // String.trim and the "blank" test of the form validators

  /** `String.trim` treats every character up to U+0020 as white space. */
  predicate TrimmedChar(c: char) { c <= ' ' }

  function TrimStart(s: string): (r: string)
    ensures |r| <= |s| && r == s[|s| - |r|..]
    ensures r == [] || !TrimmedChar(r[0])
    ensures forall i :: 0 <= i < |s| - |r| ==> TrimmedChar(s[i])
  {
    if s != [] && TrimmedChar(s[0]) then TrimStart(s[1..]) else s
  }

  function TrimEnd(s: string): (r: string)
    ensures |r| <= |s| && r == s[..|r|]
    ensures r == [] || !TrimmedChar(r[|r| - 1])
    ensures forall i :: |r| <= i < |s| ==> TrimmedChar(s[i])
  {
    if s != [] && TrimmedChar(s[|s| - 1]) then TrimEnd(s[..|s| - 1]) else s
  }

  function Trim(s: string): string {
    TrimEnd(TrimStart(s))
  }

  /** `value.trim().isEmpty()` */
  predicate IsBlank(s: string) {
    Trim(s) == []
  }

  /** Trimming the end cannot empty a string whose first character is kept. */
  lemma TrimEndKeepsFirst(a: string)
    requires a != [] && !TrimmedChar(a[0])
    ensures TrimEnd(a) != []
  {
  }

  /** A string is blank exactly when every one of its characters is white space for `trim`. */
  lemma BlankIffAllTrimmed(s: string)
    ensures IsBlank(s) <==> forall i :: 0 <= i < |s| ==> TrimmedChar(s[i])
  {
    var a := TrimStart(s);
    if a != [] {
      TrimEndKeepsFirst(a);
      assert a[0] == s[|s| - |a|];
    }
  }

  /**
   * Trimming keeps one contiguous piece of the input: it starts after the
   * leading white space and ends before the trailing white space.
   */
  lemma TrimIsInfix(s: string)
    ensures var i := |s| - |TrimStart(s)|; i + |Trim(s)| <= |s| && Trim(s) == s[i..i + |Trim(s)|]
  {
    var a := TrimStart(s);
    var i := |s| - |a|;
    var t := TrimEnd(a);
    assert a == s[i..];
    assert t == a[..|t|];
    assert s[i..][..|t|] == s[i..i + |t|];
  }

  /** A trimmed string that is not empty starts and ends with a character `trim` keeps. */
  lemma TrimmedEndsKept(s: string)
    ensures Trim(s) == [] || (!TrimmedChar(Trim(s)[0]) && !TrimmedChar(Trim(s)[|Trim(s)| - 1]))
  {
    var a := TrimStart(s);
    var t := TrimEnd(a);
    if t != [] {
      assert t[0] == a[0];
    }
  }

  // ---------------------------------------------------------------------
  // String.contains, String.toLowerCase and String.replace

  predicate Contains(s: string, c: char) {
    exists i :: 0 <= i < |s| && s[i] == c
  }

  predicate AsciiUpper(c: char) { 'A' <= c <= 'Z' }

  function LowerChar(c: char): (r: char)
    ensures !AsciiUpper(r)
    ensures AsciiUpper(c) ==> r as int == c as int + 32
    ensures !AsciiUpper(c) ==> r == c
  {
    if AsciiUpper(c) then (c as int + 32) as char else c
  }

  /** `String.toLowerCase`, restricted to the ASCII letters. */
  function ToLowerCase(s: string): (r: string)
    ensures |r| == |s|
    ensures forall i :: 0 <= i < |s| ==> r[i] == LowerChar(s[i])
  {
    if s == [] then [] else [LowerChar(s[0])] + ToLowerCase(s[1..])
  }

  /** `s.replace(<from>, <to>)` for one-character literals: every occurrence is replaced. */
  function ReplaceChar(s: string, from: char, to: char): (r: string)
    ensures |r| == |s|
    ensures forall i :: 0 <= i < |s| ==> r[i] == (if s[i] == from then to else s[i])
  {
    if s == [] then [] else [if s[0] == from then to else s[0]] + ReplaceChar(s[1..], from, to)
  }

  // ---------------------------------------------------------------------
  // Integer.parseInt and Integer.toString

  predicate IsDigit(c: char) { '0' <= c <= '9' }

  predicate AllDigits(s: string) {
    forall i :: 0 <= i < |s| ==> IsDigit(s[i])
  }

  function DigitValue(c: char): nat
    requires IsDigit(c)
  {
    c as int - '0' as int
  }

  /** The value of a string of decimal digits, most significant first. */
  function DigitsValue(s: string): nat
    requires AllDigits(s)
  {
    if s == [] then 0 else 10 * DigitsValue(s[..|s| - 1]) + DigitValue(s[|s| - 1])
  }

  /**
   * `Integer.parseInt(s)`: an optional `-` or `+`, then at least one digit, and
   * a value that fits in 32 bits; anything else raises NumberFormatException.
   */
  function ParseInt(s: string): (r: Option<int>)
    ensures r.Some? ==> MinInt <= r.value <= MaxInt
    ensures r.Some? ==> |s| > 0 && (IsDigit(s[0]) || s[0] == '-' || s[0] == '+')
  {
    if s == [] then None
    else
      var start := if s[0] == '-' || s[0] == '+' then 1 else 0;
      var digits := s[start..];
      if digits == [] || !AllDigits(digits) then None
      else
        var n: int := DigitsValue(digits);
        var v := if s[0] == '-' then -n else n;
        if MinInt <= v <= MaxInt then Some(v) else None
  }

  function DigitChar(d: nat): (c: char)
    requires d < 10
    ensures IsDigit(c) && DigitValue(c) == d
  {
    ('0' as int + d) as char
  }

  function ShowNat(n: nat): (r: string)
    ensures |r| > 0 && AllDigits(r)
  {
    if n < 10 then [DigitChar(n)] else ShowNat(n / 10) + [DigitChar(n % 10)]
  }

  /** `Integer.toString(n)`: a `-` for negative numbers, then the digits without leading zeros. */
  function Show(n: int): string {
    if n < 0 then "-" + ShowNat(-n) else ShowNat(n)
  }

  lemma {:induction false} ShowNatValue(n: nat)
    ensures DigitsValue(ShowNat(n)) == n
  {
    var r := ShowNat(n);
    if n >= 10 {
      ShowNatValue(n / 10);
      assert r[..|r| - 1] == ShowNat(n / 10);
    }
  }

  /** Parsing undoes printing for every 32-bit value. */
  lemma ParseShow(n: int)
    requires MinInt <= n <= MaxInt
    ensures ParseInt(Show(n)) == Some(n)
  {
    var s := Show(n);
    if n < 0 {
      ShowNatValue(-n);
      assert s[1..] == ShowNat(-n);
    } else {
      ShowNatValue(n);
      assert IsDigit(s[0]);
      assert s[0..] == s;
    }
  }

  /** A leading `+` is accepted and changes nothing. */
  lemma ParsePlusSign(n: nat)
    requires n <= MaxInt
    ensures ParseInt("+" + Show(n)) == Some(n)
  {
    ShowNatValue(n);
    assert ("+" + Show(n))[1..] == ShowNat(n);
  }

  /** The empty string and a lone sign are not numbers. */
  lemma ParseRejectsNoDigits()
    ensures ParseInt("") == None && ParseInt("-") == None && ParseInt("+") == None
  {
    assert "-"[1..] == [];
    assert "+"[1..] == [];
  }
}
