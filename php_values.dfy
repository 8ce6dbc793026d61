/**
 * The parts of PHP's value semantics that the server and the TOTP helper
 * rely on: the decimal rendering of integers, substr, str_pad, and the loose
 * `==` between strings, which compares two numeric strings by their value.
 *
 * Numeric strings are modelled as decimal digits, optionally followed by an
 * exponent marker 'e' or 'E' and more digits (so "0e123" has the value 0).
 */
module PhpValues {
  import opened Wrappers

  /** A decoded JSON value as the server's database holds it. */
  datatype Value = Null | Int(i: int) | Str(s: string) | List(items: seq<string>)

  predicate IsDigit(c: char)
  {
    '0' <= c <= '9'
  }

  predicate AllDigits(s: string)
  {
    forall i :: 0 <= i < |s| ==> IsDigit(s[i])
  }

  function DigitValue(c: char): (d: nat)
    requires IsDigit(c)
    ensures d < 10
  {
    c as int - '0' as int
  }

  function DigitChar(d: nat): (c: char)
    requires d < 10
    ensures IsDigit(c) && DigitValue(c) == d
  {
    ('0' as int + d) as char
  }

  /** The number a string of decimal digits denotes. */
  function DigitsValue(s: string): nat
    requires AllDigits(s)
  {
    if s == [] then 0 else DigitsValue(s[..|s| - 1]) * 10 + DigitValue(s[|s| - 1])
  }

  function Pow10(n: nat): (p: nat)
    ensures p >= 1
  {
    if n == 0 then 1 else 10 * Pow10(n - 1)
  }

  /** k digits denote a number below 10^k. */
  lemma {:induction false} DigitsValueBound(s: string)
    requires AllDigits(s)
    ensures DigitsValue(s) < Pow10(|s|)
  {
    if s != [] {
      DigitsValueBound(s[..|s| - 1]);
    }
  }

  /** Two digit strings of the same length denote the same number only when they are equal. */
  lemma {:induction false} DigitsValueInjective(a: string, b: string)
    requires AllDigits(a) && AllDigits(b) && |a| == |b|
    requires DigitsValue(a) == DigitsValue(b)
    ensures a == b
  {
    if a != [] {
      var n := |a|;
      var da, db := DigitValue(a[n - 1]), DigitValue(b[n - 1]);
      assert DigitsValue(a[..n - 1]) * 10 + da == DigitsValue(b[..n - 1]) * 10 + db;
      assert da == db && DigitsValue(a[..n - 1]) == DigitsValue(b[..n - 1]);
      DigitsValueInjective(a[..n - 1], b[..n - 1]);
      assert a[n - 1] == b[n - 1];
      assert a == a[..n - 1] + [a[n - 1]] && b == b[..n - 1] + [b[n - 1]];
    }
  }

  /** PHP's rendering of a non-negative integer: no leading zeros, at least one digit. */
  function Decimal(n: nat): (s: string)
    ensures 1 <= |s| && AllDigits(s) && DigitsValue(s) == n
    ensures |s| > 1 ==> s[0] != '0'
  {
    if n < 10 then [DigitChar(n)]
    else
      var head := Decimal(n / 10);
      var s := head + [DigitChar(n % 10)];
      assert s[..|s| - 1] == head;
      s
  }

  /** A number below 10^k is rendered in at most k digits. */
  lemma {:induction false} DecimalLength(n: nat, k: nat)
    requires 1 <= k && n < Pow10(k)
    ensures |Decimal(n)| <= k
  {
    if n >= 10 {
      DecimalLength(n / 10, k - 1);
    }
  }

  /** PHP's rendering of any integer. */
  function IntText(i: int): (s: string)
    ensures 1 <= |s|
  {
    if i < 0 then "-" + Decimal(-i) else Decimal(i)
  }

  /** substr(s, start, len) for a non-negative start and length. */
  function Substr(s: string, start: nat, len: nat): (r: string)
    ensures |r| <= len
    ensures start <= |s| ==> r == s[start..if start + len <= |s| then start + len else |s|]
    ensures start >= |s| ==> r == ""
  {
    if start >= |s| then ""
    else if start + len <= |s| then s[start..start + len]
    else s[start..]
  }

  /** str_pad(s, len, c, STR_PAD_LEFT). */
  function PadLeft(s: string, len: int, c: char): (r: string)
    ensures |r| == if |s| < len then len else |s|
    ensures r[|r| - |s|..] == s
    ensures forall i :: 0 <= i < |r| - |s| ==> r[i] == c
  {
    if |s| < len then seq(len - |s|, _ => c) + s else s
  }

  /** The first index at or after i holding an exponent marker. */
  function FindExponent(s: string, i: nat): (k: Option<nat>)
    requires i <= |s|
    decreases |s| - i
    ensures k.Some? ==> i <= k.value < |s| && (s[k.value] == 'e' || s[k.value] == 'E')
    ensures k.Some? ==> forall j :: i <= j < k.value ==> s[j] != 'e' && s[j] != 'E'
    ensures k.None? ==> forall j :: i <= j < |s| ==> s[j] != 'e' && s[j] != 'E'
  {
    if i == |s| then None
    else if s[i] == 'e' || s[i] == 'E' then Some(i)
    else FindExponent(s, i + 1)
  }

  /** The value of a numeric string; None for a string that is not numeric. */
  function NumericValue(s: string): (v: Option<nat>)
    ensures s != [] && AllDigits(s) ==> v == Some(DigitsValue(s))
    ensures s == [] ==> v.None?
  {
    if s != [] && AllDigits(s) then Some(DigitsValue(s))
    else
      match FindExponent(s, 0)
      case None => None
      case Some(k) =>
        if 0 < k < |s| - 1 && AllDigits(s[..k]) && AllDigits(s[k + 1..])
        then Some(DigitsValue(s[..k]) * Pow10(DigitsValue(s[k + 1..])))
        else None
  }

  /** PHP's `a == b` on two strings: by value when both are numeric, character by character otherwise. */
  predicate LooseEq(a: string, b: string)
  {
    if NumericValue(a).Some? && NumericValue(b).Some? then NumericValue(a).value == NumericValue(b).value
    else a == b
  }

  /** Loose equality never separates equal strings. */
  lemma LooseEqReflexive(a: string)
    ensures LooseEq(a, a)
  {
  }

  /** On digit strings of one length, loose equality is plain equality. */
  lemma LooseEqOnDigits(a: string, b: string)
    requires AllDigits(a) && AllDigits(b) && |a| == |b|
    ensures LooseEq(a, b) <==> a == b
  {
    if a != [] && LooseEq(a, b) {
      DigitsValueInjective(a, b);
    }
  }

  /**
   * PHP's `s == v` between a posted string and a stored value: null equals
   * only "", an integer compares by value with a numeric string and by its
   * rendering otherwise, and an array equals no string.
   */
  predicate LooseEqValue(s: string, v: Value)
  {
    match v
    case Null => s == ""
    case Int(i) => if NumericValue(s).Some? then NumericValue(s).value == i else s == IntText(i)
    case Str(t) => LooseEq(s, t)
    case List(_) => false
  }

  /** A scalar a JSON request body can carry in a field: a string or a boolean. */
  datatype Posted = PostedText(s: string) | PostedBool(b: bool)

  /** PHP's truth value of a string: false only for "" and "0". */
  predicate Truthy(s: string)
  {
    s != "" && s != "0"
  }

  /** A posted value where PHP wants a string: true becomes "1", false becomes "". */
  function CastText(p: Posted): (s: string)
    ensures p.PostedText? ==> s == p.s
    ensures p.PostedBool? ==> (p.b <==> Truthy(s)) && |s| <= 1
  {
    match p
    case PostedText(t) => t
    case PostedBool(b) => if b then "1" else ""
  }

  /**
   * PHP 8's `s == p` for a string s and a posted value p: against a string
   * it is LooseEq, against a boolean both sides are read as booleans.
   */
  predicate LooseEqPosted(s: string, p: Posted)
  {
    match p
    case PostedText(t) => LooseEq(s, t)
    case PostedBool(b) => b == Truthy(s)
  }

  /**
   * Against a word that is not numeric, such as "open" or "", a posted
   * string is loosely equal only when it is that word, while true equals
   * every word but "" and "0".
   */
  lemma LooseEqPostedWord(w: string, p: Posted)
    requires NumericValue(w).None?
    ensures p.PostedText? ==> (LooseEqPosted(w, p) <==> p.s == w)
    ensures p.PostedBool? ==> (LooseEqPosted(w, p) <==> (p.b <==> Truthy(w)))
  {
  }
}
