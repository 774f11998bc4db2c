/**
 * The PHP values the formatter handles: scalars, ordered arrays with integer
 * or string keys, and the empty `stdClass` object that `new stdClass()` makes.
 * Floating-point numbers and other objects are not part of this model.
 */
module Php {

  /** An array key: PHP arrays are ordered maps whose keys are ints or strings. */
  datatype Key = IntKey(i: int) | StrKey(s: string)

  datatype Value =
    | Null
    | Bool(b: bool)
    | Int(n: int)
    | Str(s: string)
    | Arr(entries: seq<(Key, Value)>)
    | EmptyObject

  /** PHP's boolean conversion, as used by the short ternary and by an assignment used as a condition. */
  predicate Truthy(v: Value)
  {
    match v
    case Null => false
    case Bool(b) => b
    case Int(n) => n != 0
    case Str(s) => s != "" && s != "0"
    case Arr(es) => |es| > 0
    case EmptyObject => true
  }

  /** The value itself when truthy, else an empty object (`stdClass`). */
  function OrEmptyObject(v: Value): (r: Value)
    ensures Truthy(r)
    ensures Truthy(v) ==> r == v
    ensures !Truthy(v) ==> r == EmptyObject
  {
    if Truthy(v) then v else EmptyObject
  }

  /** No key occurs twice, as in every PHP array. */
  predicate DistinctKeys(es: seq<(Key, Value)>)
  {
    forall i, j :: 0 <= i < j < |es| ==> es[i].0 != es[j].0
  }

  /** An array is a list when its keys are 0, 1, ..., n-1 in this order. */
  predicate IsList(es: seq<(Key, Value)>)
  {
    forall i :: 0 <= i < |es| ==> es[i].0 == IntKey(i)
  }

  /** Appending to a list: the new element gets the next index. */
  function Push(es: seq<(Key, Value)>, v: Value): (r: seq<(Key, Value)>)
    requires IsList(es)
    ensures |r| == |es| + 1 && IsList(r) && r[..|es|] == es && r[|es|].1 == v
  {
    es + [(IntKey(|es|), v)]
  }

  // ---------------------------------------------------------------------
  // Decimal strings and the coercion of numeric string keys
  // ---------------------------------------------------------------------

  predicate IsDigit(c: char) { '0' <= c <= '9' }

  predicate AllDigits(s: string)
  {
    forall i :: 0 <= i < |s| ==> IsDigit(s[i])
  }

  function DigitChar(d: nat): (c: char)
    requires d < 10
    ensures IsDigit(c) && c as int - '0' as int == d
  {
    ('0' as int + d) as char
  }

  /** The decimal spelling of a natural number, without leading zeros. */
  function NatToString(n: nat): (s: string)
    ensures |s| > 0 && AllDigits(s)
    ensures |s| > 1 ==> s[0] != '0'
    decreases n
  {
    if n < 10 then [DigitChar(n)] else NatToString(n / 10) + [DigitChar(n % 10)]
  }

  /** The decimal spelling PHP gives an integer array key. */
  function IntToString(n: int): string
  {
    if n < 0 then "-" + NatToString(-n) else NatToString(n)
  }

  /** A string of digits read as a number. */
  function DigitsValue(s: string): nat
    requires AllDigits(s)
  {
    if |s| == 0 then 0
    else DigitsValue(s[..|s| - 1]) * 10 + (s[|s| - 1] as int - '0' as int)
  }

  /** Digits with no leading zero (the single digit "0" is allowed). */
  predicate CanonicalDigits(s: string)
  {
    |s| > 0 && AllDigits(s) && (s[0] == '0' ==> |s| == 1)
  }

  /**
   * A string that PHP turns into an integer when it is used as an array key:
   * "0", or an optional minus sign followed by digits without a leading zero.
   * "-0" stays a string.
   */
  predicate IsIntegerKeyString(s: string)
  {
    || CanonicalDigits(s)
    || (|s| >= 2 && s[0] == '-' && s[1] != '0' && CanonicalDigits(s[1..]))
  }

  /** The key PHP actually uses when a string is written as an array key. */
  function ArrayKey(s: string): (k: Key)
    ensures k.StrKey? <==> !IsIntegerKeyString(s)
    ensures k.StrKey? ==> k.s == s
  {
    if CanonicalDigits(s) then IntKey(DigitsValue(s))
    else if |s| >= 2 && s[0] == '-' && s[1] != '0' && CanonicalDigits(s[1..]) then IntKey(-(DigitsValue(s[1..]) as int))
    else StrKey(s)
  }

  /** How a key is spelled as a JSON object member name. */
  function KeyString(k: Key): string
  {
    match k
    case IntKey(n) => IntToString(n)
    case StrKey(s) => s
  }

  lemma {:induction false} DigitsValuePositive(s: string)
    requires AllDigits(s) && |s| > 0 && s[0] != '0'
    ensures DigitsValue(s) >= 1
    decreases |s|
  {
    if |s| > 1 {
      var t := s[..|s| - 1];
      assert t[0] == s[0];
      DigitsValuePositive(t);
    }
  }

  lemma {:induction false} DigitsRoundTrip(s: string)
    requires CanonicalDigits(s)
    ensures NatToString(DigitsValue(s)) == s
    decreases |s|
  {
    if |s| > 1 {
      var t := s[..|s| - 1];
      assert t[0] == s[0];
      assert CanonicalDigits(t);
      DigitsValuePositive(t);
      DigitsRoundTrip(t);
      var d := s[|s| - 1] as int - '0' as int;
      var n := DigitsValue(s);
      assert n == DigitsValue(t) * 10 + d;
      assert n / 10 == DigitsValue(t) && n % 10 == d;
      assert s == t + [s[|s| - 1]];
    }
  }

  /**
   * Coercing a string key and spelling the key back gives the string again,
   * so a coerced key still names the same JSON member.
   */
  lemma KeyStringRoundTrip(s: string)
    ensures KeyString(ArrayKey(s)) == s
  {
    if CanonicalDigits(s) {
      DigitsRoundTrip(s);
    } else if |s| >= 2 && s[0] == '-' && s[1] != '0' && CanonicalDigits(s[1..]) {
      DigitsValuePositive(s[1..]);
      DigitsRoundTrip(s[1..]);
      assert s == "-" + s[1..];
    }
  }

  /** Only the string "0" becomes the key 0. */
  lemma ZeroKey(s: string)
    ensures ArrayKey(s) == IntKey(0) <==> s == "0"
  {
    if ArrayKey(s) == IntKey(0) {
      KeyStringRoundTrip(s);
      assert NatToString(0) == "0";
    }
    if s == "0" {
      assert CanonicalDigits(s) && s[..0] == "";
      assert DigitsValue(s) == 0;
    }
  }
}
