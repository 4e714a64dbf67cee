/**
 * JavaScript values as `response.json()` yields them, plus `undefined`, and
 * the property access `v[key]` / `v.key` that App.jsx line 40 chains together.
 */
module JsValue {
  import opened Wrappers

  datatype Value =
    | Undefined
    | Null
    | Bool(b: bool)
    | Num(n: int)
    | Str(s: string)
    | Arr(elems: seq<Value>)
    | Obj(props: map<string, Value>)
  {
    /** Reading a property of null or undefined throws a TypeError. */
    predicate IsNullish() {
      Undefined? || Null?
    }
  }

  // ---------------------------------------------------------------------------
  // Array indices. A property key names an array element only when it is the
  // canonical decimal numeral of an integer below 2^32 - 1.
  // ---------------------------------------------------------------------------

  const MaxArrayIndex: nat := 0xFFFF_FFFE

  predicate IsDigit(c: char) {
    '0' <= c <= '9'
  }

  predicate AllDigits(s: string) {
    forall i :: 0 <= i < |s| ==> IsDigit(s[i])
  }

  function DigitChar(d: nat): (c: char)
    requires d < 10
    ensures IsDigit(c) && c as int - '0' as int == d
  {
    ('0' as int + d) as char
  }

  /** The decimal value of a string of digits. */
  function DigitsValue(s: string): nat
    requires AllDigits(s)
  {
    if s == [] then 0 else 10 * DigitsValue(s[..|s| - 1]) + (s[|s| - 1] as int - '0' as int)
  }

  /** The canonical decimal numeral of `n` (what `String(n)` gives). */
  function Numeral(n: nat): string
  {
    if n < 10 then [DigitChar(n)] else Numeral(n / 10) + [DigitChar(n % 10)]
  }

  /** A numeral without a superfluous leading zero. */
  predicate IsCanonicalNumeral(key: string) {
    key != [] && AllDigits(key) && (key[0] == '0' ==> |key| == 1)
  }

  /** The array index that `key` denotes, if any. */
  function ArrayIndex(key: string): (r: Option<nat>)
    ensures r.Some? ==> r.value <= MaxArrayIndex && Numeral(r.value) == key
  {
    if IsCanonicalNumeral(key) && DigitsValue(key) <= MaxArrayIndex then
      NumeralOfDigits(key);
      Some(DigitsValue(key))
    else
      None
  }

  lemma {:induction false} LeadingDigitPositive(s: string)
    requires AllDigits(s) && s != [] && s[0] != '0'
    ensures DigitsValue(s) > 0
  {
    if |s| > 1 {
      LeadingDigitPositive(s[..|s| - 1]);
    }
  }

  /** Reading a canonical numeral and printing it back gives the same text. */
  lemma {:induction false} NumeralOfDigits(key: string)
    requires IsCanonicalNumeral(key)
    ensures Numeral(DigitsValue(key)) == key
  {
    var p, d := key[..|key| - 1], key[|key| - 1] as int - '0' as int;
    if |key| == 1 {
      assert key == [DigitChar(d)];
    } else {
      assert IsCanonicalNumeral(p) && p[0] == key[0];
      LeadingDigitPositive(p);
      NumeralOfDigits(p);
      var m := DigitsValue(p);
      assert DigitsValue(key) == 10 * m + d;
      assert (10 * m + d) / 10 == m && (10 * m + d) % 10 == d;
      assert key == p + [DigitChar(d)];
    }
  }

  lemma {:induction false} NumeralDigits(n: nat)
    ensures IsCanonicalNumeral(Numeral(n)) && DigitsValue(Numeral(n)) == n
    ensures n > 0 ==> Numeral(n)[0] != '0'
  {
    if n >= 10 {
      NumeralDigits(n / 10);
      var p := Numeral(n / 10);
      assert Numeral(n)[..|Numeral(n)| - 1] == p;
    }
  }

  /** Every index an array can have is named by its numeral, e.g. `x[0]` reads key "0". */
  lemma NumeralIsIndex(n: nat)
    requires n <= MaxArrayIndex
    ensures ArrayIndex(Numeral(n)) == Some(n)
  {
    NumeralDigits(n);
  }

  /** `x[0]` reads key "0", which names the first element. */
  lemma ZeroIsIndex()
    ensures ArrayIndex("0") == Some(0)
  {
    NumeralIsIndex(0);
    assert Numeral(0) == "0";
  }

  // ---------------------------------------------------------------------------
  // Property access.
  // ---------------------------------------------------------------------------

  /**
   * `v[key]`: None when the access throws (v is null or undefined);
   * otherwise the value found, `undefined` for a missing property.
   */
  function Get(v: Value, key: string): (r: Option<Value>)
    ensures r.None? <==> v.IsNullish()
    ensures r.Some? && !r.value.Undefined? ==> v.Str? || v.Arr? || v.Obj?
  {
    match v
    case Undefined => None
    case Null => None
    case Bool(_) => Some(Undefined)
    case Num(_) => Some(Undefined)
    case Str(s) =>
      (match ArrayIndex(key)
       case Some(i) => if i < |s| then Some(Str([s[i]])) else Some(Undefined)
       case None => Some(Undefined))
    case Arr(elems) =>
      (match ArrayIndex(key)
       case Some(i) => if i < |elems| then Some(elems[i]) else Some(Undefined)
       case None => Some(Undefined))
    case Obj(props) => Some(if key in props then props[key] else Undefined)
  }

  /** The chain `v[path[0]][path[1]]...`; None when some step throws. */
  function GetPath(v: Value, path: seq<string>): Option<Value>
    decreases |path|
  {
    if path == [] then Some(v)
    else
      match Get(v, path[0])
      case None => None
      case Some(u) => GetPath(u, path[1..])
  }

  /**
   * A chain is read left to right: reading `p + q` is reading `p`, then reading
   * `q` from where `p` stopped, and a throw in `p` ends the whole chain.
   */
  lemma {:induction false} GetPathConcat(v: Value, p: seq<string>, q: seq<string>)
    ensures GetPath(v, p + q) == match GetPath(v, p)
                                 case None => None
                                 case Some(u) => GetPath(u, q)
    decreases |p|
  {
    if p == [] {
      assert p + q == q;
    } else {
      assert (p + q)[0] == p[0];
      assert (p + q)[1..] == p[1..] + q;
      match Get(v, p[0])
      case None =>
      case Some(u) => GetPathConcat(u, p[1..], q);
    }
  }

  /** The first `k` steps of the chain complete and reach null or undefined. */
  ghost predicate NullishAt(v: Value, path: seq<string>, k: nat)
    requires k <= |path|
  {
    var u := GetPath(v, path[..k]);
    u.Some? && u.value.IsNullish()
  }

  /** One of the steps of the chain is taken from null or undefined. */
  ghost predicate StepFromNullish(v: Value, path: seq<string>) {
    exists k :: 0 <= k < |path| && NullishAt(v, path, k)
  }

  /** A chain throws exactly when one of its steps is taken from null or undefined. */
  lemma {:induction false} GetPathThrowsIff(v: Value, path: seq<string>)
    ensures GetPath(v, path).None? <==> StepFromNullish(v, path)
    decreases |path|
  {
    if path != [] {
      assert path[..0] == [];
      match Get(v, path[0])
      case None =>
        assert NullishAt(v, path, 0);
      case Some(u) =>
        assert !NullishAt(v, path, 0);
        GetPathThrowsIff(u, path[1..]);
        forall k | 0 <= k < |path| - 1
          ensures NullishAt(v, path, k + 1) <==> NullishAt(u, path[1..], k)
        {
          assert path[..k + 1][0] == path[0];
          assert path[..k + 1][1..] == path[1..][..k];
        }
        if GetPath(v, path).None? {
          var k :| 0 <= k < |path| - 1 && NullishAt(u, path[1..], k);
          assert NullishAt(v, path, k + 1);
        }
        if exists k :: 0 <= k < |path| && NullishAt(v, path, k) {
          var k :| 0 <= k < |path| && NullishAt(v, path, k);
          assert NullishAt(u, path[1..], k - 1);
        }
    }
  }
}
