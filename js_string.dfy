/**
 * `String.prototype.trim`, which App.jsx line 22 applies to the draft before
 * deciding whether to submit it.
 */
module JsString {

  /**
   * The WhiteSpace and LineTerminator code points of ECMAScript (section 12.2
   * and 12.3 of ECMA-262): tab, LF, VT, FF, CR, space, no-break space, the
   * Unicode "Zs" separators, LS, PS and the byte order mark.
   */
  predicate IsTrimmable(c: char) {
    var n := c as int;
    n == 0x09 || n == 0x0A || n == 0x0B || n == 0x0C || n == 0x0D || n == 0x20 ||
    n == 0xA0 || n == 0x1680 || (0x2000 <= n <= 0x200A) || n == 0x2028 ||
    n == 0x2029 || n == 0x202F || n == 0x205F || n == 0x3000 || n == 0xFEFF
  }

  /** Every character of `s` is one that `trim` removes. */
  predicate AllTrimmable(s: string) {
    forall i :: 0 <= i < |s| ==> IsTrimmable(s[i])
  }

  /** `s` without its leading white space: a suffix of `s` that starts with a kept character. */
  function TrimStart(s: string): (r: string)
    ensures |r| <= |s| && r == s[|s| - |r|..]
    ensures r == [] || !IsTrimmable(r[0])
    ensures forall i :: 0 <= i < |s| - |r| ==> IsTrimmable(s[i])
  {
    if s != [] && IsTrimmable(s[0]) then
      var r := TrimStart(s[1..]);
      assert forall i :: 1 <= i < |s| ==> s[i] == s[1..][i - 1];
      r
    else
      s
  }

  /** `s` without its trailing white space: a prefix of `s` that ends with a kept character. */
  function TrimEnd(s: string): (r: string)
    ensures |r| <= |s| && r == s[..|r|]
    ensures r == [] || !IsTrimmable(r[|r| - 1])
    ensures forall i :: |r| <= i < |s| ==> IsTrimmable(s[i])
  {
    if s != [] && IsTrimmable(s[|s| - 1]) then TrimEnd(s[..|s| - 1]) else s
  }

  /**
   * `s.trim()`: `s` without its leading and trailing white space. It is empty
   * exactly when `s` is all white space; otherwise it starts and ends with a
   * kept character.
   */
  function Trim(s: string): (r: string)
    ensures |r| <= |s|
    ensures r == [] <==> AllTrimmable(s)
    ensures r != [] ==> !IsTrimmable(r[0]) && !IsTrimmable(r[|r| - 1])
  {
    TrimmedEnds(s);
    TrimEnd(TrimStart(s))
  }

  lemma TrimmedEnds(s: string)
    ensures |TrimEnd(TrimStart(s))| <= |s|
    ensures TrimEnd(TrimStart(s)) == [] <==> AllTrimmable(s)
    ensures TrimEnd(TrimStart(s)) != [] ==>
      !IsTrimmable(TrimEnd(TrimStart(s))[0]) && !IsTrimmable(TrimEnd(TrimStart(s))[|TrimEnd(TrimStart(s))| - 1])
  {
    var t := TrimStart(s);
    var r := TrimEnd(t);
    var k := |s| - |t|;
    if t != [] {
      assert t[0] == s[k];
      assert IsTrimmable(t[0]) ==> r != [];
    }
    if r != [] {
      assert r[0] == t[0];
    }
  }
}
