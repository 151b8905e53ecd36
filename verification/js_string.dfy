/**
 * `String.prototype.trim` of ECMAScript, which the controller uses to reject
 * blank titles: it strips the WhiteSpace and LineTerminator code points from
 * both ends of a string (sections 12.2 and 12.3 of ECMA-262).
 */
module JsString {

  /** The code points `trim` strips: tab, the line terminators, vertical tab, form feed,
      space, no-break space, the byte-order mark and the Unicode space separators. */
  predicate IsTrimmable(c: char) {
    var n := c as int;
    n == 0x09 || n == 0x0A || n == 0x0B || n == 0x0C || n == 0x0D || n == 0x20
    || n == 0xA0 || n == 0x1680 || (0x2000 <= n <= 0x200A)
    || n == 0x2028 || n == 0x2029 || n == 0x202F || n == 0x205F || n == 0x3000
    || n == 0xFEFF
  }

  /** Every character of `s` is one `trim` strips (so the empty string is blank). */
  predicate Blank(s: string) {
    forall k :: 0 <= k < |s| ==> IsTrimmable(s[k])
  }

  /** `s` without its leading trimmable characters. */
  function TrimStart(s: string): (r: string)
    ensures |r| <= |s| && r == s[|s| - |r|..]
    ensures Blank(s[..|s| - |r|])
    ensures r == [] || !IsTrimmable(r[0])
  {
    if s == [] || !IsTrimmable(s[0]) then s else TrimStart(s[1..])
  }

  /** `s` without its trailing trimmable characters. */
  function TrimEnd(s: string): (r: string)
    ensures |r| <= |s| && r == s[..|r|]
    ensures Blank(s[|r|..])
    ensures r == [] || !IsTrimmable(r[|r| - 1])
  {
    if s == [] || !IsTrimmable(s[|s| - 1]) then s else TrimEnd(s[..|s| - 1])
  }

  /** `s.trim()`: the piece of `s` left after removing a blank prefix and a blank suffix,
      and which neither starts nor ends with a trimmable character. */
  function Trim(s: string): (r: string)
    ensures exists i, j :: 0 <= i <= j <= |s| && r == s[i..j] && Blank(s[..i]) && Blank(s[j..])
    ensures r == [] || (!IsTrimmable(r[0]) && !IsTrimmable(r[|r| - 1]))
  {
    var u := TrimStart(s);
    var r := TrimEnd(u);
    var i := |s| - |u|;
    var j := i + |r|;
    assert r == s[i..j];
    assert Blank(s[..i]);
    assert s[j..] == u[|r|..];
    assert Blank(s[j..]);
    r
  }

  /** `s.trim() != ''` exactly when `s` holds a character that `trim` keeps. */
  lemma TrimEmptyIffBlank(s: string)
    ensures Trim(s) == [] <==> Blank(s)
  {
    var u := TrimStart(s);
    if TrimEnd(u) == [] {
      // u is blank, and a blank remainder of TrimStart can only be empty
      assert Blank(u[0..]);
      assert u == [];
      assert s == s[..|s| - |u|];
    }
  }
}
