/** `String.prototype.trim` of ECMAScript (ECMA-262, section 22.1.3.32): remove the code points
    of the WhiteSpace and LineTerminator productions from both ends of a string. Every `trim()`
    of the modelled code (useTodos.ts, TodoForm.tsx, TodoItem.tsx) is this function. */
module JsString {

  /** WhiteSpace (ECMA-262 section 12.2: TAB, VT, FF, ZWNBSP and the space separators of
      Unicode category Zs) or LineTerminator (section 12.3: LF, CR, LS, PS). */
  predicate IsWhiteSpace(c: char) {
    var n := c as int;
    n == 0x09 || n == 0x0B || n == 0x0C || n == 0x20 || n == 0xA0 || n == 0xFEFF
    || n == 0x1680 || (0x2000 <= n <= 0x200A) || n == 0x202F || n == 0x205F || n == 0x3000
    || n == 0x0A || n == 0x0D || n == 0x2028 || n == 0x2029
  }

  ghost predicate AllWhiteSpace(s: string) {
    forall i :: 0 <= i < |s| ==> IsWhiteSpace(s[i])
  }

  /** The string neither starts nor ends with white space (the empty string qualifies). */
  ghost predicate Trimmed(s: string) {
    s == [] || (!IsWhiteSpace(s[0]) && !IsWhiteSpace(s[|s| - 1]))
  }

  /** Length of the longest white-space prefix. */
  function LeadingWhiteSpace(s: string): (n: nat)
    ensures n <= |s|
    ensures AllWhiteSpace(s[..n])
    ensures n < |s| ==> !IsWhiteSpace(s[n])
  {
    if |s| > 0 && IsWhiteSpace(s[0]) then
      var k := LeadingWhiteSpace(s[1..]);
      k + 1
    else 0
  }

  /** Length of the longest white-space suffix. */
  function TrailingWhiteSpace(s: string): (n: nat)
    ensures n <= |s|
    ensures AllWhiteSpace(s[|s| - n..])
    ensures n < |s| ==> !IsWhiteSpace(s[|s| - 1 - n])
  {
    if |s| > 0 && IsWhiteSpace(s[|s| - 1]) then
      var k := TrailingWhiteSpace(s[..|s| - 1]);
      k + 1
    else 0
  }

  /** `s.trim()`. */
  function Trim(s: string): (r: string)
    ensures |r| <= |s|
    ensures Trimmed(r)
    ensures r == [] <==> AllWhiteSpace(s)
  {
    var lo := LeadingWhiteSpace(s);
    var hi := |s| - TrailingWhiteSpace(s[lo..]);
    assert lo < |s| ==> s[lo..][0] == s[lo];
    assert lo == |s| ==> s == s[..lo];
    s[lo..hi]
  }

  /** Trim is characterised by what it removes: whatever white space surrounds a string that
      neither starts nor ends with white space, trimming yields exactly that string. */
  lemma {:induction false} TrimUnique(a: string, m: string, b: string)
    requires AllWhiteSpace(a) && AllWhiteSpace(b) && Trimmed(m)
    ensures Trim(a + m + b) == m
  {
    var s := a + m + b;
    if m == [] {
      assert AllWhiteSpace(s) by {
        forall i | 0 <= i < |s| ensures IsWhiteSpace(s[i]) {
          if i < |a| { assert s[i] == a[i]; } else { assert s[i] == b[i - |a|]; }
        }
      }
    } else {
      var lo := LeadingWhiteSpace(s);
      assert s[|a|] == m[0];
      assert lo == |a|;
      var t := s[lo..];
      assert t == m + b;
      var k := TrailingWhiteSpace(t);
      assert t[|t| - 1 - |b|] == m[|m| - 1];
      assert k == |b|;
      assert s[lo..|s| - k] == m;
    }
  }

  /** A string with no white space at either end is its own trim. */
  lemma TrimOfTrimmed(s: string)
    requires Trimmed(s)
    ensures Trim(s) == s
  {
    TrimUnique([], s, []);
    assert [] + s + [] == s;
  }

  /** A trailing space is trimmed off. */
  lemma TrimTrailingSpace(s: string)
    requires Trimmed(s)
    ensures Trim(s + [' ']) == s
  {
    assert AllWhiteSpace([' ']);
    TrimUnique([], s, [' ']);
    assert [] + s + [' '] == s + [' '];
  }

  /** Trimming twice is trimming once. */
  lemma TrimIdempotent(s: string)
    ensures Trim(Trim(s)) == Trim(s)
  {
    TrimOfTrimmed(Trim(s));
  }
}
