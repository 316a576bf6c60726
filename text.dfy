/** Strings as sequences of characters, and the few JavaScript string operations the core uses. */
module Text {

  /** ASCII lower-casing of one character. */
  function LowerChar(c: char): char {
    if 'A' <= c <= 'Z' then (c as int + 32) as char else c
  }

  /**
   * `s.toLowerCase()` restricted to ASCII letters. Every needle the core searches for is ASCII
   * lower-case, contains no `k` and does not end in `i`, so find-a-needle answers are the same as
   * with full Unicode lower-casing (the only non-ASCII characters that lower-case into ASCII are
   * KELVIN SIGN, to `k`, and LATIN CAPITAL LETTER I WITH DOT ABOVE, to `i` plus a combining dot).
   */
  function Lower(s: string): (r: string)
    ensures |r| == |s|
    ensures forall i | 0 <= i < |s| :: r[i] == LowerChar(s[i])
  {
    seq(|s|, i requires 0 <= i < |s| => LowerChar(s[i]))
  }

  /** `w` occurs in `s` starting at index `i`. */
  predicate StartsAt(s: string, w: string, i: int) {
    0 <= i && i + |w| <= |s| && s[i..i + |w|] == w
  }

  /** `s.includes(w)`. */
  predicate Contains(s: string, w: string) {
    exists i | 0 <= i <= |s| - |w| :: StartsAt(s, w, i)
  }

  /** `s.startsWith(w)`. */
  predicate StartsWith(s: string, w: string) {
    w <= s
  }

  /** `s.endsWith(w)`. */
  predicate EndsWith(s: string, w: string) {
    |w| <= |s| && s[|s| - |w|..] == w
  }

  /** A string that contains a longer one contains every piece of it. */
  lemma ContainsPart(s: string, a: string, w: string, b: string)
    requires Contains(s, a + w + b)
    ensures Contains(s, w)
  {
    var i :| 0 <= i <= |s| - |a + w + b| && StartsAt(s, a + w + b, i);
    var whole := a + w + b;
    assert forall k | 0 <= k < |w| :: s[i + |a| + k] == whole[|a| + k] == w[k];
    assert s[i + |a|..i + |a| + |w|] == w;
    assert StartsAt(s, w, i + |a|);
  }

  /** A string that contains `w` is contained in any string around it. */
  lemma ContainsWithin(s: string, a: string, m: string, b: string, w: string)
    requires s == a + m + b && Contains(m, w)
    ensures Contains(s, w)
  {
    var i :| 0 <= i <= |m| - |w| && StartsAt(m, w, i);
    assert s[|a| + i..|a| + i + |w|] == m[i..i + |w|];
    assert StartsAt(s, w, |a| + i);
  }

  /** `xs.join(sep)`. */
  function Join(xs: seq<string>, sep: string): string {
    if |xs| == 0 then ""
    else if |xs| == 1 then xs[0]
    else xs[0] + sep + Join(xs[1..], sep)
  }

  /** A join with a non-empty separator is empty exactly for `[]` and `[""]`. */
  lemma JoinEmpty(xs: seq<string>, sep: string)
    requires sep != ""
    ensures Join(xs, sep) == "" <==> xs == [] || xs == [""]
  {
  }

  /** A character that occurs in no element and not in the separator does not occur in the join. */
  lemma {:induction false} JoinAvoids(xs: seq<string>, sep: string, c: char)
    requires c !in sep
    requires forall i | 0 <= i < |xs| :: c !in xs[i]
    ensures c !in Join(xs, sep)
  {
    if |xs| > 1 {
      JoinAvoids(xs[1..], sep, c);
      assert Join(xs, sep) == xs[0] + sep + Join(xs[1..], sep);
    }
  }

  /** Every element occurs in the join. */
  lemma {:induction false} JoinContains(xs: seq<string>, sep: string, i: nat)
    requires i < |xs|
    ensures Contains(Join(xs, sep), xs[i])
  {
    if |xs| == 1 {
      assert StartsAt(Join(xs, sep), xs[0], 0);
    } else if i == 0 {
      assert StartsAt(Join(xs, sep), xs[0], 0);
    } else {
      JoinContains(xs[1..], sep, i - 1);
      ContainsWithin(Join(xs, sep), xs[0] + sep, Join(xs[1..], sep), "", xs[i]);
    }
  }

  /**
   * The characters `String.prototype.trim` removes and the regular-expression class `\s` matches:
   * ECMAScript WhiteSpace and LineTerminator.
   */
  predicate IsJsSpace(c: char) {
    var n := c as int;
    (0x9 <= n <= 0xD) || n == 0x20 || n == 0xA0 || n == 0x1680 || (0x2000 <= n <= 0x200A)
    || n == 0x2028 || n == 0x2029 || n == 0x202F || n == 0x205F || n == 0x3000 || n == 0xFEFF
  }

  predicate AllSpace(s: string) {
    forall i | 0 <= i < |s| :: IsJsSpace(s[i])
  }

  /** The index of the first non-space character at or after `i`, or `|s|`. */
  function SkipSpace(s: string, i: nat): (n: nat)
    requires i <= |s|
    ensures i <= n <= |s| && (n == |s| || !IsJsSpace(s[n]))
    ensures forall k | i <= k < n :: IsJsSpace(s[k])
    decreases |s| - i
  {
    if i < |s| && IsJsSpace(s[i]) then SkipSpace(s, i + 1) else i
  }

  /** The index just after the last non-space character before `j`, or `0`. */
  function SkipSpaceBack(s: string, j: nat): (n: nat)
    requires j <= |s|
    ensures n <= j && (n == 0 || !IsJsSpace(s[n - 1]))
    ensures forall k | n <= k < j :: IsJsSpace(s[k])
  {
    if j > 0 && IsJsSpace(s[j - 1]) then SkipSpaceBack(s, j - 1) else j
  }

  /** `s.trim()`: `s` is the result with white space before and after it, and nothing else removed. */
  function Trim(s: string): (r: string)
    ensures r == "" || (!IsJsSpace(r[0]) && !IsJsSpace(r[|r| - 1]))
    ensures r == "" <==> AllSpace(s)
    ensures exists i | 0 <= i <= |s| - |r| :: StartsAt(s, r, i) && AllSpace(s[..i]) && AllSpace(s[i + |r|..])
  {
    var i := SkipSpace(s, 0);
    if i == |s| then
      assert StartsAt(s, "", i) && AllSpace(s[..i]);
      ""
    else
      var j := SkipSpaceBack(s, |s|);
      assert i < j;
      var r := s[i..j];
      assert StartsAt(s, r, i) && AllSpace(s[..i]) && AllSpace(s[j..]);
      r
  }

  /** Trimming keeps a prefix that starts and ends with a non-space. */
  lemma TrimKeepsPrefix(s: string, w: string)
    requires w <= s && w != "" && !IsJsSpace(w[0]) && !IsJsSpace(w[|w| - 1])
    ensures w <= Trim(s)
  {
    assert s[0] == w[0] && s[|w| - 1] == w[|w| - 1];
    var j := SkipSpaceBack(s, |s|);
    assert |w| <= j;
    assert Trim(s) == s[..j];
  }

  /** Concatenation is associative. */
  lemma AppendAssoc(a: string, b: string, c: string)
    ensures (a + b) + c == a + (b + c)
  {
  }

  /** A concatenation starts with its first part and ends with its last. */
  lemma ConcatEnds(a: string, b: string)
    ensures StartsWith(a + b, a) && EndsWith(a + b, b)
  {
    assert (a + b)[|a + b| - |b|..] == b;
  }

  /** A string that ends with `x + y` ends with `y`. */
  lemma EndsWithPart(s: string, x: string, y: string)
    requires EndsWith(s, x + y)
    ensures EndsWith(s, y)
  {
    assert s[|s| - |y|..] == (x + y)[|x|..];
  }

  /** Equal strings with the same text around a middle part have the same middle part. */
  lemma MiddleCancels(x: string, a: string, b: string, y: string, z: string)
    requires x + a + y + z == x + b + y + z
    ensures a == b
  {
    assert |a| == |b|;
    assert (x + a + y + z)[|x|..|x| + |a|] == a;
    assert (x + b + y + z)[|x|..|x| + |b|] == b;
  }

  /** `s.substring(0, n)`. */
  function Truncate(s: string, n: nat): (r: string)
    ensures |r| == if |s| <= n then |s| else n
    ensures r <= s
  {
    if |s| <= n then s else s[..n]
  }
}
