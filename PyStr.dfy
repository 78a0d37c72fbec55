/**
 * The few Python `str` builtins that web_agent.py relies on, stated over
 * Dafny strings (`seq<char>`): `str.isspace` (which is also the class that
 * `\s` matches in a `str` regex), `str.strip`, the substring test `p in s`,
 * ASCII `str.lower`, `" ".join`, `str.split()`, and single-character
 * `str.replace`.
 */
module PyStr {

  /** Python's `str.isspace()` for one character; `re`'s `\s` matches the same set. */
  predicate IsSpace(c: char) {
    var n := c as int;
    (0x09 <= n <= 0x0D) || (0x1C <= n <= 0x20) || n == 0x85 || n == 0xA0 || n == 0x1680
    || (0x2000 <= n <= 0x200A) || n == 0x2028 || n == 0x2029 || n == 0x202F
    || n == 0x205F || n == 0x3000
  }

  predicate AllSpace(s: string) {
    forall i :: 0 <= i < |s| ==> IsSpace(s[i])
  }

  predicate NoSpace(s: string) {
    forall i :: 0 <= i < |s| ==> !IsSpace(s[i])
  }

  /** Neither end of `s` is whitespace. */
  predicate NoEdgeSpace(s: string) {
    s == [] || (!IsSpace(s[0]) && !IsSpace(s[|s| - 1]))
  }

  /** `s.lstrip()`: what is left after the maximal whitespace prefix. */
  function StripLeft(s: string): (r: string)
    ensures |r| <= |s| && r == s[|s| - |r|..]
    ensures r == [] || !IsSpace(r[0])
  {
    if s != [] && IsSpace(s[0]) then StripLeft(s[1..]) else s
  }

  /** What `lstrip` removes is all whitespace. */
  lemma {:induction false} StripLeftDropsSpaces(s: string)
    ensures AllSpace(s[..|s| - |StripLeft(s)|])
  {
    if s != [] && IsSpace(s[0]) {
      StripLeftDropsSpaces(s[1..]);
      assert forall i :: 1 <= i < |s| - |StripLeft(s)| ==> s[i] == s[1..][i - 1];
    }
  }

  /** `s.rstrip()`: what is left after the maximal whitespace suffix. */
  function StripRight(s: string): (r: string)
    ensures |r| <= |s| && r == s[..|r|]
    ensures r == [] || !IsSpace(r[|r| - 1])
  {
    if s != [] && IsSpace(s[|s| - 1]) then StripRight(s[..|s| - 1]) else s
  }

  /** What `rstrip` removes is all whitespace. */
  lemma {:induction false} StripRightDropsSpaces(s: string)
    ensures AllSpace(s[|StripRight(s)|..])
    ensures forall i :: |StripRight(s)| <= i < |s| ==> IsSpace(s[i])
  {
    if s != [] && IsSpace(s[|s| - 1]) {
      StripRightDropsSpaces(s[..|s| - 1]);
      assert forall i :: |StripRight(s)| <= i < |s| - 1 ==> s[i] == s[..|s| - 1][i];
    }
  }

  /** `s.strip()`: neither end of the result is whitespace. */
  function Strip(s: string): (r: string)
    ensures NoEdgeSpace(r)
  {
    StripRight(StripLeft(s))
  }

  /** `s` is the strip of `s` framed by whitespace on both sides. */
  lemma StripIsInfix(s: string)
    ensures exists i, j :: 0 <= i <= j <= |s| && Strip(s) == s[i..j] && AllSpace(s[..i]) && AllSpace(s[j..])
  {
    var l := StripLeft(s);
    var r := StripRight(l);
    var i := |s| - |l|;
    StripLeftDropsSpaces(s);
    StripRightDropsSpaces(l);
    assert r == s[i..i + |r|];
    assert s[i + |r|..] == l[|r|..];
  }

  /** The non-whitespace characters of `s`, in order. */
  function NonSpace(s: string): string {
    if s == [] then [] else (if IsSpace(s[0]) then [] else [s[0]]) + NonSpace(s[1..])
  }

  lemma {:induction false} NonSpaceConcat(a: string, b: string)
    ensures NonSpace(a + b) == NonSpace(a) + NonSpace(b)
  {
    if a == [] {
      assert a + b == b;
    } else {
      assert (a + b)[0] == a[0] && (a + b)[1..] == a[1..] + b;
      NonSpaceConcat(a[1..], b);
    }
  }

  lemma {:induction false} NonSpaceOfSpaces(s: string)
    requires AllSpace(s)
    ensures NonSpace(s) == []
  {
    if s != [] {
      NonSpaceOfSpaces(s[1..]);
    }
  }

  /** Stripping removes whitespace only. */
  lemma StripKeepsNonSpace(s: string)
    ensures NonSpace(Strip(s)) == NonSpace(s)
  {
    StripLeftKeepsNonSpace(s);
    StripRightKeepsNonSpace(StripLeft(s));
  }

  lemma StripLeftKeepsNonSpace(s: string)
    ensures NonSpace(StripLeft(s)) == NonSpace(s)
  {
    var l := StripLeft(s);
    var a := s[..|s| - |l|];
    StripLeftDropsSpaces(s);
    assert s == a + l;
    DropSpacesKeepsNonSpace(a, l);
  }

  lemma StripRightKeepsNonSpace(s: string)
    ensures NonSpace(StripRight(s)) == NonSpace(s)
  {
    var r := StripRight(s);
    var b := s[|r|..];
    StripRightDropsSpaces(s);
    assert s == r + b;
    DropSpacesKeepsNonSpace(r, b);
  }

  /** Whitespace next to `b`, on either side, does not change its non-space characters. */
  lemma DropSpacesKeepsNonSpace(a: string, b: string)
    ensures AllSpace(a) ==> NonSpace(a + b) == NonSpace(b)
    ensures AllSpace(b) ==> NonSpace(a + b) == NonSpace(a)
  {
    NonSpaceConcat(a, b);
    if AllSpace(a) {
      NonSpaceOfSpaces(a);
    }
    if AllSpace(b) {
      NonSpaceOfSpaces(b);
    }
  }

  /** A string with no whitespace at either end is its own strip. */
  lemma StripOfTrimmed(s: string)
    requires NoEdgeSpace(s)
    ensures Strip(s) == s
  {
  }

  /** `s` contains `p` at position `i`. */
  predicate OccursAt(s: string, p: string, i: int) {
    0 <= i && i + |p| <= |s| && s[i..i + |p|] == p
  }

  /** `p in s[k..]` (as positions of `s`), by a left-to-right search. */
  function ContainsFrom(s: string, p: string, k: nat): bool
    decreases |s| - k
  {
    if k + |p| > |s| then false
    else if s[k..k + |p|] == p then true
    else ContainsFrom(s, p, k + 1)
  }

  /** Python's substring test `p in s`. */
  function Contains(s: string, p: string): bool {
    ContainsFrom(s, p, 0)
  }

  /** The search from `k` succeeds exactly when `p` occurs at some position from `k` on. */
  lemma {:induction false} ContainsFromOccurs(s: string, p: string, k: nat)
    ensures ContainsFrom(s, p, k) <==> exists i :: k <= i && OccursAt(s, p, i)
    decreases |s| - k
  {
    if k + |p| > |s| {
    } else if s[k..k + |p|] == p {
      assert OccursAt(s, p, k);
    } else {
      ContainsFromOccurs(s, p, k + 1);
      assert forall i :: k <= i && OccursAt(s, p, i) ==> k + 1 <= i;
    }
  }

  /** `p in s` holds exactly when `p` occurs somewhere in `s`. */
  lemma ContainsOccurs(s: string, p: string)
    ensures Contains(s, p) <==> exists i :: OccursAt(s, p, i)
  {
    ContainsFromOccurs(s, p, 0);
  }

  /** `str.lower()` restricted to ASCII letters. */
  function LowerChar(c: char): char {
    if 'A' <= c <= 'Z' then (c as int + 32) as char else c
  }

  function Lower(s: string): string {
    seq(|s|, i requires 0 <= i < |s| => LowerChar(s[i]))
  }

  /** `" ".join(parts)`. */
  function JoinSpace(parts: seq<string>): string {
    if |parts| == 0 then ""
    else if |parts| == 1 then parts[0]
    else parts[0] + " " + JoinSpace(parts[1..])
  }

  /** The maximal non-whitespace prefix of `s`. */
  function WordPrefix(s: string): (w: string)
    ensures |w| <= |s| && w == s[..|w|] && NoSpace(w)
    ensures |w| == |s| || IsSpace(s[|w|])
    ensures s != [] && !IsSpace(s[0]) ==> |w| > 0
  {
    if s != [] && !IsSpace(s[0]) then [s[0]] + WordPrefix(s[1..]) else []
  }

  /** `s.split()` with no separator: the maximal runs of non-whitespace. */
  function Words(s: string): seq<string>
    decreases |s|
  {
    var t := StripLeft(s);
    if t == [] then [] else
      var w := WordPrefix(t);
      [w] + Words(t[|w|..])
  }

  /** `s.replace(a, b)` for single characters `a` and `b`. */
  function ReplaceChar(s: string, a: char, b: char): string {
    seq(|s|, i requires 0 <= i < |s| => if s[i] == a then b else s[i])
  }

  /** `s.replace(a, "")` for a single character `a`. */
  function RemoveChar(s: string, a: char): string {
    if s == [] then [] else (if s[0] == a then [] else [s[0]]) + RemoveChar(s[1..], a)
  }

  predicate Lacks(s: string, c: char) {
    forall i :: 0 <= i < |s| ==> s[i] != c
  }
}
