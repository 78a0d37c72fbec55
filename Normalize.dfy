/**
 * `clean_text` (web_agent.py:455-460): every maximal run of whitespace is
 * replaced by one space (`re.sub(r'\s+', ' ', text)`), then both ends are
 * stripped. The backend passes the model's answer through it before
 * returning it.
 */
module Normalize {
  import opened PyStr
  import opened Seqs

  /** Every whitespace character of `s` is a plain space. */
  predicate OnlyPlainSpaces(s: string) {
    forall i :: 0 <= i < |s| && IsSpace(s[i]) ==> s[i] == ' '
  }

  /** No two neighbouring characters of `s` are both whitespace. */
  ghost predicate NoDoubleSpace(s: string) {
    forall i, j :: 0 <= i < j < |s| && j == i + 1 ==> !(IsSpace(s[i]) && IsSpace(s[j]))
  }

  /** The shape every output of `clean_text` has. */
  ghost predicate IsClean(s: string) {
    NoEdgeSpace(s) && OnlyPlainSpaces(s) && NoDoubleSpace(s)
  }

  /** `re.sub(r'\s+', ' ', s)`: each maximal whitespace run becomes one space. */
  function Collapse(s: string): string
    decreases |s|
  {
    if s == [] then []
    else if IsSpace(s[0]) then [' '] + Collapse(StripLeft(s))
    else [s[0]] + Collapse(s[1..])
  }

  /**
   * The collapse has only plain single spaces, is empty only for empty
   * input, and starts with whitespace exactly when its input does.
   */
  lemma {:induction false} CollapseShape(s: string)
    ensures var r := Collapse(s);
      && OnlyPlainSpaces(r) && NoDoubleSpace(r)
      && (r == [] <==> s == [])
      && (s != [] ==> (IsSpace(r[0]) <==> IsSpace(s[0])))
    decreases |s|
  {
    if s != [] {
      var t := if IsSpace(s[0]) then StripLeft(s) else s[1..];
      var head := if IsSpace(s[0]) then ' ' else s[0];
      var y := Collapse(t);
      CollapseShape(t);
      assert Collapse(s) == [head] + y;
      ConsKeepsSpacing(head, y);
    }
  }

  /** Putting one character in front of a well-spaced string keeps it well spaced, provided it does not put two spaces side by side. */
  lemma ConsKeepsSpacing(c: char, y: string)
    requires OnlyPlainSpaces(y) && NoDoubleSpace(y)
    requires IsSpace(c) ==> c == ' ' && (y == [] || !IsSpace(y[0]))
    ensures OnlyPlainSpaces([c] + y) && NoDoubleSpace([c] + y)
  {
    var r := [c] + y;
    forall i | 0 < i < |r| ensures r[i] == y[i - 1] { }
  }

  /** `clean_text(text)`. */
  function CleanText(s: string): (r: string)
    ensures IsClean(r)
  {
    var c := Collapse(s);
    CollapseShape(s);
    StripKeepsSpacing(c);
    Strip(c)
  }

  /** Stripping cuts out a slice, so it keeps single plain spacing. */
  lemma StripKeepsSpacing(c: string)
    requires OnlyPlainSpaces(c) && NoDoubleSpace(c)
    ensures OnlyPlainSpaces(Strip(c)) && NoDoubleSpace(Strip(c))
  {
    var l := StripLeft(c);
    SliceKeepsSpacing(c, |c| - |l|, |c|);
    SliceKeepsSpacing(l, 0, |StripRight(l)|);
  }

  lemma SliceKeepsSpacing(c: string, i: nat, j: nat)
    requires i <= j <= |c|
    requires OnlyPlainSpaces(c) && NoDoubleSpace(c)
    ensures OnlyPlainSpaces(c[i..j]) && NoDoubleSpace(c[i..j])
  {
    var r := c[i..j];
    forall k | 0 <= k < |r| ensures r[k] == c[i + k] { }
  }

  /** Collapsing changes whitespace only: the other characters survive in order. */
  lemma {:induction false} CollapseKeepsNonSpace(s: string)
    ensures NonSpace(Collapse(s)) == NonSpace(s)
    decreases |s|
  {
    if s == [] {
    } else if IsSpace(s[0]) {
      var t := StripLeft(s);
      StripLeftDropsSpaces(s);
      CollapseKeepsNonSpace(t);
      NonSpaceConcat([' '], Collapse(t));
      assert s == s[..|s| - |t|] + t;
      NonSpaceConcat(s[..|s| - |t|], t);
      NonSpaceOfSpaces(s[..|s| - |t|]);
    } else {
      CollapseKeepsNonSpace(s[1..]);
      NonSpaceConcat([s[0]], Collapse(s[1..]));
    }
  }

  /** `clean_text` keeps every non-whitespace character, in order, and adds none. */
  lemma CleanTextKeepsNonSpace(s: string)
    ensures NonSpace(CleanText(s)) == NonSpace(s)
  {
    CollapseKeepsNonSpace(s);
    StripKeepsNonSpace(Collapse(s));
  }

  /** A string that already has single plain spaces between words collapses to itself. */
  lemma {:induction false} CollapseOfCollapsed(s: string)
    requires OnlyPlainSpaces(s) && NoDoubleSpace(s)
    ensures Collapse(s) == s
    decreases |s|
  {
    if s != [] {
      if IsSpace(s[0]) {
        assert StripLeft(s) == s[1..] by {
          if |s| > 1 {
            assert !IsSpace(s[1]);
          }
        }
      }
      CollapseOfCollapsed(s[1..]);
    }
  }

  /** Clean strings are fixed points of `clean_text`. */
  lemma CleanTextOfClean(s: string)
    requires IsClean(s)
    ensures CleanText(s) == s
  {
    CollapseOfCollapsed(s);
    StripOfTrimmed(s);
  }

  /** `clean_text` is idempotent. */
  lemma CleanTextIdempotent(s: string)
    ensures CleanText(CleanText(s)) == CleanText(s)
  {
    CleanTextOfClean(CleanText(s));
  }

  /** A run of non-whitespace passes through the collapse untouched. */
  lemma {:induction false} CollapseAfterWord(w: string, rest: string)
    requires NoSpace(w)
    ensures Collapse(w + rest) == w + Collapse(rest)
    decreases |w|
  {
    if w != [] {
      assert (w + rest)[0] == w[0] && (w + rest)[1..] == w[1..] + rest;
      CollapseAfterWord(w[1..], rest);
    } else {
      assert w + rest == rest;
    }
  }

  /** Right-stripping `x + y` only touches `y` once `y` starts with a non-space. */
  lemma {:induction false} StripRightAfter(x: string, y: string)
    requires y != [] && !IsSpace(y[0])
    ensures StripRight(x + y) == x + StripRight(y)
    decreases |y|
  {
    var xy := x + y;
    if IsSpace(y[|y| - 1]) {
      assert xy[..|xy| - 1] == x + y[..|y| - 1];
      StripRightAfter(x, y[..|y| - 1]);
    }
  }

  /** One leading whitespace character makes no difference to `strip`. */
  lemma StripAfterSpace(c: char, y: string)
    requires IsSpace(c)
    ensures Strip([c] + y) == Strip(y)
  {
    assert ([c] + y)[1..] == y;
  }

  /** `split` on input that starts with a word: that word, then the words after it. */
  lemma WordsStep(t: string)
    requires t != [] && !IsSpace(t[0])
    ensures Words(t) == [WordPrefix(t)] + Words(StripLeft(t[|WordPrefix(t)|..]))
  {
    var rest := t[|WordPrefix(t)|..];
    assert Words(rest) == Words(StripLeft(rest));
  }

  /** The collapse of input that starts with a word: that word, then one space per run. */
  lemma CollapseStep(t: string)
    requires t != [] && !IsSpace(t[0])
    ensures t[|WordPrefix(t)|..] == [] ==> Collapse(t) == WordPrefix(t)
    ensures t[|WordPrefix(t)|..] != [] ==>
      Collapse(t) == WordPrefix(t) + [' '] + Collapse(StripLeft(t[|WordPrefix(t)|..]))
  {
    var w := WordPrefix(t);
    var rest := t[|w|..];
    assert t == w + rest;
    CollapseAfterWord(w, rest);
    if rest != [] {
      CollapseOfRun(w, rest);
    }
  }

  /** A whitespace run collapses to one space followed by the collapse of what comes after it. */
  lemma CollapseOfRun(w: string, rest: string)
    requires rest != [] && IsSpace(rest[0])
    ensures w + Collapse(rest) == w + [' '] + Collapse(StripLeft(rest))
  {
    CollapseUnfoldSpace(rest);
    Assoc(w, [' '], Collapse(StripLeft(rest)));
  }

  lemma CollapseUnfoldSpace(rest: string)
    requires rest != [] && IsSpace(rest[0])
    ensures Collapse(rest) == [' '] + Collapse(StripLeft(rest))
  {
  }

  /** `strip` of a word followed by one space. */
  lemma StripWordSpace(w: string)
    requires w != [] && NoSpace(w)
    ensures Strip(w + [' ']) == w
  {
    var x := w + [' '];
    assert x[0] == w[0];
    assert StripLeft(x) == x;
    assert x[..|x| - 1] == w;
    assert StripRight(x) == StripRight(w);
  }

  /** `strip` of a word, a space and a string that starts with a non-space. */
  lemma StripWordSpaceMore(w: string, y: string)
    requires w != [] && NoSpace(w)
    requires y != [] && !IsSpace(y[0])
    ensures Strip(w + [' '] + y) == w + [' '] + Strip(y)
  {
    StripRightAfter(w + [' '], y);
  }

  /** `" ".join` of at least two parts. */
  lemma JoinCons(w: string, ws: seq<string>)
    requires ws != []
    ensures JoinSpace([w] + ws) == w + [' '] + JoinSpace(ws)
  {
    assert ([w] + ws)[1..] == ws;
  }

  /** The step of `CleanTextIsJoinOfWords`, on input that starts with a non-space. */
  lemma {:induction false} CleanFromWord(t: string)
    requires t == [] || !IsSpace(t[0])
    ensures Strip(Collapse(t)) == JoinSpace(Words(t))
    decreases |t|
  {
    if t != [] {
      var rest := t[|WordPrefix(t)|..];
      var u := StripLeft(rest);
      if rest == [] {
        CleanLastWord(t);
      } else if u == [] {
        CleanWordThenSpace(t);
      } else {
        CleanFromWord(u);
        CleanWordThenMore(t);
      }
    }
  }

  /** Input that is a single word. */
  lemma CleanLastWord(t: string)
    requires t != [] && !IsSpace(t[0]) && t[|WordPrefix(t)|..] == []
    ensures Strip(Collapse(t)) == JoinSpace(Words(t))
  {
    var w := WordPrefix(t);
    WordsStep(t);
    CollapseStep(t);
    assert Words(t) == [w] && Collapse(t) == w;
    StripOfTrimmed(w);
  }

  /** Input that is a single word followed by whitespace. */
  lemma CleanWordThenSpace(t: string)
    requires t != [] && !IsSpace(t[0])
    requires t[|WordPrefix(t)|..] != [] && StripLeft(t[|WordPrefix(t)|..]) == []
    ensures Strip(Collapse(t)) == JoinSpace(Words(t))
  {
    var w := WordPrefix(t);
    WordsStep(t);
    CollapseStep(t);
    assert Words(t) == [w] && Collapse(t) == w + [' '];
    StripWordSpace(w);
  }

  /** Input that is a word, whitespace, and more words: the induction step. */
  lemma CleanWordThenMore(t: string)
    requires t != [] && !IsSpace(t[0])
    requires StripLeft(t[|WordPrefix(t)|..]) != []
    requires var u := StripLeft(t[|WordPrefix(t)|..]); Strip(Collapse(u)) == JoinSpace(Words(u))
    ensures Strip(Collapse(t)) == JoinSpace(Words(t))
  {
    var w := WordPrefix(t);
    var u := StripLeft(t[|w|..]);
    WordsStep(t);
    CollapseStep(t);
    CollapseShape(u);
    StripWordSpaceMore(w, Collapse(u));
    JoinCons(w, Words(u));
  }

  /**
   * `clean_text(s)` is Python's `" ".join(s.split())`: the words of `s`
   * joined by single spaces.
   */
  lemma CleanTextIsJoinOfWords(s: string)
    ensures CleanText(s) == JoinSpace(Words(s))
  {
    var t := StripLeft(s);
    if s != [] && IsSpace(s[0]) {
      StripAfterSpace(' ', Collapse(t));
    }
    CleanFromWord(t);
  }
}
