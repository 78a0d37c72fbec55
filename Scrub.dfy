/**
 * The string scrubbing that `get_content` and `get_youtube_transcript`
 * apply before text reaches the language model: double quotes become
 * single quotes, backslashes are removed (in page text and in the cached
 * transcript), newlines in transcript entries become spaces, and the
 * pieces are stripped and joined with single spaces.
 */
module Scrub {
  import opened PyStr

  /**
   * `text.replace('"', "'").replace('\\', '').strip()`
   * (web_agent.py:372 for a paragraph, web_agent.py:357 for a transcript).
   */
  function ScrubText(s: string): string {
    Strip(RemoveChar(ReplaceChar(s, '"', '\''), '\\'))
  }

  /** `entry['text'].replace('"', "'").replace('\n', ' ').strip()` (web_agent.py:335). */
  function CleanEntry(s: string): string {
    Strip(ReplaceChar(ReplaceChar(s, '"', '\''), '\n', ' '))
  }

  /** The non-empty scrubbed paragraphs, in order (web_agent.py:371-374). */
  function ScrubbedParagraphs(paragraphs: seq<string>): seq<string> {
    if paragraphs == [] then []
    else
      var t := ScrubText(paragraphs[0]);
      (if t == [] then [] else [t]) + ScrubbedParagraphs(paragraphs[1..])
  }

  /** `" ".join(data)` over the scrubbed paragraphs of a page (web_agent.py:370-379). */
  function PageText(paragraphs: seq<string>): string {
    JoinSpace(ScrubbedParagraphs(paragraphs))
  }

  /** The tag that starts every transcript text (web_agent.py:338). */
  const TranscriptTag: string := "[Transcript] "

  /** The cleaned entries of a transcript, in order (web_agent.py:334-337). */
  function CleanEntries(entries: seq<string>): seq<string> {
    seq(|entries|, i requires 0 <= i < |entries| => CleanEntry(entries[i]))
  }

  /** The transcript text `get_youtube_transcript` returns (web_agent.py:334-338). */
  function TranscriptText(entries: seq<string>): string {
    TranscriptTag + JoinSpace(CleanEntries(entries))
  }

  /** The page content `get_content` caches for a transcript (web_agent.py:357-359). */
  function TranscriptContent(entries: seq<string>): string {
    ScrubText(TranscriptText(entries))
  }

  /** Replacing `a` by some other character leaves no `a`. */
  lemma ReplaceCharRemoves(s: string, a: char, b: char)
    requires a != b
    ensures Lacks(ReplaceChar(s, a, b), a)
  {
  }

  /** Removing a character removes every occurrence and keeps the other characters. */
  lemma {:induction false} RemoveCharLacks(s: string, a: char, c: char)
    requires c != a
    ensures Lacks(RemoveChar(s, a), a)
    ensures Lacks(s, c) ==> Lacks(RemoveChar(s, a), c)
  {
    if s != [] {
      RemoveCharLacks(s[1..], a, c);
    }
  }

  /** Stripping cuts out a slice, so a missing character stays missing. */
  lemma StripLacks(s: string, c: char)
    requires Lacks(s, c)
    ensures Lacks(Strip(s), c)
  {
    var l := StripLeft(s);
    assert forall k :: 0 <= k < |l| ==> l[k] == s[|s| - |l| + k];
    var r := StripRight(l);
    assert forall k :: 0 <= k < |r| ==> r[k] == l[k];
  }

  /**
   * A scrubbed text has no double quote, no backslash and no whitespace at
   * either end.
   */
  lemma ScrubTextShape(s: string)
    ensures var r := ScrubText(s); Lacks(r, '"') && Lacks(r, '\\') && NoEdgeSpace(r)
  {
    var q := ReplaceChar(s, '"', '\'');
    ReplaceCharRemoves(s, '"', '\'');
    RemoveCharLacks(q, '\\', '"');
    StripLacks(RemoveChar(q, '\\'), '"');
    StripLacks(RemoveChar(q, '\\'), '\\');
  }

  /** Removing a character that is not there changes nothing. */
  lemma {:induction false} RemoveAbsent(s: string, a: char)
    requires Lacks(s, a)
    ensures RemoveChar(s, a) == s
  {
    if s != [] {
      RemoveAbsent(s[1..], a);
      assert s == [s[0]] + s[1..];
    }
  }

  /** Replacing a character that is not there changes nothing. */
  lemma ReplaceAbsent(s: string, a: char, b: char)
    requires Lacks(s, a)
    ensures ReplaceChar(s, a, b) == s
  {
  }

  /** Scrubbing twice is scrubbing once. */
  lemma ScrubTextIdempotent(s: string)
    ensures ScrubText(ScrubText(s)) == ScrubText(s)
  {
    var r := ScrubText(s);
    ScrubTextShape(s);
    ReplaceAbsent(r, '"', '\'');
    RemoveAbsent(r, '\\');
    StripOfTrimmed(r);
    assert ScrubText(r) == Strip(RemoveChar(ReplaceChar(r, '"', '\''), '\\'));
  }

  /** Joining pieces that lack `c` with spaces gives a string that lacks `c`, when `c` is not a space. */
  lemma {:induction false} JoinLacks(parts: seq<string>, c: char)
    requires c != ' '
    requires forall k :: 0 <= k < |parts| ==> Lacks(parts[k], c)
    ensures Lacks(JoinSpace(parts), c)
  {
    if |parts| > 1 {
      JoinLacks(parts[1..], c);
    }
  }

  /** Every piece is non-empty and holds no double quote and no backslash. */
  ghost predicate AllScrubbed(parts: seq<string>) {
    forall k :: 0 <= k < |parts| ==> parts[k] != [] && Lacks(parts[k], '"') && Lacks(parts[k], '\\')
  }

  /** Every joined paragraph avoids double quotes and backslashes. */
  lemma {:induction false} ScrubbedParagraphsShape(paragraphs: seq<string>)
    ensures AllScrubbed(ScrubbedParagraphs(paragraphs))
  {
    if paragraphs != [] {
      var t := ScrubText(paragraphs[0]);
      var rest := ScrubbedParagraphs(paragraphs[1..]);
      ScrubTextShape(paragraphs[0]);
      ScrubbedParagraphsShape(paragraphs[1..]);
      assert ScrubbedParagraphs(paragraphs) == (if t == [] then [] else [t]) + rest;
      ConsScrubbed(if t == [] then [] else [t], rest);
    }
  }

  lemma ConsScrubbed(a: seq<string>, b: seq<string>)
    requires AllScrubbed(a) && AllScrubbed(b)
    ensures AllScrubbed(a + b)
  {
    assert forall k :: |a| <= k < |a + b| ==> (a + b)[k] == b[k - |a|];
  }

  /**
   * The text of a page has no double quote and no backslash, and it is
   * empty exactly when every paragraph scrubs to nothing (then the caller
   * at web_agent.py:288 drops the URL).
   */
  lemma PageTextShape(paragraphs: seq<string>)
    ensures Lacks(PageText(paragraphs), '"') && Lacks(PageText(paragraphs), '\\')
    ensures PageText(paragraphs) == [] <==> forall p :: p in paragraphs ==> ScrubText(p) == []
  {
    ScrubbedParagraphsShape(paragraphs);
    JoinLacks(ScrubbedParagraphs(paragraphs), '"');
    JoinLacks(ScrubbedParagraphs(paragraphs), '\\');
    ScrubbedEmpty(paragraphs);
    JoinEmpty(ScrubbedParagraphs(paragraphs));
  }

  /** No paragraph survives exactly when each one scrubs to nothing. */
  lemma {:induction false} ScrubbedEmpty(paragraphs: seq<string>)
    ensures ScrubbedParagraphs(paragraphs) == [] <==> forall p :: p in paragraphs ==> ScrubText(p) == []
  {
    if paragraphs != [] {
      ScrubbedEmpty(paragraphs[1..]);
      assert paragraphs == [paragraphs[0]] + paragraphs[1..];
    }
  }

  /** Joining non-empty pieces is empty only when there are none. */
  lemma JoinEmpty(parts: seq<string>)
    requires forall k :: 0 <= k < |parts| ==> parts[k] != []
    ensures JoinSpace(parts) == [] <==> parts == []
  {
  }

  /**
   * A transcript text is the tag followed by a body with no double quote
   * and no newline. So the text a successful fetch returns (line 338) is
   * never empty, and the `if transcript` test of line 356 passes on it.
   */
  lemma TranscriptTextShape(entries: seq<string>)
    ensures var body := JoinSpace(CleanEntries(entries));
      TranscriptText(entries) == TranscriptTag + body && Lacks(body, '"') && Lacks(body, '\n')
  {
    var parts := CleanEntries(entries);
    forall k | 0 <= k < |parts| ensures Lacks(parts[k], '"') && Lacks(parts[k], '\n') {
      CleanEntryShape(entries[k]);
    }
    JoinLacks(parts, '"');
    JoinLacks(parts, '\n');
  }

  /** A cleaned transcript entry holds no double quote and no newline. */
  lemma CleanEntryShape(e: string)
    ensures Lacks(CleanEntry(e), '"') && Lacks(CleanEntry(e), '\n')
  {
    var p := ReplaceChar(e, '"', '\'');
    var q := ReplaceChar(p, '\n', ' ');
    ReplaceCharRemoves(e, '"', '\'');
    ReplaceCharRemoves(p, '\n', ' ');
    assert Lacks(q, '"');
    StripLacks(q, '"');
    StripLacks(q, '\n');
  }

  lemma ConcatLacks(a: string, b: string, c: char)
    requires Lacks(a, c) && Lacks(b, c)
    ensures Lacks(a + b, c)
  {
    assert forall k :: |a| <= k < |a + b| ==> (a + b)[k] == b[k - |a|];
  }

  /** Removing a character from a concatenation removes it from both parts. */
  lemma {:induction false} RemoveCharConcat(a: string, b: string, c: char)
    ensures RemoveChar(a + b, c) == RemoveChar(a, c) + RemoveChar(b, c)
  {
    if a == [] {
      assert a + b == b;
    } else {
      assert (a + b)[0] == a[0] && (a + b)[1..] == a[1..] + b;
      RemoveCharConcat(a[1..], b, c);
    }
  }

  /** `rstrip` never reaches into a prefix that ends with a non-space. */
  lemma StripRightKeepsPrefix(s: string, k: nat)
    requires 0 < k <= |s| && !IsSpace(s[k - 1])
    ensures |StripRight(s)| >= k && StripRight(s)[..k] == s[..k]
  {
    StripRightDropsSpaces(s);
  }

  /** `strip` keeps a prefix that starts and ends with a non-space. */
  lemma StripKeepsPrefix(s: string, k: nat)
    requires 0 < k <= |s| && !IsSpace(s[0]) && !IsSpace(s[k - 1])
    ensures |Strip(s)| >= k && Strip(s)[..k] == s[..k]
  {
    assert StripLeft(s) == s;
    StripRightKeepsPrefix(s, k);
  }

  /** The tag holds none of the scrubbed characters and `[Transcript]` is its non-space part. */
  lemma TagFacts()
    ensures |TranscriptTag| == 13 && TranscriptTag[..12] == "[Transcript]"
    ensures !IsSpace(TranscriptTag[0]) && !IsSpace(TranscriptTag[11])
    ensures Lacks(TranscriptTag, '"') && Lacks(TranscriptTag, '\\') && Lacks(TranscriptTag, '\n')
  {
  }

  /** Scrubbing a tagged text that has no double quote only removes backslashes from the body, then strips. */
  lemma ScrubTagged(tag: string, body: string)
    requires Lacks(tag, '"') && Lacks(tag, '\\') && Lacks(body, '"')
    ensures ScrubText(tag + body) == Strip(tag + RemoveChar(body, '\\'))
  {
    ConcatLacks(tag, body, '"');
    ReplaceAbsent(tag + body, '"', '\'');
    RemoveCharConcat(tag, body, '\\');
    RemoveAbsent(tag, '\\');
  }

  /**
   * What `get_content` caches for a video (web_agent.py:357-359) starts
   * with the `[Transcript]` tag and holds no double quote, no backslash
   * and no newline.
   */
  lemma TranscriptContentShape(entries: seq<string>)
    ensures var c := TranscriptContent(entries);
      |c| >= 12 && c[..12] == "[Transcript]" && Lacks(c, '"') && Lacks(c, '\\') && Lacks(c, '\n')
  {
    var body := JoinSpace(CleanEntries(entries));
    TranscriptTextShape(entries);
    TagFacts();
    ScrubTagged(TranscriptTag, body);
    var b := RemoveChar(body, '\\');
    RemoveCharLacks(body, '\\', '"');
    RemoveCharLacks(body, '\\', '\n');
    var q := TranscriptTag + b;
    ConcatLacks(TranscriptTag, b, '"');
    ConcatLacks(TranscriptTag, b, '\\');
    ConcatLacks(TranscriptTag, b, '\n');
    assert q[..12] == TranscriptTag[..12] && q[0] == TranscriptTag[0] && q[11] == TranscriptTag[11];
    StripKeepsPrefix(q, 12);
    StripLacks(q, '"');
    StripLacks(q, '\\');
    StripLacks(q, '\n');
  }
}
