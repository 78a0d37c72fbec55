/**
 * `extract_youtube_id` (web_agent.py:305-315): the search
 * `re.search(r'(?:youtube\.com/watch\?v=|youtu\.be/)([a-zA-Z0-9_-]+)', url)`
 * and its first group. The regex has no anchors and a greedy `+` with
 * nothing after it, so the match starts at the leftmost position where a
 * marker is followed by at least one id character, and the group is the
 * maximal run of id characters after that marker.
 */
module YouTube {
  import opened Wrappers
  import opened PyStr

  const WatchMarker: string := "youtube.com/watch?v="
  const ShortMarker: string := "youtu.be/"

  /** The class `[a-zA-Z0-9_-]`. */
  predicate IsIdChar(c: char) {
    ('a' <= c <= 'z') || ('A' <= c <= 'Z') || ('0' <= c <= '9') || c == '_' || c == '-'
  }

  /**
   * Where the id would start if the alternation `(?:…|…)` matches at `i`:
   * the first alternative is tried before the second.
   */
  function MarkerEnd(url: string, i: int): (e: Option<nat>)
    ensures e.Some? ==>
              || (OccursAt(url, WatchMarker, i) && e.value == i + |WatchMarker|)
              || (OccursAt(url, ShortMarker, i) && e.value == i + |ShortMarker|)
    ensures e.None? ==> !OccursAt(url, WatchMarker, i) && !OccursAt(url, ShortMarker, i)
  {
    if OccursAt(url, WatchMarker, i) then Some(i + |WatchMarker|)
    else if OccursAt(url, ShortMarker, i) then Some(i + |ShortMarker|)
    else None
  }

  /** The whole pattern matches at `i`: a marker followed by at least one id character. */
  predicate MatchesAt(url: string, i: int) {
    var e := MarkerEnd(url, i);
    e.Some? && e.value < |url| && IsIdChar(url[e.value])
  }

  /** The greedy run `[a-zA-Z0-9_-]+` starting at index `k`. */
  function IdRun(url: string, k: nat): (id: string)
    requires k <= |url|
    ensures k + |id| <= |url| && id == url[k..k + |id|]
    ensures forall j :: 0 <= j < |id| ==> IsIdChar(id[j])
    ensures k + |id| == |url| || !IsIdChar(url[k + |id|])
    ensures k < |url| && IsIdChar(url[k]) ==> |id| > 0
    decreases |url| - k
  {
    if k < |url| && IsIdChar(url[k]) then [url[k]] + IdRun(url, k + 1) else []
  }

  /** The search loop of `re.search`: the first position, from `k` on, where the pattern matches. */
  function FirstMatch(url: string, k: nat): (m: Option<nat>)
    ensures m.Some? ==> k <= m.value < |url| && MatchesAt(url, m.value)
    ensures m.Some? ==> forall j :: k <= j < m.value ==> !MatchesAt(url, j)
    ensures m.None? ==> forall j :: k <= j ==> !MatchesAt(url, j)
    decreases |url| - k
  {
    if k >= |url| then None
    else if MatchesAt(url, k) then Some(k)
    else FirstMatch(url, k + 1)
  }

  /** `id` is the group of a match of the pattern that starts at `i`. */
  predicate IsGroupAt(url: string, i: int, id: string) {
    var e := MarkerEnd(url, i);
    && e.Some?
    && |id| > 0
    && e.value + |id| <= |url|
    && url[e.value..e.value + |id|] == id
    && (forall j :: 0 <= j < |id| ==> IsIdChar(id[j]))
    && (e.value + |id| == |url| || !IsIdChar(url[e.value + |id|]))
  }

  /**
   * `extract_youtube_id(url)`: the id that follows the leftmost marker that
   * has one, taken as far as the id characters go; None when no marker in
   * `url` is followed by an id character.
   */
  function ExtractYoutubeId(url: string): (r: Option<string>)
    ensures r.None? <==> forall i :: !MatchesAt(url, i)
    ensures r.Some? ==> exists i :: IsGroupAt(url, i, r.value) && forall j :: 0 <= j < i ==> !MatchesAt(url, j)
  {
    match FirstMatch(url, 0)
    case None => None
    case Some(i) =>
      var id := IdRun(url, MarkerEnd(url, i).value);
      assert IsGroupAt(url, i, id);
      Some(id)
  }

  /** The two markers cannot both start at the same place, so the alternation order is immaterial. */
  lemma MarkersExclusive(url: string, i: int)
    ensures !(OccursAt(url, WatchMarker, i) && OccursAt(url, ShortMarker, i))
  {
    if OccursAt(url, WatchMarker, i) {
      assert url[i + 5] == WatchMarker[5] == 'b';
      assert i + |ShortMarker| <= |url| ==> url[i..i + |ShortMarker|][5] == url[i + 5];
    }
  }
}
