/**
 * The decisions `qwant_search` makes on a search response: whether the
 * search counts as a video search (`is_video_query`, web_agent.py:229-235)
 * and which result URLs it goes on to fetch (the collecting loop at
 * web_agent.py:264-283 and the slice at web_agent.py:292).
 */
module Search {
  import opened Wrappers
  import opened PyStr
  import opened Seqs

  const VideoKeywords: seq<string> := ["video", "youtube", "watch", "clip", "footage"]

  /** `any(keyword in text for keyword in keywords)`. */
  function AnyKeyword(text: string, keywords: seq<string>): bool {
    if keywords == [] then false
    else Contains(text, keywords[0]) || AnyKeyword(text, keywords[1..])
  }

  /** Some keyword occurs in the text exactly when `any` finds one. */
  lemma {:induction false} AnyKeywordOccurs(text: string, keywords: seq<string>)
    ensures AnyKeyword(text, keywords) <==> exists k, i :: k in keywords && OccursAt(text, k, i)
  {
    if keywords != [] {
      ContainsOccurs(text, keywords[0]);
      AnyKeywordOccurs(text, keywords[1..]);
      assert forall k :: k in keywords <==> k == keywords[0] || k in keywords[1..];
    }
  }

  /**
   * `is_video_query(question, search_type)`: a video search, or a question
   * that mentions one of the video keywords in any letter case.
   */
  function IsVideoQuery(question: string, searchType: string): (r: bool)
    ensures r <==> searchType == "videos"
                   || exists k, i :: k in VideoKeywords && OccursAt(Lower(question), k, i)
  {
    AnyKeywordOccurs(Lower(question), VideoKeywords);
    searchType == "videos" || AnyKeyword(Lower(question), VideoKeywords)
  }

  /**
   * One element of the result list: either an item that may carry a `url`
   * (an item without one contributes nothing), or a group with nested
   * `items`, each of which may carry a `url`.
   */
  datatype Item = Flat(url: Option<string>) | Group(subs: seq<Option<string>>)

  const LongDomain: string := "youtube.com"
  const ShortDomain: string := "youtu.be"

  /** Line 270 and line 278: a YouTube URL is skipped unless this is a video search. */
  predicate Kept(url: string, isVideoSearch: bool) {
    isVideoSearch || !(Contains(url, LongDomain) || Contains(url, ShortDomain))
  }

  /** `url` mentions either YouTube domain somewhere. */
  ghost predicate IsYouTubeUrl(url: string) {
    exists i :: OccursAt(url, LongDomain, i) || OccursAt(url, ShortDomain, i)
  }

  /** The URLs present in the nested items of a group, in order. */
  function SubUrls(subs: seq<Option<string>>): seq<string> {
    if subs == [] then []
    else (if subs[0].Some? then [subs[0].value] else []) + SubUrls(subs[1..])
  }

  /** The URLs an item carries, in order. */
  function ItemUrls(item: Item): seq<string> {
    match item
    case Flat(u) => if u.Some? then [u.value] else []
    case Group(subs) => SubUrls(subs)
  }

  /** Every URL of the response, in order. */
  function AllUrls(items: seq<Item>): seq<string> {
    if items == [] then [] else ItemUrls(items[0]) + AllUrls(items[1..])
  }

  /** The filter of lines 270 and 278, as a function on URLs. */
  function YouTubeFilter(isVideoSearch: bool): string -> bool {
    url => Kept(url, isVideoSearch)
  }

  /** The URLs of `urls` that pass `keep`, in order. */
  function KeepUrls(urls: seq<string>, keep: string -> bool): seq<string> {
    if urls == [] then []
    else (if keep(urls[0]) then [urls[0]] else []) + KeepUrls(urls[1..], keep)
  }

  /**
   * A flat item whose URL the filter drops: line 271 `continue`s the outer
   * loop, so for such an item the count check of lines 282-283 is skipped.
   */
  predicate SkipsCheck(item: Item, keep: string -> bool) {
    item.Flat? && item.url.Some? && !keep(item.url.value)
  }

  /**
   * What one item contributes to the loop: the URLs it appends, and
   * whether the item reaches the `count >= max_results` check.
   */
  datatype Chunk = Chunk(urls: seq<string>, checked: bool)

  /** The chunks of the loop, item by item. */
  function Chunks(items: seq<Item>, keep: string -> bool): seq<Chunk> {
    seq(|items|, i requires 0 <= i < |items| =>
      Chunk(KeepUrls(ItemUrls(items[i]), keep), !SkipsCheck(items[i], keep)))
  }

  /** The URLs of all chunks, one after the other. */
  function Flatten(chunks: seq<Chunk>): seq<string> {
    if chunks == [] then [] else chunks[0].urls + Flatten(chunks[1..])
  }

  /**
   * What the loop appends, given `count` URLs so far: a whole chunk, then,
   * unless the item was skipped, the `count >= max_results` check.
   */
  function TakeChunks(chunks: seq<Chunk>, count: int, maxResults: int): seq<string> {
    if chunks == [] then []
    else
      var here := chunks[0].urls;
      here + (if chunks[0].checked && count + |here| >= maxResults then []
              else TakeChunks(chunks[1..], count + |here|, maxResults))
  }

  /** What the loop of lines 264-283 leaves in `all_urls`. */
  function CollectFrom(items: seq<Item>, keep: string -> bool, maxResults: int): seq<string> {
    TakeChunks(Chunks(items, keep), 0, maxResults)
  }

  /** Python's `s[:n]`: a negative `n` counts from the end. */
  function PyPrefix<T>(s: seq<T>, n: int): (r: seq<T>)
    ensures IsPrefix(r, s)
    ensures |r| == if n >= 0 then (if n < |s| then n else |s|) else (if |s| + n > 0 then |s| + n else 0)
  {
    if n >= 0 then (if n < |s| then s[..n] else s)
    else (if |s| + n > 0 then s[..|s| + n] else [])
  }

  /** `all_urls[:max_results]`: the URLs whose content is fetched. */
  function SelectedUrls(items: seq<Item>, isVideoSearch: bool, maxResults: int): seq<string> {
    PyPrefix(CollectFrom(items, YouTubeFilter(isVideoSearch), maxResults), maxResults)
  }

  /** `a` is an order-preserving subsequence of `b`. */
  ghost predicate IsSubsequence(a: seq<string>, b: seq<string>)
    decreases |b|
  {
    if a == [] then true
    else if b == [] then false
    else (a[0] == b[0] && IsSubsequence(a[1..], b[1..])) || IsSubsequence(a, b[1..])
  }

  /**
   * The loop of web_agent.py:264-283 followed by the slice of line 292.
   * For a non-negative limit the URLs fetched are the first `max_results`
   * URLs of the response that pass the YouTube filter.
   */
  method SelectUrls(items: seq<Item>, isVideoSearch: bool, maxResults: int) returns (urls: seq<string>)
    ensures urls == SelectedUrls(items, isVideoSearch, maxResults)
    ensures maxResults >= 0 ==>
              urls == PyPrefix(KeepUrls(AllUrls(items), YouTubeFilter(isVideoSearch)), maxResults)
  {
    var allUrls := CollectUrls(items, isVideoSearch, maxResults);
    urls := PyPrefix(allUrls, maxResults);
    if maxResults >= 0 {
      SelectedIsPrefixOfKept(items, isVideoSearch, maxResults);
    }
  }

  /**
   * The collecting loop of web_agent.py:264-283: each item's kept URLs
   * are appended and counted, and the loop breaks after the first item,
   * other than a flat item whose URL was dropped, at whose end the count
   * has reached `max_results`.
   */
  method CollectUrls(items: seq<Item>, isVideoSearch: bool, maxResults: int) returns (allUrls: seq<string>)
    ensures allUrls == CollectFrom(items, YouTubeFilter(isVideoSearch), maxResults)
  {
    ghost var chunks := Chunks(items, YouTubeFilter(isVideoSearch));
    allUrls := [];
    var count := 0;
    var n := 0;
    assert chunks[0..] == chunks;
    while n < |items|
      invariant 0 <= n <= |items|
      invariant count == |allUrls|
      invariant allUrls + TakeChunks(chunks[n..], count, maxResults) == TakeChunks(chunks, 0, maxResults)
    {
      ghost var before := allUrls;
      var added, skipped := ItemUrlsKept(items[n], isVideoSearch);
      assert added == chunks[n].urls && skipped == !chunks[n].checked;
      TakeChunksStep(chunks, n, before, maxResults);
      if skipped {
        assert before + added == before;
        // line 271: the `continue` also passes over the check of line 282
        n := n + 1;
        continue;
      }
      allUrls := allUrls + added;
      count := count + |added|;
      if count >= maxResults {
        break;
      }
      n := n + 1;
    }
  }

  /**
   * The body of the loop for one item (lines 268-281): a flat item's URL,
   * or each nested item's URL in turn, skipping YouTube URLs unless this
   * is a video search; `skipped` says that a flat item's URL was dropped,
   * which `continue`s the outer loop.
   */
  method ItemUrlsKept(item: Item, isVideoSearch: bool) returns (added: seq<string>, skipped: bool)
    ensures added == KeepUrls(ItemUrls(item), YouTubeFilter(isVideoSearch))
    ensures skipped <==> SkipsCheck(item, YouTubeFilter(isVideoSearch))
    ensures skipped ==> added == []
  {
    ghost var keep := YouTubeFilter(isVideoSearch);
    added := [];
    skipped := false;
    match item {
      case Flat(u) =>
        if u.Some? {
          var url := u.value;
          assert KeepUrls([url], keep) == (if keep(url) then [url] else []) + KeepUrls([], keep);
          if Kept(url, isVideoSearch) {
            added := added + [url];
          } else {
            skipped := true;
          }
        }
      case Group(subs) =>
        var m := 0;
        while m < |subs|
          invariant 0 <= m <= |subs|
          invariant added + KeepUrls(SubUrls(subs[m..]), keep) == KeepUrls(SubUrls(subs), keep)
        {
          ghost var tail := KeepUrls(SubUrls(subs[m + 1..]), keep);
          KeepUrlsAt(subs, m, keep);
          if subs[m].Some? {
            var url := subs[m].value;
            var kept := Kept(url, isVideoSearch);
            assert kept == keep(url);
            if kept {
              Assoc(added, [url], tail);
              added := added + [url];
            } else {
              assert KeepUrls(SubUrls(subs[m..]), keep) == tail;
            }
          } else {
            assert KeepUrls(SubUrls(subs[m..]), keep) == tail;
          }
          m := m + 1;
        }
        assert subs[m..] == [];
    }
  }

  /** One step of the filter over a group's nested items. */
  lemma KeepUrlsAt(subs: seq<Option<string>>, m: nat, keep: string -> bool)
    requires m < |subs|
    ensures KeepUrls(SubUrls(subs[m..]), keep)
            == (if subs[m].Some? && keep(subs[m].value) then [subs[m].value] else [])
               + KeepUrls(SubUrls(subs[m + 1..]), keep)
  {
    var s := subs[m..];
    assert s[0] == subs[m] && s[1..] == subs[m + 1..];
    if subs[m].Some? {
      assert SubUrls(s) == [subs[m].value] + SubUrls(subs[m + 1..]);
      assert ([subs[m].value] + SubUrls(subs[m + 1..]))[1..] == SubUrls(subs[m + 1..]);
    } else {
      assert SubUrls(s) == SubUrls(subs[m + 1..]);
    }
  }

  /**
   * One step of the outer loop: after chunk `n` is appended to `before`,
   * either the item is checked and the limit is reached, and nothing more
   * is collected, or collection goes on from chunk `n + 1`.
   */
  lemma TakeChunksStep(chunks: seq<Chunk>, n: nat, before: seq<string>, maxResults: int)
    requires n < |chunks|
    ensures var after := before + chunks[n].urls;
            before + TakeChunks(chunks[n..], |before|, maxResults)
            == if chunks[n].checked && |after| >= maxResults then after
               else after + TakeChunks(chunks[n + 1..], |after|, maxResults)
  {
    var here := chunks[n].urls;
    assert chunks[n..][0] == chunks[n] && chunks[n..][1..] == chunks[n + 1..];
    var rest := if chunks[n].checked && |before| + |here| >= maxResults then []
                else TakeChunks(chunks[n + 1..], |before| + |here|, maxResults);
    assert TakeChunks(chunks[n..], |before|, maxResults) == here + rest;
    Assoc(before, here, rest);
  }

  /** Filtering distributes over concatenation. */
  lemma {:induction false} KeepUrlsConcat(a: seq<string>, b: seq<string>, keep: string -> bool)
    ensures KeepUrls(a + b, keep) == KeepUrls(a, keep) + KeepUrls(b, keep)
  {
    if a == [] {
      assert a + b == b;
    } else {
      assert (a + b)[0] == a[0] && (a + b)[1..] == a[1..] + b;
      KeepUrlsConcat(a[1..], b, keep);
      Assoc(if keep(a[0]) then [a[0]] else [], KeepUrls(a[1..], keep), KeepUrls(b, keep));
    }
  }

  /**
   * The collected URLs are a prefix of all chunks together, and the loop
   * only stops early once `max_results` is reached.
   */
  lemma {:induction false} TakeChunksIsPrefix(chunks: seq<Chunk>, count: int, maxResults: int)
    ensures var c := TakeChunks(chunks, count, maxResults);
            IsPrefix(c, Flatten(chunks)) && (count + |c| >= maxResults || c == Flatten(chunks))
  {
    if chunks != [] {
      var here := chunks[0].urls;
      var c' := TakeChunks(chunks[1..], count + |here|, maxResults);
      var k' := Flatten(chunks[1..]);
      if chunks[0].checked && count + |here| >= maxResults {
        assert TakeChunks(chunks, count, maxResults) == here + [];
        PrefixOfAppend(here, k');
      } else {
        TakeChunksIsPrefix(chunks[1..], count + |here|, maxResults);
        PrefixAfter(here, c', k');
      }
    }
  }

  /** The chunks of a response, together, are its URLs that pass the filter. */
  lemma {:induction false} FlattenChunks(items: seq<Item>, keep: string -> bool)
    ensures Flatten(Chunks(items, keep)) == KeepUrls(AllUrls(items), keep)
  {
    if items != [] {
      assert Chunks(items, keep)[1..] == Chunks(items[1..], keep);
      FlattenChunks(items[1..], keep);
      KeepUrlsConcat(ItemUrls(items[0]), AllUrls(items[1..]), keep);
    }
  }

  /**
   * The URLs the loop collects are a prefix of all URLs of the response
   * that pass the filter; they fall short of all of them only when the
   * count has reached `max_results`.
   */
  lemma CollectIsPrefix(items: seq<Item>, keep: string -> bool, maxResults: int)
    ensures var c := CollectFrom(items, keep, maxResults);
            var k := KeepUrls(AllUrls(items), keep);
            IsPrefix(c, k) && (|c| >= maxResults || c == k)
  {
    TakeChunksIsPrefix(Chunks(items, keep), 0, maxResults);
    FlattenChunks(items, keep);
  }

  /**
   * For `max_results >= 0` the URLs fetched are exactly the first
   * `max_results` URLs of the response that pass the YouTube filter.
   */
  lemma SelectedIsPrefixOfKept(items: seq<Item>, isVideoSearch: bool, maxResults: int)
    requires maxResults >= 0
    ensures SelectedUrls(items, isVideoSearch, maxResults)
            == PyPrefix(KeepUrls(AllUrls(items), YouTubeFilter(isVideoSearch)), maxResults)
  {
    CollectIsPrefix(items, YouTubeFilter(isVideoSearch), maxResults);
  }

  /**
   * With a negative limit every check succeeds, so the loop stops at the
   * first checked chunk; the unchecked chunks before it add nothing.
   */
  lemma {:induction false} TakeChunksNegative(chunks: seq<Chunk>, count: int, maxResults: int, n: nat)
    requires maxResults < 0 <= count && n <= |chunks|
    requires forall j :: 0 <= j < n ==> !chunks[j].checked && chunks[j].urls == []
    requires n < |chunks| ==> chunks[n].checked
    ensures TakeChunks(chunks, count, maxResults) == if n < |chunks| then chunks[n].urls else []
    decreases n
  {
    if n == 0 {
      if chunks != [] {
        assert TakeChunks(chunks, count, maxResults) == chunks[0].urls + [];
      }
    } else {
      if n < |chunks| {
        assert chunks[1..][n - 1] == chunks[n];
      }
      assert forall j :: 0 <= j < n - 1 ==> chunks[1..][j] == chunks[j + 1];
      TakeChunksNegative(chunks[1..], count, maxResults, n - 1);
      assert TakeChunks(chunks, count, maxResults) == [] + TakeChunks(chunks[1..], count, maxResults);
    }
  }

  /** A flat item whose URL is dropped contributes no URL. */
  lemma SkippedAddsNothing(item: Item, keep: string -> bool)
    requires SkipsCheck(item, keep)
    ensures KeepUrls(ItemUrls(item), keep) == []
  {
    assert ItemUrls(item) == [item.url.value] && [item.url.value][1..] == [];
  }

  /**
   * With a negative limit the loop stops after the first item `n` that is
   * not a flat item with a dropped URL (lines 271 and 282-283), and the
   * slice then drops `-max_results` URLs from the end of what that item
   * gave; when every item is such a flat item, nothing is fetched.
   */
  lemma SelectedNegativeLimit(items: seq<Item>, isVideoSearch: bool, maxResults: int, n: nat)
    requires maxResults < 0 && n <= |items|
    requires forall j :: 0 <= j < n ==> SkipsCheck(items[j], YouTubeFilter(isVideoSearch))
    requires n < |items| ==> !SkipsCheck(items[n], YouTubeFilter(isVideoSearch))
    ensures SelectedUrls(items, isVideoSearch, maxResults)
            == if n < |items| then PyPrefix(KeepUrls(ItemUrls(items[n]), YouTubeFilter(isVideoSearch)), maxResults)
               else []
  {
    var keep := YouTubeFilter(isVideoSearch);
    var chunks := Chunks(items, keep);
    forall j | 0 <= j < n
      ensures !chunks[j].checked && chunks[j].urls == []
    {
      SkippedAddsNothing(items[j], keep);
    }
    TakeChunksNegative(chunks, 0, maxResults, n);
  }

  /**
   * A dropped flat YouTube URL does not stop the loop: for a web search
   * with `max_results = -1`, a `youtu.be` item followed by a group of two
   * URLs fetches the first URL of the group.
   */
  lemma SkippedItemDoesNotStop()
    ensures SelectedUrls([Flat(Some("youtu.be/x")), Group([Some("a"), Some("b")])], false, -1) == ["a"]
  {
    var items := [Flat(Some("youtu.be/x")), Group([Some("a"), Some("b")])];
    var keep := YouTubeFilter(false);
    assert Contains("youtu.be/x", ShortDomain);
    assert Kept("a", false) && Kept("b", false);
    assert KeepUrls(ItemUrls(items[1]), keep) == ["a", "b"];
    SelectedNegativeLimit(items, false, -1, 1);
  }

  /** No more than `max_results` URLs are fetched. */
  lemma SelectedBound(items: seq<Item>, isVideoSearch: bool, maxResults: int)
    ensures maxResults >= 0 ==> |SelectedUrls(items, isVideoSearch, maxResults)| <= maxResults
  {
  }

  /** Everything the filter keeps from `b` forms a subsequence of `b`. */
  lemma {:induction false} KeepIsSubsequence(b: seq<string>, keep: string -> bool)
    ensures IsSubsequence(KeepUrls(b, keep), b)
  {
    if b != [] {
      KeepIsSubsequence(b[1..], keep);
      var a := KeepUrls(b, keep);
      if keep(b[0]) {
        assert a == [b[0]] + KeepUrls(b[1..], keep);
        assert a[1..] == KeepUrls(b[1..], keep);
      } else {
        assert a == KeepUrls(b[1..], keep);
      }
    }
  }

  /** A prefix of a subsequence is a subsequence. */
  lemma {:induction false} PrefixOfSubsequence(a: seq<string>, b: seq<string>, n: nat)
    requires n <= |a| && IsSubsequence(a, b)
    ensures IsSubsequence(a[..n], b)
    decreases |b|
  {
    if n > 0 {
      if a[0] == b[0] && IsSubsequence(a[1..], b[1..]) {
        PrefixOfSubsequence(a[1..], b[1..], n - 1);
        assert a[..n][1..] == a[1..][..n - 1];
      } else {
        PrefixOfSubsequence(a, b[1..], n);
      }
    }
  }

  /** Every kept URL is outside YouTube, for a non-video search. */
  lemma {:induction false} KeepExcludesYouTube(b: seq<string>)
    ensures forall u :: u in KeepUrls(b, YouTubeFilter(false)) ==> !IsYouTubeUrl(u)
  {
    if b != [] {
      KeepExcludesYouTube(b[1..]);
      ContainsOccurs(b[0], LongDomain);
      ContainsOccurs(b[0], ShortDomain);
    }
  }

  /**
   * The URLs fetched keep the order of the response, and for a non-video
   * search none of them is a YouTube URL.
   */
  lemma SelectedIsFilteredSubsequence(items: seq<Item>, isVideoSearch: bool, maxResults: int)
    ensures IsSubsequence(SelectedUrls(items, isVideoSearch, maxResults), AllUrls(items))
    ensures !isVideoSearch ==> forall u :: u in SelectedUrls(items, isVideoSearch, maxResults) ==> !IsYouTubeUrl(u)
  {
    var keep := YouTubeFilter(isVideoSearch);
    var k := KeepUrls(AllUrls(items), keep);
    CollectIsPrefix(items, keep, maxResults);
    KeepIsSubsequence(AllUrls(items), keep);
    var s := SelectedUrls(items, isVideoSearch, maxResults);
    assert s == k[..|s|];
    PrefixOfSubsequence(k, AllUrls(items), |s|);
    if !isVideoSearch {
      KeepExcludesYouTube(AllUrls(items));
      assert forall u :: u in s ==> u in k;
    }
  }
}
