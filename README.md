# A verified model of the decision logic in `web_agent.py`

`web_agent.py` is the FastAPI backend of an answer engine. It searches Qwant, fetches and scrubs page text or YouTube transcripts, asks an LLM for an answer, and normalises that answer's whitespace. Most of the file is HTTP and LLM plumbing. This project models the parts that are plain logic and proves what they guarantee:

- **`RateLimiting`**: the `RateLimiter` class (web_agent.py:53-81). It is a sliding-window limiter on requests per minute and tokens per minute. It keeps two queues of timestamps in fields that its methods update in place. The current time is a parameter instead of `time.time()`.
- **`Normalize`**: `clean_text` (web_agent.py:455-460), which is `re.sub(r'\s+', ' ', text).strip()`.
- **`YouTube`**: `extract_youtube_id` (web_agent.py:305-315). It is a `re.search` of `(?:youtube\.com/watch\?v=|youtu\.be/)([a-zA-Z0-9_-]+)` and returns group 1 as an `Option`.
- **`Search`**: two parts of `qwant_search`.
  - `is_video_query` (web_agent.py:229-235).
  - The URL-collecting loop (web_agent.py:264-283) and the slice `all_urls[:max_results]` (web_agent.py:292). The loop is a method with loop invariants, proved against a specification function.
  - The response's result list is an abstract datatype. An `Item` is either `Flat(url)` or `Group(subs)`:
    - `Flat` is an entry that has a `url` key, or has neither `url` nor `items`.
    - `Group` is an entry with an `items` list of sub-entries, each of which may carry a `url`.
    - An entry that has both keys takes the `url` branch, as the `if`/`elif` order at lines 269 and 276 dictates, so it is a `Flat`.
- **`Scrub`**: the string scrubbing applied before text reaches the model.
  - Page paragraphs (web_agent.py:370-379).
  - Transcript entries and the transcript text (web_agent.py:334-338).
  - The cached transcript content (web_agent.py:357-359).
- **`PyStr`**: the Python `str` builtins these pieces use, stated over `seq<char>`:
  - `str.isspace`, which is the same set of characters that `\s` matches in a `str` pattern;
  - `strip`, `lstrip` and `rstrip`;
  - the substring test `p in s`;
  - ASCII `lower`;
  - `" ".join`;
  - `split()`;
  - single-character `replace`.
- **`Seqs`** and **`Wrappers`**: generic sequence facts and an `Option` type.

## Model

| member | source | states |
|---|---|---|
| `RateLimiting.RateLimiter.constructor` | web_agent.py:54-60 | The defaults are 15 requests and 1 000 000 tokens per minute. The window is 60 seconds. Both queues start empty, and so are in time order. |
| `RateLimiting.RateLimiter.CleanOldEntries` | web_agent.py:62-64 | The popping loop removes exactly a prefix of the queue. Every removed entry has expired (`now - t >= window`). The first survivor, if any, has not. The result equals the specification `DropExpired`. |
| `RateLimiting.RateLimiter.CanMakeRequest` | web_agent.py:66-73 | Both queues become their cleaned versions, and that is the only change. The answer is true exactly when fewer than `rpmLimit` requests remain and the remaining tokens plus `tokensNeeded` (0 by default, as in the source) are at most `tpmLimit`. If the queues were in time order, they stay ordered and every remaining timestamp is inside the window. |
| `RateLimiting.RateLimiter.AddRequest` | web_agent.py:75-81 | Exactly one `now` is appended to the request queue. Exactly `tokensNeeded` copies of `now` are appended to the token queue when `tokensNeeded` is positive, and none otherwise, including for the default 0. The limits and window are constants. The queues stay in time order when `now` is no earlier than their last entries. |
| `RateLimiting.DropExpiredIsSuffix` | web_agent.py:62-64 | Cleaning keeps a suffix in its original order. Every dropped entry has expired, and the first kept entry has not. |
| `RateLimiting.DropExpiredLeavesFresh` | web_agent.py:62-64 | On a queue in time order, every timestamp left after cleaning is less than `window` seconds old. |
| `RateLimiting.DropExpiredIdempotent` | web_agent.py:62-64 | A second cleaning at the same time removes nothing. |
| `RateLimiting.AppendKeepsOrder` | web_agent.py:77-81 | Appending timestamps equal to `now` to an ordered queue that ends no later than `now` keeps it ordered and ending by `now`. |
| `RateLimiting.SuffixKeepsOrder` | web_agent.py:62-64 | What cleaning leaves of an ordered queue is ordered and ends no later than before. |
| `Normalize.CleanText` | web_agent.py:455-460 | The output has no whitespace at either end. Its only whitespace character is `' '`. No two whitespace characters are adjacent. |
| `Normalize.Collapse` | web_agent.py:460 | `re.sub(r'\s+', ' ', s)`: each maximal run of whitespace becomes one `' '`. It has no contract of its own; `CollapseShape`, `CollapseKeepsNonSpace` and `CollapseOfCollapsed` state its properties. |
| `Normalize.CollapseShape` | web_agent.py:460 | `re.sub(r'\s+', ' ', s)` leaves only single plain spaces. It is empty only for empty input, and starts with whitespace exactly when its input does. |
| `Normalize.CollapseKeepsNonSpace` | web_agent.py:460 | The substitution keeps every non-whitespace character, in order, and adds none. |
| `Normalize.CleanTextKeepsNonSpace` | web_agent.py:455-460 | `clean_text` keeps exactly the input's sequence of non-whitespace characters. |
| `Normalize.CleanTextOfClean` | web_agent.py:455-460 | Every string of the output shape is left unchanged. |
| `Normalize.CleanTextIdempotent` | web_agent.py:455-460 | `clean_text(clean_text(s)) == clean_text(s)`. |
| `Normalize.CleanTextIsJoinOfWords` | web_agent.py:455-460 | `clean_text(s)` equals Python's `" ".join(s.split())`, an independent definition by words. |
| `Normalize.CollapseOfCollapsed` | web_agent.py:460 | A string that already has single plain spaces is a fixed point of the substitution. |
| `PyStr.StripIsInfix` | web_agent.py:460 | `strip` returns a slice of its input with only whitespace before and after it. |
| `PyStr.StripKeepsNonSpace` | web_agent.py:460 | `strip` removes whitespace only. |
| `PyStr.ContainsOccurs` | web_agent.py:270 | The substring test `p in s` holds exactly when `p` occurs at some position of `s`. |
| `YouTube.ExtractYoutubeId` | web_agent.py:305-315 | The result is `None` exactly when no position has a marker followed by an id character. Otherwise the id is the group of a match at the leftmost matching position. That means it is non-empty, made only of `[a-zA-Z0-9_-]`, directly after `youtube.com/watch?v=` or `youtu.be/` in the URL, and followed by the end of the URL or a character outside the class. |
| `YouTube.FirstMatch` | web_agent.py:309 | The search returns the leftmost position from `k` on where the pattern matches, or `None` when none does. |
| `YouTube.IdRun` | web_agent.py:308 | The greedy `[a-zA-Z0-9_-]+` takes the maximal run of id characters. |
| `YouTube.MarkerEnd` | web_agent.py:308 | The alternation matches at `i` exactly when one of the two markers occurs there, and the id starts right after it. |
| `YouTube.MarkersExclusive` | web_agent.py:308 | The two markers never start at the same position, so the order of the alternatives does not matter. |
| `Search.IsVideoQuery` | web_agent.py:229-235 | The result is true exactly when the search type is `"videos"` or the lowercased question contains one of `video`, `youtube`, `watch`, `clip` or `footage`. |
| `Search.AnyKeywordOccurs` | web_agent.py:233-235 | `any(k in text for k in keywords)` is true exactly when some keyword occurs in the text. |
| `Search.Kept` | web_agent.py:270 | The filter of lines 270 and 278: a URL is kept in a video search, and otherwise only when it contains neither `youtube.com` nor `youtu.be`. It has no contract of its own; `KeepExcludesYouTube` states what it excludes. |
| `Search.SkipsCheck` | web_agent.py:269-271 | A flat item whose URL the filter drops: its `continue` leaves the outer loop's iteration before the check of lines 282-283. It has no contract of its own; `ItemUrlsKept`, `SkippedAddsNothing` and `SelectedNegativeLimit` use it. |
| `Search.SelectedUrls` | web_agent.py:292 | `all_urls[:max_results]` over the collected URLs. It has no contract of its own; `SelectedIsPrefixOfKept`, `SelectedNegativeLimit`, `SelectedBound` and `SelectedIsFilteredSubsequence` state its properties. |
| `Search.SelectUrls` | web_agent.py:264-292 | The URLs fetched are the collected list sliced to `max_results`. For a non-negative limit they are the first `max_results` URLs of the response that pass the YouTube filter. |
| `Search.CollectUrls` | web_agent.py:264-283 | The loop leaves in `all_urls` what the specification `CollectFrom` describes. Each item's kept URLs are appended whole, in order. The loop stops after the first item at whose end the count has reached `max_results`, except that a flat item whose URL was dropped `continue`s past the check (line 271). |
| `Search.ItemUrlsKept` | web_agent.py:268-281 | One iteration appends the item's URLs in order, its own or its sub-items', without the YouTube URLs unless the search is a video search. It reports a skip exactly for a flat item whose URL was dropped, and that item adds nothing. A dropped sub-item skips only itself. |
| `Search.TakeChunksIsPrefix` | web_agent.py:265-283 | Taking whole chunks, with the count check after every chunk that reaches it, gives a prefix of all chunks together. It falls short of all of them only once the limit is reached. |
| `Search.TakeChunksNegative` | web_agent.py:269-283 | With a negative limit every check that runs succeeds. So the collected URLs are those of the first checked chunk, since the unchecked chunks before it add nothing, or nothing at all when no chunk is checked. |
| `Search.SkippedAddsNothing` | web_agent.py:269-271 | A flat item whose URL is dropped adds no URL. |
| `Search.FlattenChunks` | web_agent.py:264-281 | The items' kept URLs, item after item, are the response's URLs that pass the filter. |
| `Search.CollectIsPrefix` | web_agent.py:264-283 | The collected URLs are a prefix of all the response's URLs that pass the filter. They are all of them unless at least `max_results` were collected. |
| `Search.SelectedIsPrefixOfKept` | web_agent.py:264-292 | For `max_results >= 0`, the early break does not change what the slice returns: the first `max_results` kept URLs. |
| `Search.SelectedNegativeLimit` | web_agent.py:264-292 | For a negative `max_results` the loop stops after the first item `n` that is not a flat item with a dropped URL. The slice then drops `-max_results` URLs from the end of item `n`'s kept URLs. Nothing is fetched when every item is a flat item with a dropped URL. |
| `Search.SkippedItemDoesNotStop` | web_agent.py:264-292 | A web search with `max_results = -1` over a `youtu.be/x` flat item followed by a group with URLs `a` and `b` fetches `["a"]`. The dropped first item does not stop the loop. |
| `Search.SelectedBound` | web_agent.py:292 | For `max_results >= 0`, at most `max_results` URLs are fetched. |
| `Search.KeepUrlsConcat` | web_agent.py:268-281 | Filtering distributes over concatenation. |
| `Search.KeepIsSubsequence` | web_agent.py:268-281 | What the filter keeps is an order-preserving subsequence of its input. |
| `Search.KeepExcludesYouTube` | web_agent.py:270 | For a non-video search, no kept URL contains `youtube.com` or `youtu.be`. |
| `Search.SelectedIsFilteredSubsequence` | web_agent.py:264-292 | The URLs fetched are an order-preserving subsequence of all response URLs. For a non-video search none of them contains `youtube.com` or `youtu.be`. |
| `Scrub.ScrubText` | web_agent.py:372 | Double quotes become single quotes, backslashes are removed, and the result is stripped. The same scrub is applied to a paragraph (line 372) and to a transcript (line 357). It has no contract of its own; `ScrubTextShape` and `ScrubTextIdempotent` state its properties. |
| `Scrub.ScrubTextShape` | web_agent.py:372 | A scrubbed paragraph has no `"`, no `\` and no whitespace at either end. |
| `Scrub.ScrubTextIdempotent` | web_agent.py:372 | Scrubbing scrubbed text changes nothing. |
| `Scrub.RemoveCharLacks` | web_agent.py:372 | `replace('\\', '')` removes every backslash and introduces no other character. |
| `Scrub.ScrubbedParagraphsShape` | web_agent.py:371-374 | Every paragraph kept by `if cleaned_text` is non-empty and has no `"` and no `\`. |
| `Scrub.ScrubbedEmpty` | web_agent.py:371-374 | No paragraph is kept exactly when every paragraph scrubs to the empty string. |
| `Scrub.PageText` | web_agent.py:370-379 | `" ".join(data)` over the non-empty scrubbed paragraphs. It has no contract of its own; `PageTextShape` states its properties. |
| `Scrub.PageTextShape` | web_agent.py:370-379 | The page content has no `"` and no `\`. It is empty exactly when every paragraph scrubs to nothing. |
| `Scrub.CleanEntry` | web_agent.py:335 | Double quotes become single quotes, newlines become spaces, and the result is stripped. It has no contract of its own; `CleanEntryShape` states its properties. |
| `Scrub.CleanEntryShape` | web_agent.py:335 | A cleaned transcript entry has no `"` and no newline. |
| `Scrub.TranscriptText` | web_agent.py:334-338 | The text a successful fetch returns: `[Transcript] ` followed by the cleaned entries joined with spaces. It has no contract of its own; `TranscriptTextShape` states its properties. |
| `Scrub.TranscriptTextShape` | web_agent.py:334-338 | The transcript text is `[Transcript] ` followed by the joined entries, which have no `"` and no newline. So on the success path of line 338 the transcript is non-empty, and the `if transcript` test of line 356 passes. |
| `Scrub.TranscriptContent` | web_agent.py:357-359 | The scrubbed transcript that `get_content` caches. `" ".join` of the one-element `data` is that element. It has no contract of its own; `TranscriptContentShape` states its properties. |
| `Scrub.TranscriptContentShape` | web_agent.py:357-359 | The cached transcript content starts with `[Transcript]`. It has no `"`, no `\` and no newline. |

## Left out

- The FastAPI app, its endpoints, middleware and Pydantic models (web_agent.py:30-51, 462-492) are web framework plumbing.
- `QwantApi`, page fetching with aiohttp and HTML parsing with BeautifulSoup (web_agent.py:112-195, 343-381) are network I/O. The paragraphs and transcript entries are inputs of the scrub functions.
- The LLM calls `determine_search_type`, `search` and `extract` (web_agent.py:198-227, 383-453) are prompts run by a foreign library.
- `with_retries` (web_agent.py:86-110) is sleeps, random jitter and exception sniffing.
- The transcript fetching and its error paths in `get_youtube_transcript` (web_agent.py:317-341) are an external API. Only the text it builds from the entries on success (line 338) is modelled. The `""` returns of lines 330 and 341 are left out. On them the `if transcript` test of line 356 fails, and `get_content` goes on to fetch the page.
- The caches (`TTLCache`, `lru_cache`) and the parallel fetch with `asyncio.gather` (web_agent.py:25-26, 151, 292-293) involve wall-clock expiry and concurrency.
- The news fallback and key digging in `qwant_search` (web_agent.py:248-262) are shape checks on an external JSON response.
- The `asyncio.Lock` of `RateLimiter` only serialises calls. Each method here runs atomically.
- `time.time()` is the parameter `now`, which comes first in `CanMakeRequest` and `AddRequest` so that `tokensNeeded` can keep its default. Timestamps are mathematical reals, so float rounding is not modelled.
- `RateLimiting.RateLimiter.CleanOldEntries`: the source pops from the deque it is given, in place. Here the cleaned queue is returned and `CanMakeRequest` stores it back into the field, so aliasing of the deque is not modelled.
- `Search.IsVideoQuery`: `str.lower` is modelled on ASCII letters only. Unicode case mapping, including mappings that change the length of the string, is not modelled.
- The `try`/`except` around `extract_youtube_id` is not modelled: a `str` argument cannot make `re.search` raise.
