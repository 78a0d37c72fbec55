/**
 * `RateLimiter` (web_agent.py:53-81): a sliding-window limiter on requests
 * per minute and tokens per minute. It keeps one timestamp per request and
 * one timestamp per token in two queues. Entries at least `window` seconds
 * old are dropped from the front before the limits are checked. The
 * current time (`time.time()` in the source) is a parameter here.
 */
module RateLimiting {

  /** Timestamps in the order they were appended: never decreasing. */
  ghost predicate NonDecreasing(q: seq<real>) {
    forall i, j :: 0 <= i < j < |q| ==> q[i] <= q[j]
  }

  /** `t` is no later than `now`, or there is no `t` (an empty queue). */
  ghost predicate EndsBy(q: seq<real>, now: real) {
    q == [] || q[|q| - 1] <= now
  }

  /** An entry stamped `t` has left the window at time `now`. */
  predicate Expired(t: real, now: real, window: real) {
    now - t >= window
  }

  /**
   * What `_clean_old_entries` leaves of `q`: expired entries are dropped
   * from the front, up to the first one that is still inside the window.
   */
  function DropExpired(q: seq<real>, now: real, window: real): seq<real> {
    if q != [] && Expired(q[0], now, window) then DropExpired(q[1..], now, window) else q
  }

  /** `n` copies of `t`. */
  function Repeat(t: real, n: nat): (r: seq<real>)
    ensures |r| == n && forall i :: 0 <= i < n ==> r[i] == t
  {
    if n == 0 then [] else Repeat(t, n - 1) + [t]
  }

  /**
   * Dropping expired entries removes a prefix, every entry of which has
   * expired; the first entry kept is inside the window.
   */
  lemma {:induction false} DropExpiredIsSuffix(q: seq<real>, now: real, window: real)
    ensures var r := DropExpired(q, now, window);
      && |r| <= |q| && r == q[|q| - |r|..]
      && (forall i :: 0 <= i < |q| - |r| ==> Expired(q[i], now, window))
      && (r == [] || !Expired(r[0], now, window))
  {
    if q != [] && Expired(q[0], now, window) {
      DropExpiredIsSuffix(q[1..], now, window);
    }
  }

  /**
   * On a queue in time order, every entry left after cleaning is inside
   * the window.
   */
  lemma DropExpiredLeavesFresh(q: seq<real>, now: real, window: real)
    requires NonDecreasing(q)
    ensures forall t :: t in DropExpired(q, now, window) ==> now - t < window
  {
    DropExpiredIsSuffix(q, now, window);
    var r := DropExpired(q, now, window);
    forall t | t in r ensures now - t < window {
      var k :| 0 <= k < |r| && r[k] == t;
      assert r[k] == q[|q| - |r| + k];
      assert r[0] == q[|q| - |r|];
    }
  }

  /** Cleaning is idempotent: a second pass at the same time drops nothing. */
  lemma DropExpiredIdempotent(q: seq<real>, now: real, window: real)
    ensures DropExpired(DropExpired(q, now, window), now, window) == DropExpired(q, now, window)
  {
    DropExpiredIsSuffix(q, now, window);
  }

  /**
   * Appending any number of copies of `now` to a queue in time order that
   * ends no later than `now` keeps it in time order and ending by `now`.
   */
  lemma AppendKeepsOrder(q: seq<real>, extra: seq<real>, now: real)
    requires NonDecreasing(q) && EndsBy(q, now)
    requires forall i :: 0 <= i < |extra| ==> extra[i] == now
    ensures NonDecreasing(q + extra) && EndsBy(q + extra, now)
  {
    var r := q + extra;
    forall i, j | 0 <= i < j < |r| ensures r[i] <= r[j] {
      if j >= |q| && i < |q| {
        assert q[i] <= q[|q| - 1];
      }
    }
  }

  class RateLimiter {
    const rpmLimit: int
    const tpmLimit: int
    const window: real
    /** One timestamp per request made. */
    var requests: seq<real>
    /** One timestamp per token used. */
    var tokens: seq<real>

    /** Both queues are in time order. */
    ghost predicate Ordered()
      reads this
    {
      NonDecreasing(requests) && NonDecreasing(tokens)
    }

    /** No entry of either queue is later than `now`. */
    ghost predicate NotAfter(now: real)
      reads this
    {
      EndsBy(requests, now) && EndsBy(tokens, now)
    }

    /** `RateLimiter(rpm_limit=15, tpm_limit=1_000_000)`, with a 60-second window. */
    constructor (rpmLimit: int := 15, tpmLimit: int := 1_000_000)
      ensures this.rpmLimit == rpmLimit && this.tpmLimit == tpmLimit && window == 60.0
      ensures requests == [] && tokens == []
      ensures Ordered()
    {
      this.rpmLimit := rpmLimit;
      this.tpmLimit := tpmLimit;
      window := 60.0;
      requests := [];
      tokens := [];
    }

    /**
     * `_clean_old_entries(queue, current_time)`: pops expired entries from
     * the front of `queue`. The source mutates the deque in place; here the
     * cleaned queue is returned and the caller stores it back.
     */
    method CleanOldEntries(queue: seq<real>, now: real) returns (kept: seq<real>)
      ensures kept == DropExpired(queue, now, window)
      ensures |kept| <= |queue| && kept == queue[|queue| - |kept|..]
      ensures forall i :: 0 <= i < |queue| - |kept| ==> Expired(queue[i], now, window)
      ensures kept == [] || !Expired(kept[0], now, window)
    {
      kept := queue;
      while kept != [] && Expired(kept[0], now, window)
        invariant |kept| <= |queue| && kept == queue[|queue| - |kept|..]
        invariant forall i :: 0 <= i < |queue| - |kept| ==> Expired(queue[i], now, window)
        invariant DropExpired(kept, now, window) == DropExpired(queue, now, window)
      {
        assert queue[|queue| - |kept|] == kept[0];
        kept := kept[1..];
      }
    }

    /**
     * `can_make_request(tokens)`: cleans both queues, then answers whether
     * one more request fits under the request limit and `tokensNeeded` more
     * tokens fit under the token limit.
     */
    method CanMakeRequest(now: real, tokensNeeded: int := 0) returns (ok: bool)
      modifies this
      ensures requests == DropExpired(old(requests), now, window)
      ensures tokens == DropExpired(old(tokens), now, window)
      ensures ok <==> |requests| < rpmLimit && |tokens| + tokensNeeded <= tpmLimit
      ensures old(Ordered()) ==> Ordered()
      ensures old(Ordered()) ==> forall t :: t in requests ==> now - t < window
      ensures old(Ordered()) ==> forall t :: t in tokens ==> now - t < window
      ensures old(NotAfter(now)) ==> NotAfter(now)
    {
      requests := CleanOldEntries(requests, now);
      tokens := CleanOldEntries(tokens, now);
      ok := |requests| < rpmLimit && |tokens| + tokensNeeded <= tpmLimit;
      SuffixKeepsOrder(old(requests), requests, now);
      SuffixKeepsOrder(old(tokens), tokens, now);
      if old(Ordered()) {
        DropExpiredLeavesFresh(old(requests), now, window);
        DropExpiredLeavesFresh(old(tokens), now, window);
      }
    }

    /**
     * `add_request(tokens)`: records one request at `now`, and one entry
     * at `now` per token when `tokensNeeded` is positive.
     */
    method AddRequest(now: real, tokensNeeded: int := 0)
      modifies this
      ensures requests == old(requests) + [now]
      ensures tokens == old(tokens) + Repeat(now, if tokensNeeded > 0 then tokensNeeded else 0)
      ensures old(Ordered()) && old(NotAfter(now)) ==> Ordered() && NotAfter(now)
    {
      requests := requests + [now];
      if tokensNeeded > 0 {
        for i := 0 to tokensNeeded
          invariant tokens == old(tokens) + Repeat(now, i)
          invariant requests == old(requests) + [now]
        {
          tokens := tokens + [now];
        }
      }
      if old(Ordered()) && old(NotAfter(now)) {
        AppendKeepsOrder(old(requests), [now], now);
        AppendKeepsOrder(old(tokens), Repeat(now, if tokensNeeded > 0 then tokensNeeded else 0), now);
      }
    }
  }

  /** A suffix of a queue keeps its order and its last entry. */
  lemma SuffixKeepsOrder(q: seq<real>, r: seq<real>, now: real)
    requires |r| <= |q| && r == q[|q| - |r|..]
    ensures NonDecreasing(q) ==> NonDecreasing(r)
    ensures EndsBy(q, now) ==> EndsBy(r, now)
  {
    if NonDecreasing(q) {
      forall i, j | 0 <= i < j < |r| ensures r[i] <= r[j] {
        assert r[i] == q[|q| - |r| + i] && r[j] == q[|q| - |r| + j];
      }
    }
  }
}
