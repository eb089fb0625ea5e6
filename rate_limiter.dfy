/**
 * The sliding-window limiter of backend/middleware/rate_limiter.py: a table
 * from client address to the times of its recent requests, at most
 * `requestsPerMinute` of them inside any sixty-second window. The clock
 * reading `now` is a parameter of each call.
 */
module RateLimiting {
  import opened Numbers

  const Window := 60.0

  /** The timestamps of `ts` less than a minute old at `now`, in their original order. */
  function Recent(ts: seq<real>, now: real): (r: seq<real>)
    ensures forall t :: t in r <==> t in ts && now - t < Window
    ensures |r| <= |ts|
    decreases |ts|
  {
    if ts == [] then []
    else
      var front := Recent(ts[..|ts| - 1], now);
      var t := ts[|ts| - 1];
      assert forall u :: u in ts <==> u in ts[..|ts| - 1] || u == t by {
        assert ts == ts[..|ts| - 1] + [t];
      }
      if now - t < Window then front + [t] else front
  }

  /** Filtering distributes over concatenation, so the order of the kept timestamps is preserved. */
  lemma {:induction false} RecentAppend(a: seq<real>, b: seq<real>, now: real)
    ensures Recent(a + b, now) == Recent(a, now) + Recent(b, now)
    decreases |b|
  {
    if b == [] {
      assert a + b == a;
    } else {
      var b' := b[..|b| - 1];
      assert (a + b)[..|a + b| - 1] == a + b';
      assert (a + b)[|a + b| - 1] == b[|b| - 1];
      RecentAppend(a, b', now);
    }
  }

  /** When every timestamp is inside the window, cleaning keeps the list as it is. */
  lemma {:induction false} RecentKeepsWindow(ts: seq<real>, now: real)
    requires forall i :: 0 <= i < |ts| ==> now - ts[i] < Window
    ensures Recent(ts, now) == ts
    decreases |ts|
  {
    if ts != [] {
      RecentKeepsWindow(ts[..|ts| - 1], now);
    }
  }

  /** Cleaning twice at the same instant is cleaning once. */
  lemma {:induction false} RecentIdempotent(ts: seq<real>, now: real)
    ensures Recent(Recent(ts, now), now) == Recent(ts, now)
    decreases |ts|
  {
    if ts != [] {
      var front := ts[..|ts| - 1];
      var t := ts[|ts| - 1];
      RecentIdempotent(front, now);
      if now - t < Window {
        RecentAppend(Recent(front, now), [t], now);
        assert Recent([t], now) == [t] by {
          assert [t][..0] == [];
        }
      }
    }
  }

  /** What `check_rate_limit` ends in: `True`, the 429 error with its reset figures, or an `IndexError`. */
  datatype Outcome = Allowed | Limited(resetInSeconds: int, resetTime: real) | IndexError

  /** The cap on a client's list: nothing is ever stored under a non-positive limit. */
  function Capacity(requestsPerMinute: int): nat {
    if requestsPerMinute < 0 then 0 else requestsPerMinute
  }

  class RateLimiter {
    const requestsPerMinute: int
    var requests: map<string, seq<real>>

    /** No client ever has more timestamps than the limit allows. */
    ghost predicate Valid()
      reads this
    {
      forall c :: c in requests ==> |requests[c]| <= Capacity(requestsPerMinute)
    }

    /** The timestamps of `client`, empty for a client never seen. */
    function History(client: string): seq<real>
      reads this
    {
      if client in requests then requests[client] else []
    }

    constructor (requestsPerMinute: int)
      ensures this.requestsPerMinute == requestsPerMinute
      ensures requests == map[]
      ensures Valid()
    {
      this.requestsPerMinute := requestsPerMinute;
      requests := map[];
    }

    /** `_clean_old_requests`: drops the client's timestamps a minute old or older. */
    method CleanOldRequests(client: string, now: real)
      requires Valid()
      modifies this
      ensures Valid()
      ensures client in old(requests) ==> requests == old(requests)[client := Recent(old(requests)[client], now)]
      ensures client !in old(requests) ==> requests == old(requests)
    {
      if client in requests {
        requests := requests[client := Recent(requests[client], now)];
      }
    }

    /**
     * `check_rate_limit`: a new client starts with an empty list; the list is
     * cleaned; the request is refused when the cleaned list already holds
     * `requestsPerMinute` entries, and otherwise `now` is appended.
     */
    method CheckRateLimit(client: string, now: real) returns (r: Outcome)
      requires Valid()
      modifies this
      ensures Valid()
      ensures var kept := Recent(old(History(client)), now);
        && (r.Allowed? <==> |kept| < requestsPerMinute)
        && (r.Allowed? ==> requests == old(requests)[client := kept + [now]])
        && (!r.Allowed? ==> requests == old(requests)[client := kept])
        && (r.IndexError? <==> |kept| >= requestsPerMinute && kept == [])
        && (r.Limited? ==>
              (kept != [] && r.resetTime == kept[0] + Window && r.resetInSeconds == Trunc(r.resetTime - now)))
      ensures r.Limited? ==> 0.0 < r.resetTime - now
      ensures r.Limited? && (forall t :: t in old(History(client)) ==> t <= now) ==> r.resetTime - now <= Window
      ensures forall c :: c != client ==> History(c) == old(History(c)) && (c in requests <==> c in old(requests))
    {
      if client !in requests {
        requests := requests[client := []];
      }
      CleanOldRequests(client, now);
      var kept := requests[client];
      if |kept| >= requestsPerMinute {
        if kept == [] {
          return IndexError;
        }
        assert kept[0] in kept;
        var resetTime := kept[0] + Window;
        var resetSeconds := Trunc(resetTime - now);
        return Limited(resetSeconds, resetTime);
      }
      requests := requests[client := kept + [now]];
      r := Allowed;
    }
  }

  /**
   * Sixty-one requests from one client inside one minute against the default
   * limit of sixty: the first sixty pass and the sixty-first is refused.
   */
  method SixtyFirstRequestRefused(client: string, times: seq<real>) returns (outcomes: seq<Outcome>)
    requires |times| == 61
    requires forall i, j :: 0 <= i <= j < |times| ==> times[i] <= times[j]
    requires times[60] - times[0] < Window
    ensures |outcomes| == 61
    ensures forall i :: 0 <= i < 60 ==> outcomes[i] == Allowed
    ensures outcomes[60].Limited?
  {
    var limiter := new RateLimiter(60);
    outcomes := [];
    for i := 0 to 61
      invariant limiter.Valid() && limiter.requestsPerMinute == 60
      invariant i <= 60 ==> limiter.History(client) == times[..i]
      invariant |outcomes| == i
      invariant forall k :: 0 <= k < i && k < 60 ==> outcomes[k] == Allowed
      invariant i == 61 ==> outcomes[60].Limited?
    {
      assert i <= 60;
      RecentKeepsWindow(times[..i], times[i]);
      var r := limiter.CheckRateLimit(client, times[i]);
      if i < 60 {
        assert times[..i] + [times[i]] == times[..i + 1];
      }
      outcomes := outcomes + [r];
    }
  }
}
