/** The per-client sliding-window rate limiter
    (backend/services/rate_limit.py): at most 30 accepted requests per
    client in any 60 seconds. */
module RateLimit {
  import opened Common

  const RateLimitPerMinute: nat := 30

  /** The window, in seconds. */
  const Window: real := 60.0

  /** The accepted-request instants of each client. */
  type Windows = map<string, seq<Instant>>

  /** The instants still inside the window ending at `now`, in order. */
  function Recent(ts: seq<Instant>, now: Instant): (r: seq<Instant>)
    ensures |r| <= |ts|
    ensures forall t :: t in r <==> t in ts && now - t < Window
  {
    if ts == [] then []
    else
      var last := ts[|ts| - 1];
      assert forall t :: t in ts <==> t in ts[..|ts| - 1] || t == last;
      Recent(ts[..|ts| - 1], now) + (if now - last < Window then [last] else [])
  }

  /** Each instant is kept as often as it occurs when it is inside the
      window, and not at all otherwise; in particular nothing is merged, so
      the length is the number of in-window requests. */
  lemma {:induction false} RecentCount(ts: seq<Instant>, now: Instant)
    ensures forall t :: multiset(Recent(ts, now))[t] == if now - t < Window then multiset(ts)[t] else 0
    decreases |ts|
  {
    if ts != [] {
      assert ts == ts[..|ts| - 1] + [ts[|ts| - 1]];
      RecentCount(ts[..|ts| - 1], now);
    }
  }

  /** A list whose instants have all left the window filters to nothing. */
  lemma {:induction false} RecentAllExpired(ts: seq<Instant>, now: Instant)
    requires forall i :: 0 <= i < |ts| ==> now - ts[i] >= Window
    ensures Recent(ts, now) == []
  {
    if ts != [] {
      RecentAllExpired(ts[..|ts| - 1], now);
    }
  }

  /** Filtering twice is filtering once. */
  lemma {:induction false} RecentIdempotent(ts: seq<Instant>, now: Instant)
    ensures Recent(Recent(ts, now), now) == Recent(ts, now)
  {
    if ts != [] {
      var rest := Recent(ts[..|ts| - 1], now);
      RecentIdempotent(ts[..|ts| - 1], now);
      RecentAppend(rest, if now - ts[|ts| - 1] < Window then [ts[|ts| - 1]] else [], now);
    }
  }

  lemma {:induction false} RecentAppend(a: seq<Instant>, b: seq<Instant>, now: Instant)
    ensures Recent(a + b, now) == Recent(a, now) + Recent(b, now)
    decreases |b|
  {
    if b == [] {
      assert a + b == a;
    } else {
      assert (a + b)[..|a + b| - 1] == a + b[..|b| - 1];
      RecentAppend(a, b[..|b| - 1], now);
    }
  }

  /** The list of a client, empty when it has none. */
  function Requests(w: Windows, ip: string): seq<Instant> {
    if ip in w then w[ip] else []
  }

  /** The cleanup loop: every list filtered, emptied lists removed. */
  function Sweep(w: Windows, now: Instant): (r: Windows)
    ensures forall ip :: ip in r <==> ip in w && Recent(w[ip], now) != []
    ensures forall ip :: ip in r ==> r[ip] == Recent(w[ip], now)
  {
    map ip | ip in w && Recent(w[ip], now) != [] :: Recent(w[ip], now)
  }

  /** `check_rate_limit`: the new windows and whether the request is
      accepted. */
  function Check(w: Windows, clientIp: string, now: Instant): (res: (Windows, bool))
    ensures res.1 <==> |Recent(Requests(w, clientIp), now)| < RateLimitPerMinute
    ensures !res.1 ==> res.0 == Sweep(w, now)
    ensures res.1 ==> res.0 == Sweep(w, now)[clientIp := Recent(Requests(w, clientIp), now) + [now]]
  {
    var swept := Sweep(w, now);
    var mine := Requests(swept, clientIp);
    if |mine| >= RateLimitPerMinute then (swept, false)
    else (swept[clientIp := mine + [now]], true)
  }

  /** What every call leaves behind: no empty list, no list longer than the
      limit, and no instant outside the window ending at `now`. */
  ghost predicate Inv(w: Windows, now: Instant) {
    forall ip :: ip in w ==>
      w[ip] != [] && |w[ip]| <= RateLimitPerMinute && forall t :: t in w[ip] ==> now - t < Window
  }

  /** Lists never exceed the limit, so a call keeps `Inv` for its own `now`. */
  lemma CheckKeepsInv(w: Windows, clientIp: string, now: Instant)
    requires forall ip :: ip in w ==> |w[ip]| <= RateLimitPerMinute
    ensures Inv(Check(w, clientIp, now).0, now)
  {
  }

  /** Other clients' lists are only filtered, never extended; a denied
      client's list is only filtered too. */
  lemma CheckOnlyFiltersOthers(w: Windows, clientIp: string, other: string, now: Instant)
    requires other != clientIp || !Check(w, clientIp, now).1
    ensures var w' := Check(w, clientIp, now).0;
            other in w' ==> other in w && w'[other] == Recent(w[other], now)
  {
  }

  /** An accepted request adds exactly one in-window instant to the
      client's count. */
  lemma AcceptCounts(w: Windows, clientIp: string, now: Instant)
    requires Check(w, clientIp, now).1
    ensures var w' := Check(w, clientIp, now).0;
            clientIp in w'
            && |Recent(w'[clientIp], now)| == |Recent(Requests(w, clientIp), now)| + 1
  {
    var mine := Recent(Requests(w, clientIp), now);
    RecentAppend(mine, [now], now);
    RecentIdempotent(Requests(w, clientIp), now);
  }

  /** A client idle for a whole window is accepted, starting a new list. */
  lemma IdleClientAccepted(w: Windows, clientIp: string, now: Instant)
    requires forall i :: 0 <= i < |Requests(w, clientIp)| ==> now - Requests(w, clientIp)[i] >= Window
    ensures Check(w, clientIp, now).1
    ensures Check(w, clientIp, now).0[clientIp] == [now]
  {
    RecentAllExpired(Requests(w, clientIp), now);
  }

  /** The limiter object: its map of windows, updated on every call. */
  class RateLimiter {
    var windows: Windows

    constructor()
      ensures windows == map[]
    {
      windows := map[];
    }

    /** The cleanup loop at the head of `check_rate_limit`, over a
        snapshot of the keys, in any order. */
    method SweepWindows(now: Instant)
      modifies this
      ensures windows == Sweep(old(windows), now)
    {
      ghost var before := windows;
      var pending := windows.Keys;
      while pending != {}
        invariant pending <= before.Keys
        invariant forall ip :: ip in pending ==> ip in windows && windows[ip] == before[ip]
        invariant forall ip :: ip in windows ==> ip in before
        invariant forall ip :: ip in before && ip !in pending ==>
                    (ip in windows <==> Recent(before[ip], now) != [])
                    && (ip in windows ==> windows[ip] == Recent(before[ip], now))
        decreases |pending|
      {
        var ip :| ip in pending;
        windows := windows[ip := Recent(windows[ip], now)];
        if windows[ip] == [] {
          windows := windows - {ip};
        }
        pending := pending - {ip};
      }
      assert windows == Sweep(before, now);
    }

    /** `check_rate_limit(client_ip)` at instant `now`. */
    method CheckRateLimit(clientIp: string, now: Instant) returns (allowed: bool)
      modifies this
      ensures (windows, allowed) == Check(old(windows), clientIp, now)
    {
      SweepWindows(now);
      ghost var swept := windows;
      if clientIp !in windows {
        windows := windows[clientIp := []];
      }
      if |windows[clientIp]| >= RateLimitPerMinute {
        return false;
      }
      windows := windows[clientIp := windows[clientIp] + [now]];
      assert windows == swept[clientIp := Requests(swept, clientIp) + [now]];
      return true;
    }
  }
}
