/** The ingest rate limiter (routes/rate_limit.rs): a fixed window per client. */
module RateLimiter {
  import opened Text

  /** Sixty seconds, in nanoseconds. */
  const WINDOW: int := 60_000_000_000
  const MAX_TRACKED_CLIENTS: nat := 10_000
  /** A `u32` wraps around in a release build. */
  const U32: nat := 0x1_0000_0000

  type Client = Text

  datatype Bucket = Bucket(windowStarted: int, count: nat)

  type Buckets = map<Client, Bucket>

  /** `Instant::duration_since` saturates at zero. */
  function Since(now: int, earlier: int): (d: int)
    ensures d >= 0
  {
    if now < earlier then 0 else now - earlier
  }

  function Bump(count: nat): nat {
    (count + 1) % U32
  }

  function Retained(buckets: Buckets, now: int): Buckets {
    map c | c in buckets && Since(now, buckets[c].windowStarted) < WINDOW :: buckets[c]
  }

  /** A full table turns new clients away from tracking, not from the service. */
  predicate IsWavedThrough(buckets: Buckets, client: Client, now: int) {
    |Retained(buckets, now)| >= MAX_TRACKED_CLIENTS && client !in Retained(buckets, now)
  }

  datatype Outcome = Outcome(buckets: Buckets, accepted: bool)

  /** What a check does and answers. */
  function Checked(buckets: Buckets, client: Client, limit: nat, now: int): Outcome {
    var kept := Retained(buckets, now);
    if limit == 0 then Outcome(buckets, true)
    else if IsWavedThrough(buckets, client, now) then Outcome(kept, true)
    else if client in kept then
      var b := kept[client].(count := Bump(kept[client].count));
      Outcome(kept[client := b], b.count <= limit)
    else Outcome(kept[client := Bucket(now, 1)], 1 <= limit)
  }

  class Limiter {
    var buckets: Buckets

    constructor ()
      ensures buckets == map[]
    {
      buckets := map[];
    }

    method Check(client: Client, limit: nat, now: int) returns (ok: bool)
      requires limit < U32
      modifies this
      ensures Outcome(buckets, ok) == Checked(old(buckets), client, limit, now)
    {
      if limit == 0 {
        return true;
      }
      buckets := Retained(buckets, now);
      if |buckets| >= MAX_TRACKED_CLIENTS && client !in buckets {
        return true;
      }
      if client !in buckets {
        buckets := buckets[client := Bucket(now, 0)];
      }
      if Since(now, buckets[client].windowStarted) >= WINDOW {
        // a restart of the window, which the retention above has left nothing to do
        assert false;
      }
      buckets := buckets[client := buckets[client].(count := Bump(buckets[client].count))];
      ok := buckets[client].count <= limit;
    }
  }

  // ---- Runs ----

  datatype Request = Request(client: Client, at: int)

  function RunOf(limit: nat, requests: seq<Request>): Buckets {
    if requests == [] then map[]
    else
      var last := requests[|requests| - 1];
      Checked(RunOf(limit, requests[..|requests| - 1]), last.client, limit, last.at).buckets
  }

  function IsAccepted(limit: nat, requests: seq<Request>, k: nat): bool
    requires k < |requests|
  {
    Checked(RunOf(limit, requests[..k]), requests[k].client, limit, requests[k].at).accepted
  }

  /** The clock of a run never goes back. */
  ghost predicate Ordered(requests: seq<Request>) {
    forall j, k :: 0 <= j < k < |requests| ==> requests[j].at <= requests[k].at
  }

  ghost predicate NeverWavedThrough(limit: nat, requests: seq<Request>, c: Client) {
    forall k :: 0 <= k < |requests| && requests[k].client == c ==>
      !IsWavedThrough(RunOf(limit, requests[..k]), c, requests[k].at)
  }

  function RequestsBy(requests: seq<Request>, c: Client, i: nat, j: nat): nat
    requires i <= j <= |requests|
  {
    if i == j then 0 else RequestsBy(requests, c, i, j - 1) + if requests[j - 1].client == c then 1 else 0
  }

  function AcceptedFrom(limit: nat, requests: seq<Request>, c: Client, i: nat, j: nat): nat
    requires i <= j <= |requests|
  {
    if i == j then 0
    else if requests[j - 1].client == c && IsAccepted(limit, requests, j - 1) then AcceptedFrom(limit, requests, c, i, j - 1) + 1
    else AcceptedFrom(limit, requests, c, i, j - 1)
  }

  // ---- The table stays small ----

  lemma RetainedIsSmaller(buckets: Buckets, now: int)
    ensures |Retained(buckets, now)| <= |buckets|
  {
    var kept := Retained(buckets, now);
    assert kept.Keys <= buckets.Keys;
    KeysAreFewer(kept.Keys, buckets.Keys);
    assert |kept| == |kept.Keys| && |buckets| == |buckets.Keys|;
  }

  lemma {:induction false} KeysAreFewer(a: set<Client>, b: set<Client>)
    requires a <= b
    ensures |a| <= |b|
  {
    if a != {} {
      assert |a| > 0;
      var x :| x in a;
      KeysAreFewer(a - {x}, b - {x});
    }
  }

  lemma CheckKeepsSmall(buckets: Buckets, client: Client, limit: nat, now: int)
    requires |buckets| <= MAX_TRACKED_CLIENTS
    ensures |Checked(buckets, client, limit, now).buckets| <= MAX_TRACKED_CLIENTS
  {
    RetainedIsSmaller(buckets, now);
    hide Retained, Bump;
  }

  /** The number of tracked clients never exceeds the cap, whatever the clock does. */
  lemma {:induction false} TrackedClientsAreBounded(limit: nat, requests: seq<Request>)
    ensures |RunOf(limit, requests)| <= MAX_TRACKED_CLIENTS
  {
    if requests != [] {
      hide Checked;
      var last := requests[|requests| - 1];
      TrackedClientsAreBounded(limit, requests[..|requests| - 1]);
      CheckKeepsSmall(RunOf(limit, requests[..|requests| - 1]), last.client, limit, last.at);
    }
  }

  // ---- One client's window ----

  /** A client's current window, told from its requests alone: its first request, its start and how many came. */
  datatype Window = NoWindow | Window(first: nat, started: int, count: nat)

  function WindowAfter(requests: seq<Request>, c: Client): Window {
    if requests == [] then NoWindow
    else
      var w, last := WindowAfter(requests[..|requests| - 1], c), requests[|requests| - 1];
      if last.client != c then w
      else if w.Window? && last.at - w.started < WINDOW then w.(count := w.count + 1)
      else Window(|requests| - 1, last.at, 1)
  }

  /** Facts about a window that its requests alone decide. */
  lemma {:induction false} WindowFacts(requests: seq<Request>, c: Client)
    requires Ordered(requests)
    ensures
      var w := WindowAfter(requests, c);
      w.Window? ==>
        && w.first < |requests| && requests[w.first].at == w.started && requests[w.first].client == c
        && 1 <= w.count == RequestsBy(requests, c, w.first, |requests|)
  {
    if requests != [] {
      var front, last := requests[..|requests| - 1], requests[|requests| - 1];
      WindowFacts(front, c);
      var w := WindowAfter(front, c);
      if w.Window? {
        RequestsOfPrefix(requests, |front|, c, w.first, |front|);
      }
      assert RequestsBy(requests, c, |front|, |front|) == 0;
    }
  }

  lemma {:induction false} RequestsOfPrefix(requests: seq<Request>, n: nat, c: Client, i: nat, j: nat)
    requires i <= j <= n <= |requests|
    ensures RequestsBy(requests[..n], c, i, j) == RequestsBy(requests, c, i, j)
  {
    if i < j {
      RequestsOfPrefix(requests, n, c, i, j - 1);
    }
  }

  /** The table agrees with the window for as long as the window lasts. */
  ghost predicate Tracks(buckets: Buckets, w: Window, c: Client, now: int) {
    && (c in buckets ==> w.Window? && buckets[c] == Bucket(w.started, w.count % U32))
    && (w.Window? && now - w.started < WINDOW ==> c in buckets)
    && (w.Window? ==> w.started <= now)
  }

  lemma CheckTracks(buckets: Buckets, w: Window, c: Client, before: int, limit: nat, r: Request, n: nat)
    requires Tracks(buckets, w, c, before) && before <= r.at && limit > 0
    requires r.client == c ==> !IsWavedThrough(buckets, c, r.at)
    ensures
      var w' := if r.client != c then w
                else if w.Window? && r.at - w.started < WINDOW then w.(count := w.count + 1)
                else Window(n, r.at, 1);
      && Tracks(Checked(buckets, r.client, limit, r.at).buckets, w', c, r.at)
      && (r.client == c ==> (Checked(buckets, r.client, limit, r.at).accepted <==> w'.count % U32 <= limit))
  {
  }

  lemma {:induction false} WindowIsTracked(limit: nat, requests: seq<Request>, c: Client)
    requires Ordered(requests) && limit > 0 && NeverWavedThrough(limit, requests, c) && requests != []
    ensures Tracks(RunOf(limit, requests), WindowAfter(requests, c), c, requests[|requests| - 1].at)
    ensures requests[|requests| - 1].client == c ==>
      (IsAccepted(limit, requests, |requests| - 1) <==> WindowAfter(requests, c).count % U32 <= limit)
  {
    hide IsWavedThrough, Checked, Tracks;
    var front, last := requests[..|requests| - 1], requests[|requests| - 1];
    forall k | 0 <= k < |front| ensures front[..k] == requests[..k] {
    }
    var before := if front == [] then last.at else front[|front| - 1].at;
    if front == [] {
      assert Tracks(map[], NoWindow, c, last.at) by { NothingTracked(c, last.at); }
    } else {
      WindowIsTracked(limit, front, c);
    }
    CheckTracks(RunOf(limit, front), WindowAfter(front, c), c, before, limit, last, |front|);
  }

  lemma NothingTracked(c: Client, now: int)
    ensures Tracks(map[], NoWindow, c, now)
  {
  }

  // ---- How many are accepted ----

  function Min(a: nat, b: nat): nat {
    if a < b then a else b
  }

  /** What one more request does. */
  lemma NextRequest(limit: nat, requests: seq<Request>, c: Client, n: nat)
    requires n < |requests| && Ordered(requests) && 0 < limit && NeverWavedThrough(limit, requests, c)
    ensures
      var w, w', r := WindowAfter(requests[..n], c), WindowAfter(requests[..n + 1], c), requests[n];
      && w' == (if r.client != c then w
                else if w.Window? && r.at - w.started < WINDOW then w.(count := w.count + 1)
                else Window(n, r.at, 1))
      && (r.client == c ==> (IsAccepted(limit, requests, n) <==> w'.count % U32 <= limit))
  {
    hide IsWavedThrough, Checked;
    var now := requests[..n + 1];
    assert now[..n] == requests[..n];
    forall k | 0 <= k < |now| ensures now[..k] == requests[..k] {
    }
    WindowIsTracked(limit, now, c);
  }

  /** How many of `n` requests in one window are accepted: a 32-bit count lets one more than the limit through in each round. */
  function AcceptedOf(limit: nat, n: nat): nat {
    (n / U32) * (limit + 1) + Min(limit, n % U32)
  }

  lemma AcceptedOfOneMore(limit: nat, n: nat)
    requires 0 < limit < U32
    ensures AcceptedOf(limit, n + 1) == AcceptedOf(limit, n) + if (n + 1) % U32 <= limit then 1 else 0
  {
    var q, r := n / U32, n % U32;
    if r == U32 - 1 {
      assert n + 1 == (q + 1) * U32;
      assert (n + 1) / U32 == q + 1 && (n + 1) % U32 == 0;
      assert (q + 1) * (limit + 1) == q * (limit + 1) + (limit + 1);
    } else {
      assert n + 1 == q * U32 + (r + 1);
      assert (n + 1) / U32 == q && (n + 1) % U32 == r + 1;
    }
  }

  /** Request `s` opens a window of client `c`, and request `j - 1` is in it. */
  ghost predicate IsWindow(requests: seq<Request>, c: Client, s: nat, j: nat) {
    && s < j <= |requests| && requests[j - 1].at - requests[s].at < WINDOW
    && WindowAfter(requests[..s + 1], c) == Window(s, requests[s].at, 1)
  }

  /** Exactly how many requests of one window are accepted. */
  lemma {:induction false} WindowAccepts(limit: nat, requests: seq<Request>, c: Client, s: nat, j: nat)
    requires Ordered(requests) && 0 < limit < U32 && NeverWavedThrough(limit, requests, c) && IsWindow(requests, c, s, j)
    ensures WindowAfter(requests[..j], c) == Window(s, requests[s].at, RequestsBy(requests, c, s, j))
    ensures AcceptedFrom(limit, requests, c, s, j) == AcceptedOf(limit, RequestsBy(requests, c, s, j))
  {
    hide IsAccepted, NeverWavedThrough, WindowAfter, AcceptedOf;
    if j == s + 1 {
      NextRequest(limit, requests, c, s);
      OpensOwn(requests, c, s);
      assert RequestsBy(requests, c, s, s) == 0 && AcceptedFrom(limit, requests, c, s, s) == 0;
      assert AcceptedOf(limit, 0) == 0 by { NoneOfNone(limit); }
      AcceptedOfOneMore(limit, 0);
    } else {
      WindowAccepts(limit, requests, c, s, j - 1);
      NextRequest(limit, requests, c, j - 1);
      AcceptedOfOneMore(limit, RequestsBy(requests, c, s, j - 1));
    }
  }

  lemma NoneOfNone(limit: nat)
    ensures AcceptedOf(limit, 0) == 0
  {
  }

  /**
   * A window has no more than `limit` requests accepted if and only if fewer than 2^32 are made in it,
   * and then it is the first `limit` of them.
   */
  lemma WindowAcceptsLimit(limit: nat, requests: seq<Request>, c: Client, s: nat, j: nat)
    requires Ordered(requests) && 0 < limit < U32 && NeverWavedThrough(limit, requests, c) && IsWindow(requests, c, s, j)
    ensures AcceptedFrom(limit, requests, c, s, j) <= limit <==> RequestsBy(requests, c, s, j) < U32
    ensures RequestsBy(requests, c, s, j) < U32 ==>
      AcceptedFrom(limit, requests, c, s, j) == Min(limit, RequestsBy(requests, c, s, j))
  {
    hide AcceptedFrom, NeverWavedThrough, WindowAfter;
    WindowAccepts(limit, requests, c, s, j);
    var n := RequestsBy(requests, c, s, j);
    if n < U32 {
      assert n / U32 == 0 && n % U32 == n;
    } else {
      assert n / U32 >= 1;
      assert (n / U32) * (limit + 1) >= limit + 1;
    }
  }

  lemma OpensOwn(requests: seq<Request>, c: Client, s: nat)
    requires s < |requests| && Ordered(requests) && WindowAfter(requests[..s + 1], c) == Window(s, requests[s].at, 1)
    ensures requests[s].client == c
  {
    WindowFacts(requests[..s + 1], c);
  }

  // ---- Any stretch of the length of a window ----

  /** None of the windows that the stretch of requests meets has its count come round. */
  ghost predicate Unwrapped(requests: seq<Request>, c: Client, i: nat, j: nat) {
    forall k :: i <= k < j && k < |requests| && requests[k].client == c ==> WindowAfter(requests[..k + 1], c).count < U32
  }

  /** What holds on the way through an interval that starts with request `i`. */
  ghost predicate Paced(limit: nat, requests: seq<Request>, c: Client, i: nat, j: nat)
    requires i < j <= |requests|
  {
    var w, a := WindowAfter(requests[..j], c), AcceptedFrom(limit, requests, c, i, j);
    && (a > 0 ==> w.Window? && w.started + WINDOW > requests[i].at)
    && (a <= (if w.Window? then Min(w.count, limit) else 0)
        || (w.Window? && a <= limit + Min(w.count, limit) && w.started > requests[i].at))
  }

  lemma {:induction false} PaceIsKept(limit: nat, requests: seq<Request>, c: Client, i: nat, j: nat)
    requires Ordered(requests) && 0 < limit < U32 && NeverWavedThrough(limit, requests, c)
    requires i < j <= |requests| && requests[j - 1].at - requests[i].at <= WINDOW && Unwrapped(requests, c, i, j)
    ensures Paced(limit, requests, c, i, j)
  {
    hide IsAccepted, NeverWavedThrough, WindowAfter;
    NextRequest(limit, requests, c, j - 1);
    if j == i + 1 {
      assert AcceptedFrom(limit, requests, c, i, i) == 0;
    } else {
      PaceIsKept(limit, requests, c, i, j - 1);
    }
  }

  /** In any stretch of time of the length of a window, its ends included, a client has at most twice the limit accepted. */
  lemma TwiceTheLimit(limit: nat, requests: seq<Request>, c: Client, i: nat, j: nat)
    requires Ordered(requests) && 0 < limit < U32 && NeverWavedThrough(limit, requests, c)
    requires i < j <= |requests| && requests[j - 1].at - requests[i].at <= WINDOW && Unwrapped(requests, c, i, j)
    ensures AcceptedFrom(limit, requests, c, i, j) <= 2 * limit
  {
    PaceIsKept(limit, requests, c, i, j);
  }

  // ---- A window that lets too many through ----

  /** All requests at once, from one client. */
  function Flood(c: Client, n: nat): (requests: seq<Request>)
    ensures |requests| == n
  {
    seq(n, _ => Request(c, 0))
  }

  lemma {:induction false} FloodTable(limit: nat, c: Client, n: nat)
    ensures RunOf(limit, Flood(c, n)).Keys <= {c}
  {
    if n > 0 {
      hide Bump;
      assert Flood(c, n)[..n - 1] == Flood(c, n - 1);
      FloodTable(limit, c, n - 1);
    }
  }

  lemma FloodIsTracked(limit: nat, c: Client, n: nat)
    ensures Ordered(Flood(c, n)) && NeverWavedThrough(limit, Flood(c, n), c)
  {
    forall k | 0 <= k < n ensures !IsWavedThrough(RunOf(limit, Flood(c, n)[..k]), c, 0) {
      assert Flood(c, n)[..k] == Flood(c, k);
      FloodTable(limit, c, k);
      var kept := Retained(RunOf(limit, Flood(c, k)), 0);
      KeysAreFewer(kept.Keys, {c});
      assert |kept| == |kept.Keys|;
    }
  }

  lemma {:induction false} FloodCounts(c: Client, n: nat, k: nat)
    requires k <= n
    ensures RequestsBy(Flood(c, n), c, 0, k) == k
  {
    if k > 0 {
      FloodCounts(c, n, k - 1);
    }
  }

  /** 2^32 requests within one window: one more than the limit is accepted. */
  lemma FloodExceedsLimit(c: Client, limit: nat)
    requires 0 < limit < U32
    ensures
      var requests := Flood(c, U32);
      && Ordered(requests) && NeverWavedThrough(limit, requests, c) && IsWindow(requests, c, 0, U32)
      && AcceptedFrom(limit, requests, c, 0, U32) == limit + 1
  {
    hide AcceptedFrom, NeverWavedThrough, Flood;
    FloodAccepts(c, limit, U32);
  }

  /** Two rounds of the count: more than twice the limit in a stretch shorter than a window. */
  lemma FloodExceedsTwice(c: Client, limit: nat)
    requires 0 < limit < U32
    ensures
      var requests := Flood(c, 2 * U32);
      && Ordered(requests) && NeverWavedThrough(limit, requests, c)
      && requests[2 * U32 - 1].at - requests[0].at <= WINDOW
      && AcceptedFrom(limit, requests, c, 0, 2 * U32) == 2 * limit + 2
  {
    hide AcceptedFrom, NeverWavedThrough, Flood;
    FloodAccepts(c, limit, 2 * U32);
  }

  lemma FloodAccepts(c: Client, limit: nat, n: nat)
    requires 0 < limit < U32 && n > 0
    ensures Ordered(Flood(c, n)) && NeverWavedThrough(limit, Flood(c, n), c) && IsWindow(Flood(c, n), c, 0, n)
    ensures AcceptedFrom(limit, Flood(c, n), c, 0, n) == AcceptedOf(limit, n)
  {
    hide RequestsBy, AcceptedFrom, NeverWavedThrough, Flood, AcceptedOf;
    FloodIsTracked(limit, c, n);
    FloodCounts(c, n, n);
    FloodOpens(c, n);
    WindowAccepts(limit, Flood(c, n), c, 0, n);
  }

  lemma FloodOpens(c: Client, n: nat)
    requires n > 0
    ensures IsWindow(Flood(c, n), c, 0, n)
  {
    var requests := Flood(c, n);
    assert requests[..1] == [Request(c, 0)] && requests[..1][..0] == [];
    assert WindowAfter([], c) == NoWindow;
  }

  // ---- One request, in numbers ----

  /** The clients whose window began less than a minute ago. */
  function Current(buckets: Buckets, now: int): set<Client> {
    set c | c in buckets && now - buckets[c].windowStarted < 60_000_000_000
  }

  /**
   * The answer to one request and the table after it. A limit of zero lets everything through; a full
   * table lets new clients through without tracking them; a client's first request in a minute opens a
   * window; any other is counted in 32 bits and accepted up to the limit.
   */
  lemma CheckIs(buckets: Buckets, client: Client, limit: nat, now: int)
    ensures
      var o, current := Checked(buckets, client, limit, now), Current(buckets, now);
      if limit == 0 then o == Outcome(buckets, true)
      else if client in current then
        && o.buckets.Keys == current
        && o.buckets[client] == Bucket(buckets[client].windowStarted, (buckets[client].count + 1) % 0x1_0000_0000)
        && (o.accepted <==> (buckets[client].count + 1) % 0x1_0000_0000 <= limit)
        && forall c :: c in current && c != client ==> o.buckets[c] == buckets[c]
      else if |current| >= 10_000 then
        o.accepted && o.buckets.Keys == current && forall c :: c in current ==> o.buckets[c] == buckets[c]
      else
        && o.accepted && o.buckets.Keys == current + {client} && o.buckets[client] == Bucket(now, 1)
        && forall c :: c in current ==> o.buckets[c] == buckets[c]
  {
    var kept := Retained(buckets, now);
    assert kept.Keys == Current(buckets, now) && |kept| == |kept.Keys|;
  }
}
