/** The fixed-window, per-address request limiter: at most 100 requests per
    address while consecutive requests stay within a minute of each other.
    The shared map is threaded through explicitly; the mutex only makes each
    step atomic and is not modelled. */
module RateLimit {
  import opened Common
  import opened Http
  import opened Response

  const MaxRequests: int := 100
  const Window: int := Minute

  datatype Client = Client(requests: int, lastSeen: int)

  type Clients = map<string, Client>

  /** A client never seen before: no requests, last seen at Go's zero time. */
  const NewClient: Client := Client(0, ZeroTime)

  datatype Step = Step(clients: Clients, allowed: bool)

  /** One request from `ip` at `now`. The count restarts when more than a
      window has passed since the address was last seen; every request,
      allowed or not, is counted and refreshes `lastSeen`. */
  function Hit(clients: Clients, ip: string, now: int): (s: Step)
    ensures ip in s.clients && s.clients.Keys == clients.Keys + {ip}
    ensures forall a :: a in clients && a != ip ==> s.clients[a] == clients[a]
    ensures var c := if ip in clients then clients[ip] else NewClient;
      s.clients[ip] == Client((if now - c.lastSeen > Window then 0 else c.requests) + 1, now)
    ensures s.allowed <==> s.clients[ip].requests <= MaxRequests
  {
    var c := if ip in clients then clients[ip] else NewClient;
    var base := if now - c.lastSeen > Window then 0 else c.requests;
    var c' := Client(base + 1, now);
    Step(clients[ip := c'], c'.requests <= MaxRequests)
  }

  /** The address key: the host part of RemoteAddr, or "" when
      net.SplitHostPort fails (its result is the `split` oracle). */
  function ClientKey(req: Request, split: string -> Option<string>): string
  {
    if split(req.remoteAddr).Some? then split(req.remoteAddr).value else ""
  }

  /** RateLimit: forwards the request unchanged iff the step allows it,
      otherwise answers TooManyRequests. */
  function RateLimit(clients: Clients, req: Request, now: int, split: string -> Option<string>)
    : (out: (Clients, Decision))
    ensures out.0 == Hit(clients, ClientKey(req, split), now).clients
    ensures Hit(clients, ClientKey(req, split), now).allowed ==> out.1 == Forward(req)
    ensures !Hit(clients, ClientKey(req, split), now).allowed ==> out.1 == Reply(Write(TooManyRequests, Bare))
  {
    var s := Hit(clients, ClientKey(req, split), now);
    (s.clients, if s.allowed then Forward(req) else Reply(Write(TooManyRequests, Bare)))
  }

  /** The verdicts for a series of requests from one address. */
  function Run(clients: Clients, ip: string, times: seq<int>): (r: seq<bool>)
    ensures |r| == |times|
    decreases |times|
  {
    if |times| == 0 then []
    else
      var s := Hit(clients, ip, times[0]);
      [s.allowed] + Run(s.clients, ip, times[1..])
  }

  /** Consecutive requests are at most a window apart. */
  ghost predicate Dense(times: seq<int>)
  {
    forall k :: 0 < k < |times| ==> times[k] - times[k - 1] <= Window
  }

  /** With the address already at `n` requests and the series starting
      within a window of its last sighting, the k-th request is allowed
      exactly when n + k + 1 <= 100. */
  lemma {:induction false} RunFromCount(clients: Clients, ip: string, times: seq<int>, n: int)
    requires ip in clients && clients[ip].requests == n
    requires |times| > 0 ==> times[0] - clients[ip].lastSeen <= Window
    requires Dense(times)
    ensures forall k :: 0 <= k < |times| ==> Run(clients, ip, times)[k] == (n + k + 1 <= MaxRequests)
    decreases |times|
  {
    if |times| > 0 {
      var s := Hit(clients, ip, times[0]);
      assert s.clients[ip] == Client(n + 1, times[0]);
      RunFromCount(s.clients, ip, times[1..], n + 1);
      var r := Run(clients, ip, times);
      forall k | 0 <= k < |times| ensures r[k] == (n + k + 1 <= MaxRequests) {
        if k > 0 {
          assert r[k] == Run(s.clients, ip, times[1..])[k - 1];
        }
      }
    }
  }

  /** A burst from an address that is new or idle for more than a window:
      while consecutive requests stay within a window of each other, the
      first 100 are allowed and every later one is refused. */
  lemma Burst(clients: Clients, ip: string, times: seq<int>)
    requires |times| > 0
    requires ip !in clients || times[0] - clients[ip].lastSeen > Window
    requires Dense(times)
    ensures forall k :: 0 <= k < |times| ==> Run(clients, ip, times)[k] == (k < MaxRequests)
  {
    var s := Hit(clients, ip, times[0]);
    assert s.clients[ip] == Client(1, times[0]);
    RunFromCount(s.clients, ip, times[1..], 1);
    var r := Run(clients, ip, times);
    forall k | 0 <= k < |times| ensures r[k] == (k < MaxRequests) {
      if k > 0 {
        assert r[k] == Run(s.clients, ip, times[1..])[k - 1];
      }
    }
  }

  /** After more than a window of silence the next request is allowed,
      however many came before. */
  lemma ResetAfterWindow(clients: Clients, ip: string, now: int)
    requires ip in clients && now - clients[ip].lastSeen > Window
    ensures Hit(clients, ip, now).allowed
    ensures Hit(clients, ip, now).clients[ip].requests == 1
  {
  }

  /** Refused requests still refresh `lastSeen`, so an address that keeps
      retrying less than a window apart stays refused. */
  lemma RefusedStaysRefused(clients: Clients, ip: string, now: int, later: int)
    requires ip in clients && clients[ip].requests >= MaxRequests
    requires now - clients[ip].lastSeen <= Window
    requires later - now <= Window
    ensures !Hit(clients, ip, now).allowed
    ensures !Hit(Hit(clients, ip, now).clients, ip, later).allowed
  {
  }
}
