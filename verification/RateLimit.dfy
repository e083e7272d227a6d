/**
  The fixed-window rate limiter in its two forms, the in-memory table with clean-up and the Redis
  script, against one abstract log of checks.
 */
module RateLimit {
  type Client = string

  datatype Settings = Settings(limit: int, window: int) {
    predicate Valid() { limit > 0 && 0 < window <= 86400 }
  }

  datatype Decision = Decision(allowed: bool, retryAfter: int)

  /** `math.floor(t / window)`, on a clock in real seconds. */
  function WindowOf(cfg: Settings, t: real): int
    requires cfg.Valid()
  {
    (t / cfg.window as real).Floor
  }

  /** `window - math.floor(t % window)`, at least one second. */
  function RetryAfter(cfg: Settings, t: real): int
    requires cfg.Valid()
  {
    var wait := cfg.window - (t - (WindowOf(cfg, t) * cfg.window) as real).Floor;
    if wait < 1 then 1 else wait
  }

  // ---- The in-memory limiter ----

  type Table = map<Client, (int, int)>

  function Cleanup(cfg: Settings, table: Table, now: real): Table
    requires cfg.Valid()
  {
    map c | c in table && table[c].0 >= WindowOf(cfg, now) :: table[c]
  }

  /** One check reads the clock twice: for the window of the request, and again for the clean-up. */
  datatype Check = Check(client: Client, at: real, cleanedAt: real)

  function Counted(cfg: Settings, table: Table, c: Check): int
    requires cfg.Valid()
  {
    var kept := Cleanup(cfg, table, c.cleanedAt);
    var w := WindowOf(cfg, c.at);
    if c.client in kept && kept[c.client].0 == w then kept[c.client].1 + 1 else 1
  }

  function CheckMemory(cfg: Settings, table: Table, c: Check): (Table, Decision)
    requires cfg.Valid()
  {
    var count := Counted(cfg, table, c);
    (Cleanup(cfg, table, c.cleanedAt)[c.client := (WindowOf(cfg, c.at), count)],
     Decision(count <= cfg.limit, RetryAfter(cfg, c.at)))
  }

  class RateLimiter {
    const cfg: Settings
    var requests: Table

    constructor (cfg: Settings)
      ensures this.cfg == cfg && requests == map[]
    {
      this.cfg := cfg;
      requests := map[];
    }

    method CleanUp(now: real)
      requires cfg.Valid()
      modifies this
      ensures requests == Cleanup(cfg, old(requests), now)
    {
      var currentWindow := WindowOf(cfg, now);
      requests := map c | c in requests && requests[c].0 >= currentWindow :: requests[c];
    }

    method IsAllowed(c: Check) returns (d: Decision)
      requires cfg.Valid()
      modifies this
      ensures (requests, d) == CheckMemory(cfg, old(requests), c)
    {
      var currentWindow := WindowOf(cfg, c.at);
      CleanUp(c.cleanedAt);
      var storedWindow, count := currentWindow, 0;
      if c.client in requests {
        storedWindow, count := requests[c.client].0, requests[c.client].1;
      }
      if storedWindow != currentWindow {
        count := 0;
      }
      count := count + 1;
      requests := requests[c.client := (currentWindow, count)];
      d := Decision(count <= cfg.limit, RetryAfter(cfg, c.at));
    }
  }

  // ---- The Redis script ----

  /** A counter and the moment it expires. */
  datatype Counter = Counter(count: int, expiresAt: real)

  type Store = map<(Client, int), Counter>

  /** Redis drops a key once its time to live is over. */
  function Live(store: Store, now: real): Store {
    map key | key in store && now < store[key].expiresAt :: store[key]
  }

  /** Atomic in Redis: increment, and set the expiry of two windows when the counter is new. */
  function CheckRedis(cfg: Settings, store: Store, client: Client, now: real): (Store, Decision)
    requires cfg.Valid()
  {
    var seconds := now.Floor;
    var key := (client, seconds / cfg.window);
    var live := Live(store, now);
    var count := if key in live then live[key].count + 1 else 1;
    var expiresAt := if count == 1 || key !in live then now + (2 * cfg.window) as real else live[key].expiresAt;
    var wait := cfg.window - seconds % cfg.window;
    (live[key := Counter(count, expiresAt)], Decision(count <= cfg.limit, if wait < 1 then 1 else wait))
  }

  // ---- The log both refine ----

  /** Earlier checks of the same client in the same window. */
  function Earlier(cfg: Settings, log: seq<Check>, client: Client, w: int): nat
    requires cfg.Valid()
  {
    if log == [] then 0
    else
      var last := log[|log| - 1];
      Earlier(cfg, log[..|log| - 1], client, w) + if last.client == client && WindowOf(cfg, last.at) == w then 1 else 0
  }

  function MemoryAfter(cfg: Settings, log: seq<Check>): Table
    requires cfg.Valid()
  {
    if log == [] then map[] else CheckMemory(cfg, MemoryAfter(cfg, log[..|log| - 1]), log[|log| - 1]).0
  }

  function RedisAfter(cfg: Settings, log: seq<Check>): Store
    requires cfg.Valid()
  {
    if log == [] then map[]
    else CheckRedis(cfg, RedisAfter(cfg, log[..|log| - 1]), log[|log| - 1].client, log[|log| - 1].at).0
  }

  /** The clock never goes back, within a check or from one to the next. */
  predicate Clocked(log: seq<Check>) {
    && (forall i :: 0 <= i < |log| ==> log[i].at <= log[i].cleanedAt)
    && (forall i, j :: 0 <= i < j < |log| ==> log[i].cleanedAt <= log[j].at)
  }

  predicate Straddles(cfg: Settings, c: Check)
    requires cfg.Valid()
  {
    WindowOf(cfg, c.at) != WindowOf(cfg, c.cleanedAt)
  }

  lemma WindowMonotone(cfg: Settings, s: real, t: real)
    requires cfg.Valid() && s <= t
    ensures WindowOf(cfg, s) <= WindowOf(cfg, t)
  {
    assert s / cfg.window as real <= t / cfg.window as real;
  }

  lemma RealOrder(a: real, b: real, w: real)
    requires w > 0.0
    ensures a <= b ==> a * w <= b * w
    ensures a < b ==> a * w < b * w
  {
  }

  lemma ProductOrder(a: int, b: int, d: int)
    requires d > 0
    ensures a <= b ==> a * d <= b * d
  {
    if a <= b {
      assert b * d == a * d + (b - a) * d;
    }
  }

  lemma WindowBounds(cfg: Settings, t: real)
    requires cfg.Valid()
    ensures (WindowOf(cfg, t) * cfg.window) as real <= t < ((WindowOf(cfg, t) + 1) * cfg.window) as real
  {
    var w := cfg.window as real;
    var q := t / w;
    var b := WindowOf(cfg, t);
    var next := b + 1;
    assert b as real <= q < next as real;
    RealOrder(b as real, q, w);
    RealOrder(q, next as real, w);
    assert q * w == t;
    ProductAsReal(b, cfg.window);
    ProductAsReal(next, cfg.window);
  }

  lemma ProductAsReal(a: int, b: int)
    ensures (a * b) as real == a as real * b as real
  {
  }

  lemma QuotientUnique(n: int, d: int, p: int, q: int)
    requires d > 0 && p * d <= n < (p + 1) * d && q * d <= n < (q + 1) * d
    ensures p == q
  {
    ProductOrder(p + 1, q, d);
    ProductOrder(q + 1, p, d);
  }

  /** Whole seconds fall into the same windows, so the integer arithmetic of the script agrees. */
  lemma WholeSeconds(cfg: Settings, t: real)
    requires cfg.Valid()
    ensures t.Floor / cfg.window == WindowOf(cfg, t)
    ensures cfg.window - t.Floor % cfg.window == RetryAfter(cfg, t)
    ensures 1 <= RetryAfter(cfg, t) <= cfg.window
  {
    WindowBounds(cfg, t);
    var b, n, d := WindowOf(cfg, t), t.Floor, cfg.window;
    assert b * d <= n < (b + 1) * d;
    var p := n / d;
    assert n == p * d + n % d;
    assert (p + 1) * d == p * d + d;
    QuotientUnique(n, d, p, b);
    assert (t - (b * d) as real).Floor == n - b * d;
  }

  /** A moment between the two ends of window `b` is in window `b`. */
  lemma InWindow(cfg: Settings, t: real, b: int)
    requires cfg.Valid() && (b * cfg.window) as real <= t < ((b + 1) * cfg.window) as real
    ensures WindowOf(cfg, t) == b
  {
    WindowBounds(cfg, t);
    var w, d := WindowOf(cfg, t), cfg.window;
    var low, high, start, end := w * d, (w + 1) * d, b * d, (b + 1) * d;
    assert low <= t.Floor < high && start <= t.Floor < end;
    QuotientUnique(t.Floor, d, w, b);
  }

  /** The advertised time is the least number of whole seconds, and at least one, after which the next window has begun. */
  lemma RetryLeavesWindow(cfg: Settings, t: real)
    requires cfg.Valid()
    ensures RetryAfter(cfg, t) >= 1
    ensures WindowOf(cfg, t + RetryAfter(cfg, t) as real) == WindowOf(cfg, t) + 1
    ensures WindowOf(cfg, t + (RetryAfter(cfg, t) - 1) as real) == WindowOf(cfg, t)
  {
    WholeSeconds(cfg, t);
    WindowBounds(cfg, t);
    var b := WindowOf(cfg, t);
    assert (b + 1) * cfg.window == b * cfg.window + cfg.window;
    assert (b + 2) * cfg.window == b * cfg.window + 2 * cfg.window;
    InWindow(cfg, t + RetryAfter(cfg, t) as real, b + 1);
    InWindow(cfg, t + (RetryAfter(cfg, t) - 1) as real, b);
  }

  // ---- The in-memory table against the log ----

  predicate Until(log: seq<Check>, t: real) {
    forall i :: 0 <= i < |log| ==> log[i].cleanedAt <= t
  }

  lemma {:induction false} NothingLater(cfg: Settings, log: seq<Check>, client: Client, t: real, w: int)
    requires cfg.Valid() && Clocked(log) && Until(log, t) && w > WindowOf(cfg, t)
    ensures Earlier(cfg, log, client, w) == 0
  {
    if log != [] {
      WindowMonotone(cfg, log[|log| - 1].at, t);
      NothingLater(cfg, log[..|log| - 1], client, t, w);
    }
  }

  /** A client's entry is never newer than window `w`, and is there for `w` exactly when `n` checks were. */
  predicate EntryOk(table: Table, client: Client, w: int, n: nat) {
    && (client in table ==> table[client].0 <= w)
    && (client in table && table[client].0 == w ==> table[client].1 == n > 0)
    && (n > 0 ==> client in table && table[client].0 == w)
  }

  /** For the window of the latest clean-up the table is exact. */
  ghost predicate TableOk(cfg: Settings, table: Table, log: seq<Check>, w: int)
    requires cfg.Valid()
  {
    forall client :: EntryOk(table, client, w, Earlier(cfg, log, client, w))
  }

  lemma CountedFrom(cfg: Settings, table: Table, c: Check, v: int, n: nat)
    requires cfg.Valid() && EntryOk(table, c.client, v, n)
    requires v <= WindowOf(cfg, c.at) <= WindowOf(cfg, c.cleanedAt)
    ensures Counted(cfg, table, c) == (if v == WindowOf(cfg, c.at) && !Straddles(cfg, c) then n else 0) + 1
  {
  }

  lemma CountIsExact(cfg: Settings, log: seq<Check>, c: Check)
    requires cfg.Valid() && Clocked(log + [c]) && log != []
    requires TableOk(cfg, MemoryAfter(cfg, log), log, WindowOf(cfg, log[|log| - 1].cleanedAt))
    ensures Counted(cfg, MemoryAfter(cfg, log), c)
         == (if Straddles(cfg, c) then 0 else Earlier(cfg, log, c.client, WindowOf(cfg, c.at))) + 1
  {
    ClockedPrefix(log, c);
    var t := log[|log| - 1].cleanedAt;
    WindowMonotone(cfg, t, c.at);
    WindowMonotone(cfg, c.at, c.cleanedAt);
    var v := WindowOf(cfg, t);
    assert EntryOk(MemoryAfter(cfg, log), c.client, v, Earlier(cfg, log, c.client, v));
    CountedFrom(cfg, MemoryAfter(cfg, log), c, v, Earlier(cfg, log, c.client, v));
    if WindowOf(cfg, c.at) > v {
      forall i | 0 <= i < |log| ensures log[i].cleanedAt <= t {
        LastIsLatest(log, c, i);
      }
      NothingLater(cfg, log, c.client, t, WindowOf(cfg, c.at));
    }
  }

  lemma ClockedPrefix(log: seq<Check>, c: Check)
    requires Clocked(log + [c])
    ensures Clocked(log)
    ensures c.at <= c.cleanedAt
    ensures forall i :: 0 <= i < |log| ==> log[i].cleanedAt <= c.at
  {
    var all := log + [c];
    assert forall i :: 0 <= i < |log| ==> all[i] == log[i];
    assert all[|log|] == c;
  }

  lemma LastIsLatest(log: seq<Check>, c: Check, i: nat)
    requires Clocked(log + [c]) && i < |log|
    ensures log[i].cleanedAt <= log[|log| - 1].cleanedAt
  {
    ClockedPrefix(log, c);
    assert i < |log| - 1 ==> log[i].cleanedAt <= log[|log| - 1].at;
  }

  lemma EarlierStep(cfg: Settings, log: seq<Check>, c: Check, client: Client, w: int)
    requires cfg.Valid()
    ensures Earlier(cfg, log + [c], client, w)
         == Earlier(cfg, log, client, w) + if c.client == client && WindowOf(cfg, c.at) == w then 1 else 0
  {
    assert (log + [c])[..|log|] == log;
  }

  lemma MemoryStep(cfg: Settings, log: seq<Check>, c: Check)
    requires cfg.Valid()
    ensures MemoryAfter(cfg, log + [c]) == CheckMemory(cfg, MemoryAfter(cfg, log), c).0
  {
    assert (log + [c])[..|log|] == log;
  }

  /** What one more check adds to the window it is cleaned up in. */
  lemma LatestWindow(cfg: Settings, log: seq<Check>, c: Check, client: Client)
    requires cfg.Valid() && Clocked(log + [c])
    ensures var w := WindowOf(cfg, c.cleanedAt);
            && Earlier(cfg, log + [c], client, w)
               == Earlier(cfg, log, client, w) + (if c.client == client && !Straddles(cfg, c) then 1 else 0)
            && (log == [] || w > WindowOf(cfg, log[|log| - 1].cleanedAt) ==> Earlier(cfg, log, client, w) == 0)
  {
    var w := WindowOf(cfg, c.cleanedAt);
    EarlierStep(cfg, log, c, client, w);
    ClockedPrefix(log, c);
    if log != [] && w > WindowOf(cfg, log[|log| - 1].cleanedAt) {
      forall i | 0 <= i < |log| ensures log[i].cleanedAt <= log[|log| - 1].cleanedAt {
        LastIsLatest(log, c, i);
      }
      NothingLater(cfg, log, client, log[|log| - 1].cleanedAt, w);
    }
  }

  /** One check moves an entry from its state for window `v` to its state for the window cleaned up to. */
  lemma EntryStep(cfg: Settings, table: Table, c: Check, client: Client, v: int, n: nat)
    requires cfg.Valid() && c.at <= c.cleanedAt && v <= WindowOf(cfg, c.cleanedAt)
    requires EntryOk(table, client, v, n)
    ensures var w := WindowOf(cfg, c.cleanedAt);
            EntryOk(CheckMemory(cfg, table, c).0, client, w,
                    if client == c.client && !Straddles(cfg, c) then Counted(cfg, table, c)
                    else if v == w && client != c.client then n
                    else 0)
  {
    WindowMonotone(cfg, c.at, c.cleanedAt);
  }

  lemma ClientStep(cfg: Settings, log: seq<Check>, c: Check, client: Client, v: int)
    requires cfg.Valid() && Clocked(log + [c])
    requires v == if log == [] then WindowOf(cfg, c.at) else WindowOf(cfg, log[|log| - 1].cleanedAt)
    requires EntryOk(MemoryAfter(cfg, log), client, v, Earlier(cfg, log, client, v))
    ensures EntryOk(CheckMemory(cfg, MemoryAfter(cfg, log), c).0, client, WindowOf(cfg, c.cleanedAt),
                    Earlier(cfg, log + [c], client, WindowOf(cfg, c.cleanedAt)))
  {
    ClockedPrefix(log, c);
    var table, w, n := MemoryAfter(cfg, log), WindowOf(cfg, c.cleanedAt), Earlier(cfg, log, client, v);
    WindowMonotone(cfg, c.at, c.cleanedAt);
    if log != [] {
      WindowMonotone(cfg, log[|log| - 1].cleanedAt, c.at);
    }
    LatestWindow(cfg, log, c, client);
    EntryStep(cfg, table, c, client, v, n);
    if client == c.client && !Straddles(cfg, c) {
      CountedFrom(cfg, table, c, v, n);
    }
  }

  lemma TableStep(cfg: Settings, log: seq<Check>, c: Check)
    requires cfg.Valid() && Clocked(log + [c])
    requires log != [] ==> TableOk(cfg, MemoryAfter(cfg, log), log, WindowOf(cfg, log[|log| - 1].cleanedAt))
    ensures TableOk(cfg, MemoryAfter(cfg, log + [c]), log + [c], WindowOf(cfg, c.cleanedAt))
  {
    MemoryStep(cfg, log, c);
    var v := if log == [] then WindowOf(cfg, c.at) else WindowOf(cfg, log[|log| - 1].cleanedAt);
    forall client
      ensures EntryOk(MemoryAfter(cfg, log + [c]), client, WindowOf(cfg, c.cleanedAt),
                      Earlier(cfg, log + [c], client, WindowOf(cfg, c.cleanedAt)))
    {
      assert EntryOk(MemoryAfter(cfg, log), client, v, Earlier(cfg, log, client, v));
      ClientStep(cfg, log, c, client, v);
    }
  }

  lemma {:induction false} TableIsExact(cfg: Settings, log: seq<Check>)
    requires cfg.Valid() && Clocked(log) && log != []
    ensures TableOk(cfg, MemoryAfter(cfg, log), log, WindowOf(cfg, log[|log| - 1].cleanedAt))
  {
    var n := |log| - 1;
    assert log == log[..n] + [log[n]];
    ClockedPrefix(log[..n], log[n]);
    if n > 0 {
      TableIsExact(cfg, log[..n]);
    }
    TableStep(cfg, log[..n], log[n]);
  }

  /**
    The in-memory limiter decides like a full log: a check whose two clock readings share a window is
    allowed exactly when fewer than `limit` checks came before it in its window; one that straddles a
    boundary is always allowed.
   */
  lemma MemoryDecides(cfg: Settings, log: seq<Check>, c: Check)
    requires cfg.Valid() && Clocked(log + [c])
    ensures CheckMemory(cfg, MemoryAfter(cfg, log), c).1.allowed
       <==> Straddles(cfg, c) || Earlier(cfg, log, c.client, WindowOf(cfg, c.at)) < cfg.limit
  {
    if log != [] {
      ClockedPrefix(log, c);
      TableIsExact(cfg, log);
      CountIsExact(cfg, log, c);
    }
  }

  // ---- How many checks are allowed in one window ----

  function Allowed(cfg: Settings, log: seq<Check>, client: Client, w: int): nat
    requires cfg.Valid()
  {
    if log == [] then 0
    else
      var n := |log| - 1;
      Allowed(cfg, log[..n], client, w)
      + if log[n].client == client && WindowOf(cfg, log[n].at) == w
           && CheckMemory(cfg, MemoryAfter(cfg, log[..n]), log[n]).1.allowed then 1 else 0
  }

  predicate StraddledBy(cfg: Settings, log: seq<Check>, client: Client, w: int)
    requires cfg.Valid()
  {
    exists i :: 0 <= i < |log| && log[i].client == client && WindowOf(cfg, log[i].at) == w && Straddles(cfg, log[i])
  }

  function Least(a: int, b: int): int { if a < b then a else b }

  lemma AllowedStep(cfg: Settings, log: seq<Check>, c: Check, client: Client, w: int)
    requires cfg.Valid() && Clocked(log + [c])
    ensures var mine := c.client == client && WindowOf(cfg, c.at) == w;
            && Earlier(cfg, log + [c], client, w) == Earlier(cfg, log, client, w) + (if mine then 1 else 0)
            && Allowed(cfg, log + [c], client, w) == Allowed(cfg, log, client, w)
               + (if mine && (Straddles(cfg, c) || Earlier(cfg, log, client, w) < cfg.limit) then 1 else 0)
  {
    EarlierStep(cfg, log, c, client, w);
    MemoryDecides(cfg, log, c);
    assert (log + [c])[..|log|] == log;
  }

  /** A straddling check is the last of its window. */
  lemma StraddleStep(cfg: Settings, log: seq<Check>, c: Check, client: Client, w: int)
    requires cfg.Valid() && Clocked(log + [c])
    ensures var mine := c.client == client && WindowOf(cfg, c.at) == w;
            && (StraddledBy(cfg, log + [c], client, w) <==>
                  StraddledBy(cfg, log, client, w) || (mine && Straddles(cfg, c)))
            && (StraddledBy(cfg, log, client, w) ==> !mine)
  {
    var all := log + [c];
    assert forall i :: 0 <= i < |log| ==> all[i] == log[i];
    assert all[|log|] == c;
    ClockedPrefix(log, c);
    if StraddledBy(cfg, log, client, w) {
      var i :| 0 <= i < |log| && log[i].client == client && WindowOf(cfg, log[i].at) == w && Straddles(cfg, log[i]);
      assert all[i] == log[i];
      WindowMonotone(cfg, log[i].at, log[i].cleanedAt);
      WindowMonotone(cfg, log[i].cleanedAt, c.at);
    }
  }

  /** All checks are allowed up to the limit, and a straddling last one besides. */
  predicate Tally(limit: int, total: nat, allowed: nat, straddled: bool) {
    && (!straddled ==> allowed == Least(limit, total))
    && (straddled ==> total > 0 && allowed == Least(limit, total - 1) + 1)
    && allowed <= limit + 1
  }

  lemma TallyStep(limit: int, total: nat, allowed: nat, straddled: bool, mine: bool, straddles: bool)
    requires limit > 0 && Tally(limit, total, allowed, straddled) && (straddled ==> !mine)
    ensures Tally(limit, total + (if mine then 1 else 0),
                  allowed + (if mine && (straddles || total < limit) then 1 else 0), straddled || (mine && straddles))
  {
  }

  /**
    Exactly the first `limit` checks of a client in a window are allowed, and one more only when the
    last of them straddles the boundary.
   */
  lemma {:induction false} AllowedInWindow(cfg: Settings, log: seq<Check>, client: Client, w: int)
    requires cfg.Valid() && Clocked(log)
    ensures Tally(cfg.limit, Earlier(cfg, log, client, w), Allowed(cfg, log, client, w), StraddledBy(cfg, log, client, w))
  {
    if log != [] {
      var before, c := log[..|log| - 1], log[|log| - 1];
      assert log == before + [c];
      ClockedPrefix(before, c);
      AllowedInWindow(cfg, before, client, w);
      AllowedStep(cfg, before, c, client, w);
      StraddleStep(cfg, before, c, client, w);
      TallyStep(cfg.limit, Earlier(cfg, before, client, w), Allowed(cfg, before, client, w), StraddledBy(cfg, before, client, w),
                c.client == client && WindowOf(cfg, c.at) == w, Straddles(cfg, c));
    }
  }

  // ---- The Redis store against the log ----

  /** Keys of windows that are not long past hold exact counts and outlive their window. */
  ghost predicate StoreOk(cfg: Settings, store: Store, log: seq<Check>, now: real)
    requires cfg.Valid()
  {
    forall client, b :: ((b + 2) * cfg.window) as real > now ==>
      && ((client, b) in store <==> Earlier(cfg, log, client, b) > 0)
      && ((client, b) in store ==> store[(client, b)].count == Earlier(cfg, log, client, b)
                                   && store[(client, b)].expiresAt >= ((b + 2) * cfg.window) as real)
  }

  lemma RedisStep(cfg: Settings, log: seq<Check>, c: Check)
    requires cfg.Valid()
    ensures RedisAfter(cfg, log + [c]) == CheckRedis(cfg, RedisAfter(cfg, log), c.client, c.at).0
  {
    assert (log + [c])[..|log|] == log;
  }

  lemma StoreLater(cfg: Settings, store: Store, log: seq<Check>, now: real, later: real)
    requires cfg.Valid() && StoreOk(cfg, store, log, now) && now <= later
    ensures StoreOk(cfg, Live(store, later), log, later)
  {
  }

  lemma StoreStep(cfg: Settings, store: Store, log: seq<Check>, c: Check, now: real)
    requires cfg.Valid() && StoreOk(cfg, store, log, now) && now <= c.at
    ensures StoreOk(cfg, CheckRedis(cfg, store, c.client, c.at).0, log + [c], c.at)
    ensures CheckRedis(cfg, store, c.client, c.at).1
         == Decision(Earlier(cfg, log, c.client, WindowOf(cfg, c.at)) < cfg.limit, RetryAfter(cfg, c.at))
  {
    WholeSeconds(cfg, c.at);
    WindowBounds(cfg, c.at);
    StoreLater(cfg, store, log, now, c.at);
    var b := WindowOf(cfg, c.at);
    var live := Live(store, c.at);
    assert (b + 2) * cfg.window == b * cfg.window + 2 * cfg.window;
    assert (b + 1) * cfg.window == b * cfg.window + cfg.window;
    assert ((b + 2) * cfg.window) as real > c.at;
    assert (c.client, b) in live <==> Earlier(cfg, log, c.client, b) > 0;
    forall client, w ensures Earlier(cfg, log + [c], client, w)
                          == Earlier(cfg, log, client, w) + if c.client == client && b == w then 1 else 0
    {
      EarlierStep(cfg, log, c, client, w);
    }
  }

  lemma StoreOneMore(cfg: Settings, before: seq<Check>, c: Check, last: real)
    requires cfg.Valid() && StoreOk(cfg, RedisAfter(cfg, before), before, last) && last <= c.at
    ensures StoreOk(cfg, RedisAfter(cfg, before + [c]), before + [c], c.at)
  {
    RedisStep(cfg, before, c);
    StoreStep(cfg, RedisAfter(cfg, before), before, c, last);
  }

  lemma {:induction false} StoreIsExact(cfg: Settings, log: seq<Check>)
    requires cfg.Valid() && Clocked(log)
    ensures log != [] ==> StoreOk(cfg, RedisAfter(cfg, log), log, log[|log| - 1].at)
  {
    if log != [] {
      var n := |log| - 1;
      var before, c := log[..n], log[n];
      assert log == before + [c];
      ClockedPrefix(before, c);
      StoreIsExact(cfg, before);
      StoreOneMore(cfg, before, c, if n == 0 then c.at else before[n - 1].at);
    }
  }

  /** Every key expires two windows after the check that created it, which fell into the window of the key. */
  lemma {:induction false} KeysExpire(cfg: Settings, log: seq<Check>, client: Client, b: int)
    requires cfg.Valid() && (client, b) in RedisAfter(cfg, log)
    ensures exists i :: 0 <= i < |log| && log[i].client == client && WindowOf(cfg, log[i].at) == b
                        && RedisAfter(cfg, log)[(client, b)].expiresAt == log[i].at + (2 * cfg.window) as real
  {
    var n := |log| - 1;
    var before, c := log[..n], log[n];
    var store := RedisAfter(cfg, before);
    WholeSeconds(cfg, c.at);
    if (client, b) in Live(store, c.at) {
      KeysExpire(cfg, before, client, b);
      var i :| 0 <= i < n && before[i].client == client && WindowOf(cfg, before[i].at) == b
            && store[(client, b)].expiresAt == before[i].at + (2 * cfg.window) as real;
      assert log[i] == before[i];
      CountsAreUsed(cfg, before, (client, b));
    }
  }

  lemma {:induction false} CountsAreUsed(cfg: Settings, log: seq<Check>, key: (Client, int))
    requires cfg.Valid() && key in RedisAfter(cfg, log)
    ensures RedisAfter(cfg, log)[key].count >= 1
  {
    var n := |log| - 1;
    if key in Live(RedisAfter(cfg, log[..n]), log[n].at) {
      CountsAreUsed(cfg, log[..n], key);
    }
  }

  /** A check leaves in the table its own client and no client whose window has passed at the clean-up. */
  lemma MemoryForgets(cfg: Settings, table: Table, c: Check, client: Client)
    requires cfg.Valid() && client != c.client
    ensures var after := CheckMemory(cfg, table, c).0;
            && c.client in after && after[c.client].0 == WindowOf(cfg, c.at)
            && (client in after <==> client in table && c.cleanedAt < ((table[client].0 + 1) * cfg.window) as real)
            && (client in after ==> after[client] == table[client])
  {
    WindowBounds(cfg, c.cleanedAt);
    if client in table {
      var v, w, d := table[client].0, WindowOf(cfg, c.cleanedAt), cfg.window;
      var low, high, last := w * d, (w + 1) * d, (v + 1) * d;
      assert low as real <= c.cleanedAt < high as real;
      if v >= w {
        ProductOrder(w + 1, v + 1, d);
        assert high as real <= last as real;
      } else {
        ProductOrder(v + 1, w, d);
        assert last as real <= low as real;
      }
    }
  }

  /** Both limiters give the same answer, retry time included, unless the in-memory check straddles a boundary. */
  lemma LimitersAgree(cfg: Settings, log: seq<Check>, c: Check)
    requires cfg.Valid() && Clocked(log + [c])
    ensures CheckRedis(cfg, RedisAfter(cfg, log), c.client, c.at).1
         == Decision(Earlier(cfg, log, c.client, WindowOf(cfg, c.at)) < cfg.limit, RetryAfter(cfg, c.at))
    ensures !Straddles(cfg, c) ==>
      CheckMemory(cfg, MemoryAfter(cfg, log), c).1 == CheckRedis(cfg, RedisAfter(cfg, log), c.client, c.at).1
  {
    ClockedPrefix(log, c);
    StoreIsExact(cfg, log);
    StoreStep(cfg, RedisAfter(cfg, log), log, c, if log == [] then c.at else log[|log| - 1].at);
    MemoryDecides(cfg, log, c);
  }
}
