/** The sliding-window rate limiter with a bounded number of clients. */
module RateLimiter {
  import opened Prelude

  datatype Config = Config(requests: nat, window: nat, maxClients: nat) {
    predicate Valid() { requests >= 1 && window >= 1 && maxClients >= 1 }
  }

  type Time = real

  /** `order` lists the clients as the OrderedDict does, least recently seen first; `hits`
      holds their deques. */
  datatype Table = Table(order: seq<string>, hits: map<string, seq<Time>>)

  const EMPTY := Table([], map[])

  datatype Decision = Accept(remaining: nat) | Reject(retryAfter: int)

  // ----- one request ------------------------------------------------------------

  function DropExpired(entries: seq<Time>, cutoff: Time): seq<Time> {
    if entries != [] && entries[0] <= cutoff then DropExpired(entries[1..], cutoff) else entries
  }

  function Without(order: seq<string>, ip: string): (rest: seq<string>)
    ensures |rest| <= |order|
  {
    if order == [] then []
    else if order[0] == ip then Without(order[1..], ip)
    else [order[0]] + Without(order[1..], ip)
  }

  /** `popitem(last=False)` when a new client meets a full table. */
  function Evict<V>(cfg: Config, order: seq<string>, hits: map<string, V>, ip: string): (r: (seq<string>, map<string, V>))
  {
    if ip !in hits && |order| >= cfg.maxClients && order != [] then (order[1..], hits - {order[0]}) else (order, hits)
  }

  function EntriesOf(hits: map<string, seq<Time>>, ip: string): seq<Time> {
    if ip in hits then hits[ip] else []
  }

  function Max(a: int, b: int): int { if a >= b then a else b }

  /** int(window - (now - oldest)): truncation towards zero. */
  function Truncate(x: real): int {
    if x >= 0.0 then x.Floor else -((-x).Floor)
  }

  function RetryAfter(cfg: Config, now: Time, oldest: Time): int {
    Max(1, Truncate(cfg.window as real - (now - oldest)))
  }

  function Dispatch(cfg: Config, t: Table, ip: string, now: Time): (Table, Decision)
    requires cfg.Valid()
  {
    var (order, hits) := Evict(cfg, t.order, t.hits, ip);
    var entries := DropExpired(EntriesOf(hits, ip), now - cfg.window as real);
    var order' := Without(order, ip) + [ip];
    if |entries| >= cfg.requests then
      (Table(order', hits[ip := entries]), Reject(RetryAfter(cfg, now, entries[0])))
    else
      (Table(order', hits[ip := entries + [now]]), Accept(cfg.requests - |entries| - 1))
  }

  // ----- the reference: a limiter that never forgets until an eviction ------------------

  /** Accepted timestamps in (now - window, now]. */
  function Recent(cfg: Config, accepted: seq<Time>, now: Time): (n: nat)
    ensures n <= |accepted|
  {
    CountIn(accepted, now - cfg.window as real, now)
  }

  /** How many timestamps lie in (after, upto]. */
  function CountIn(accepted: seq<Time>, after: Time, upto: Time): (n: nat)
    ensures n <= |accepted|
  {
    if accepted == [] then 0
    else
      var last := accepted[|accepted| - 1];
      CountIn(accepted[..|accepted| - 1], after, upto) + (if after < last <= upto then 1 else 0)
  }

  /** The same table, but the deque of a client keeps every timestamp accepted since the
      client entered the table. */
  function RefDispatch(cfg: Config, t: Table, ip: string, now: Time): (Table, bool)
    requires cfg.Valid()
  {
    var (order, hits) := Evict(cfg, t.order, t.hits, ip);
    var accepted := EntriesOf(hits, ip);
    var order' := Without(order, ip) + [ip];
    if Recent(cfg, accepted, now) >= cfg.requests then (Table(order', hits[ip := accepted]), false)
    else (Table(order', hits[ip := accepted + [now]]), true)
  }

  // ----- runs ----------------------------------------------------------------------------

  datatype Request = Request(ip: string, now: Time)

  predicate Monotone(rs: seq<Request>) {
    forall i, j :: 0 <= i < j < |rs| ==> rs[i].now <= rs[j].now
  }

  function Run(cfg: Config, rs: seq<Request>): (r: (Table, seq<Decision>))
    requires cfg.Valid()
    ensures |r.1| == |rs|
  {
    if rs == [] then (EMPTY, [])
    else
      var n := |rs| - 1;
      var (t, ds) := Run(cfg, rs[..n]);
      var (t', d) := Dispatch(cfg, t, rs[n].ip, rs[n].now);
      (t', ds + [d])
  }

  function RefRun(cfg: Config, rs: seq<Request>): (r: (Table, seq<bool>))
    requires cfg.Valid()
    ensures |r.1| == |rs|
  {
    if rs == [] then (EMPTY, [])
    else
      var n := |rs| - 1;
      var (t, ds) := RefRun(cfg, rs[..n]);
      var (t', d) := RefDispatch(cfg, t, rs[n].ip, rs[n].now);
      (t', ds + [d])
  }

  // ----- the table invariant ----------------------------------------------------------------

  ghost predicate WellFormed(cfg: Config, order: seq<string>, keys: set<string>) {
    && Distinct(order)
    && (forall ip :: ip in keys <==> ip in order)
    && |order| <= cfg.maxClients
  }

  lemma {:induction false} WithoutSpec(order: seq<string>, ip: string)
    requires Distinct(order)
    ensures var rest := Without(order, ip);
            && Distinct(rest)
            && (forall x :: x in rest <==> x in order && x != ip)
            && (ip in order ==> |rest| == |order| - 1)
            && (ip !in order ==> rest == order)
  {
    if order != [] {
      var head, tail := order[0], order[1..];
      assert order == [head] + tail;
      assert head !in tail;
      WithoutSpec(tail, ip);
      var rest := Without(tail, ip);
      if head == ip {
        assert Without(order, ip) == rest == tail;
      } else {
        DistinctCons(head, rest);
      }
    }
  }

  lemma DistinctCons(head: string, rest: seq<string>)
    requires Distinct(rest) && head !in rest
    ensures Distinct([head] + rest)
  {
  }

  /** Never more than `max_clients` clients, and a newcomer costs at most the head of the order. */
  lemma TouchKeepsWellFormed<V>(cfg: Config, order: seq<string>, hits: map<string, V>, ip: string, v: V)
    requires cfg.Valid() && WellFormed(cfg, order, hits.Keys)
    ensures var (o, h) := Evict(cfg, order, hits, ip);
            && WellFormed(cfg, Without(o, ip) + [ip], h[ip := v].Keys)
            && (forall x :: x in h <==> x in hits && !(ip !in hits && |order| == cfg.maxClients && x == order[0]))
            && (forall x :: x in h ==> h[x] == hits[x])
            && Distinct(o)
  {
    var (o, h) := Evict(cfg, order, hits, ip);
    EvictSpec(cfg, order, hits, ip);
    WithoutSpec(o, ip);
    hide Evict, Without;
    var rest := Without(o, ip);
    DistinctSnoc(rest, ip);
    assert forall x :: x in rest + [ip] <==> x in rest || x == ip;
  }

  lemma EvictSpec<V>(cfg: Config, order: seq<string>, hits: map<string, V>, ip: string)
    requires cfg.Valid() && WellFormed(cfg, order, hits.Keys)
    ensures var (o, h) := Evict(cfg, order, hits, ip);
            && WellFormed(cfg, o, h.Keys)
            && (ip !in hits ==> |o| < cfg.maxClients)
            && (forall x :: x in h <==> x in hits && !(ip !in hits && |order| == cfg.maxClients && x == order[0]))
            && (forall x :: x in h ==> h[x] == hits[x])
  {
    var (o, h) := Evict(cfg, order, hits, ip);
    if o != order {
      assert order == [order[0]] + o;
    }
  }

  lemma DistinctSnoc(order: seq<string>, ip: string)
    requires Distinct(order) && ip !in order
    ensures Distinct(order + [ip])
  {
  }

  // ----- the reference agrees -----------------------------------------------------------------

  predicate Sorted(ts: seq<Time>) {
    forall i, j :: 0 <= i < j < |ts| ==> ts[i] <= ts[j]
  }

  ghost predicate AllUpTo(ts: seq<Time>, now: Time) {
    forall x :: x in ts ==> x <= now
  }

  ghost predicate AllAbove(ts: seq<Time>, cutoff: Time) {
    forall x :: x in ts ==> x > cutoff
  }

  /** `kept` is `all` without some expired timestamps at the front. */
  ghost predicate Suffix(kept: seq<Time>, all: seq<Time>, cutoff: Time) {
    && |kept| <= |all|
    && kept == all[|all| - |kept|..]
    && forall i :: 0 <= i < |all| - |kept| ==> all[i] <= cutoff
  }

  /** How the two tables correspond after requests up to time `now`. */
  ghost predicate Related(cfg: Config, t: Table, ref: Table, now: Time) {
    && t.order == ref.order
    && WellFormed(cfg, t.order, t.hits.Keys)
    && RelatedHits(cfg, t.hits, ref.hits, now)
  }

  lemma {:induction false} DropExpiredSpec(entries: seq<Time>, cutoff: Time)
    requires Sorted(entries)
    ensures var kept := DropExpired(entries, cutoff);
            && Suffix(kept, entries, cutoff)
            && AllAbove(kept, cutoff)
  {
    if entries != [] && entries[0] <= cutoff {
      assert Sorted(entries[1..]);
      DropExpiredSpec(entries[1..], cutoff);
      assert entries == [entries[0]] + entries[1..];
    }
  }

  lemma {:induction false} CountInAll(ts: seq<Time>, after: Time, upto: Time)
    requires forall x :: x in ts ==> after < x <= upto
    ensures CountIn(ts, after, upto) == |ts|
  {
    if ts != [] {
      var n := |ts| - 1;
      assert ts[n] in ts && forall x :: x in ts[..n] ==> x in ts;
      CountInAll(ts[..n], after, upto);
    }
  }

  lemma {:induction false} CountInNone(ts: seq<Time>, after: Time, upto: Time)
    requires forall x :: x in ts ==> !(after < x <= upto)
    ensures CountIn(ts, after, upto) == 0
  {
    if ts != [] {
      var n := |ts| - 1;
      assert ts[n] in ts && forall x :: x in ts[..n] ==> x in ts;
      CountInNone(ts[..n], after, upto);
    }
  }

  lemma {:induction false} CountInAppend(a: seq<Time>, b: seq<Time>, after: Time, upto: Time)
    ensures CountIn(a + b, after, upto) == CountIn(a, after, upto) + CountIn(b, after, upto)
  {
    if b == [] {
      assert a + b == a;
    } else {
      var n := |b| - 1;
      assert (a + b)[..|a + b| - 1] == a + b[..n];
      CountInAppend(a, b[..n], after, upto);
    }
  }

  lemma SuffixTransitive(a: seq<Time>, b: seq<Time>, c: seq<Time>, cut: Time, earlierCut: Time)
    requires Suffix(a, b, cut) && Suffix(b, c, earlierCut) && earlierCut <= cut
    ensures Suffix(a, c, cut)
  {
    var d := |c| - |b|;
    forall i | 0 <= i < |c| - |a| ensures c[i] <= cut {
      if i >= d {
        assert c[i] == b[i - d];
      }
    }
  }

  /** The timestamps that survive the cleaning are the recent ones of the full history. */
  lemma RecentOfSuffix(entries: seq<Time>, all: seq<Time>, cutoff: Time, now: Time)
    requires Suffix(entries, all, cutoff)
    requires AllAbove(entries, cutoff) && AllUpTo(all, now)
    ensures CountIn(all, cutoff, now) == |entries|
  {
    var e := |all| - |entries|;
    assert all == all[..e] + entries;
    assert forall x :: x in entries ==> x in all;
    CountInAppend(all[..e], entries, cutoff, now);
    CountInNone(all[..e], cutoff, now);
    CountInAll(entries, cutoff, now);
  }

  /** A cleaned deque holds exactly the recent timestamps of the full history. */
  lemma CleanedIsRecent(cfg: Config, kept: seq<Time>, all: seq<Time>, earlier: Time, now: Time)
    requires Sorted(kept) && earlier <= now
    requires AllUpTo(all, now)
    requires Suffix(kept, all, earlier - cfg.window as real)
    ensures var entries := DropExpired(kept, now - cfg.window as real);
            && |entries| == Recent(cfg, all, now)
            && Suffix(entries, all, now - cfg.window as real)
            && |entries| <= |kept|
  {
    hide DropExpired, Suffix, Sorted, AllUpTo, CountIn;
    CleanedUpTo(kept, all, earlier - cfg.window as real, now - cfg.window as real, now);
  }

  lemma CleanedUpTo(kept: seq<Time>, all: seq<Time>, earlierCut: Time, cutoff: Time, now: Time)
    requires Sorted(kept) && earlierCut <= cutoff && AllUpTo(all, now) && Suffix(kept, all, earlierCut)
    ensures var entries := DropExpired(kept, cutoff);
            |entries| == CountIn(all, cutoff, now) && Suffix(entries, all, cutoff) && |entries| <= |kept|
  {
    hide *;
    var entries := DropExpired(kept, cutoff);
    DropExpiredSpec(kept, cutoff);
    SuffixShorter(entries, kept, cutoff);
    SuffixTransitive(entries, kept, all, cutoff, earlierCut);
    RecentOfSuffix(entries, all, cutoff, now);
  }

  lemma SuffixShorter(kept: seq<Time>, all: seq<Time>, cutoff: Time)
    requires Suffix(kept, all, cutoff)
    ensures |kept| <= |all|
  {
  }

  lemma SuffixSorted(kept: seq<Time>, all: seq<Time>, cutoff: Time)
    requires Suffix(kept, all, cutoff) && Sorted(all)
    ensures Sorted(kept)
  {
  }

  /** One client's deque against its full history. */
  ghost predicate RelatedEntries(cfg: Config, kept: seq<Time>, all: seq<Time>, now: Time) {
    && Sorted(all)
    && AllUpTo(all, now)
    && Suffix(kept, all, now - cfg.window as real)
    && |kept| <= cfg.requests
  }

  lemma RelatedLater(cfg: Config, kept: seq<Time>, all: seq<Time>, earlier: Time, now: Time)
    requires RelatedEntries(cfg, kept, all, earlier) && earlier <= now
    ensures RelatedEntries(cfg, kept, all, now)
  {
  }

  /** The decision and the new deque of the client that asks. */
  lemma EntriesRefine(cfg: Config, kept: seq<Time>, all: seq<Time>, earlier: Time, now: Time)
    requires earlier <= now && RelatedEntries(cfg, kept, all, earlier)
    ensures var entries := DropExpired(kept, now - cfg.window as real);
            && |entries| == Recent(cfg, all, now) <= cfg.requests
            && RelatedEntries(cfg, entries, all, now)
            && (|entries| < cfg.requests ==> RelatedEntries(cfg, entries + [now], all + [now], now))
  {
    SuffixSorted(kept, all, earlier - cfg.window as real);
    CleanedIsRecent(cfg, kept, all, earlier, now);
    SuffixSnoc(DropExpired(kept, now - cfg.window as real), all, now - cfg.window as real, now);
    SortedSnoc(all, now);
  }

  ghost predicate RelatedHits(cfg: Config, hits: map<string, seq<Time>>, full: map<string, seq<Time>>, now: Time) {
    hits.Keys == full.Keys && forall ip :: ip in hits ==> RelatedEntries(cfg, hits[ip], full[ip], now)
  }

  lemma EvictRelated(
    cfg: Config, order: seq<string>, hits: map<string, seq<Time>>, full: map<string, seq<Time>>, ip: string, now: Time)
    requires RelatedHits(cfg, hits, full, now)
    ensures Evict(cfg, order, hits, ip).0 == Evict(cfg, order, full, ip).0
    ensures RelatedHits(cfg, Evict(cfg, order, hits, ip).1, Evict(cfg, order, full, ip).1, now)
  {
    hide RelatedEntries;
  }

  lemma UpdateRelated(
    cfg: Config, hits: map<string, seq<Time>>, full: map<string, seq<Time>>, ip: string,
    kept: seq<Time>, all: seq<Time>, earlier: Time, now: Time)
    requires RelatedHits(cfg, hits, full, earlier) && earlier <= now && RelatedEntries(cfg, kept, all, now)
    ensures RelatedHits(cfg, hits[ip := kept], full[ip := all], now)
  {
    forall x | x in hits ensures RelatedEntries(cfg, hits[x], full[x], now) {
      RelatedLater(cfg, hits[x], full[x], earlier, now);
    }
    hide RelatedEntries;
  }

  lemma DispatchRefines(cfg: Config, t: Table, ref: Table, earlier: Time, ip: string, now: Time)
    requires cfg.Valid() && earlier <= now && Related(cfg, t, ref, earlier)
    ensures var (t', d) := Dispatch(cfg, t, ip, now);
            var (ref', ok) := RefDispatch(cfg, ref, ip, now);
            && Related(cfg, t', ref', now)
            && (d.Accept? <==> ok)
            && (d.Accept? <==> Recent(cfg, EntriesOf(ref.hits, ip), now) < cfg.requests)
            && (d.Accept? ==> d.remaining == cfg.requests - Recent(cfg, EntriesOf(ref.hits, ip), now) - 1)
  {
    hide WellFormed, DropExpired, Recent, Evict, Without, RelatedEntries, RelatedHits, RetryAfter;
    var h, rh := Evict(cfg, t.order, t.hits, ip).1, Evict(cfg, ref.order, ref.hits, ip).1;
    var kept, all := EntriesOf(h, ip), EntriesOf(rh, ip);
    EvictRelated(cfg, t.order, t.hits, ref.hits, ip, earlier);
    EvictSpares(cfg, ref.order, ref.hits, ip);
    EntriesRelated(cfg, h, rh, ip, earlier);
    EntriesRefine(cfg, kept, all, earlier, now);
    var entries := DropExpired(kept, now - cfg.window as real);
    var accepted := |entries| < cfg.requests;
    var newKept := if accepted then entries + [now] else entries;
    var newAll := if accepted then all + [now] else all;
    UpdateRelated(cfg, h, rh, ip, newKept, newAll, earlier, now);
    TouchKeepsWellFormed(cfg, t.order, t.hits, ip, newKept);
  }

  /** A client is never evicted by its own request. */
  lemma EvictSpares(cfg: Config, order: seq<string>, hits: map<string, seq<Time>>, ip: string)
    ensures EntriesOf(Evict(cfg, order, hits, ip).1, ip) == EntriesOf(hits, ip)
  {
  }

  lemma EntriesRelated(cfg: Config, hits: map<string, seq<Time>>, full: map<string, seq<Time>>, ip: string, now: Time)
    requires RelatedHits(cfg, hits, full, now)
    ensures RelatedEntries(cfg, EntriesOf(hits, ip), EntriesOf(full, ip), now)
  {
  }

  lemma SuffixSnoc(kept: seq<Time>, all: seq<Time>, cutoff: Time, now: Time)
    requires Suffix(kept, all, cutoff)
    ensures Suffix(kept + [now], all + [now], cutoff)
  {
  }

  lemma SortedSnoc(ts: seq<Time>, now: Time)
    requires Sorted(ts) && AllUpTo(ts, now)
    ensures Sorted(ts + [now]) && AllUpTo(ts + [now], now)
  {
    var all := ts + [now];
    forall i, j | 0 <= i < j < |all| ensures all[i] <= all[j] {
      assert all[i] == ts[i] && ts[i] in ts;
    }
  }

  predicate Agree(ds: seq<Decision>, oks: seq<bool>) {
    |ds| == |oks| && forall i :: 0 <= i < |ds| ==> (ds[i].Accept? <==> oks[i])
  }

  /** Every decision is that of the limiter which keeps every accepted timestamp since the
      client's last eviction. */
  lemma {:induction false} LimiterRefinesFullHistory(cfg: Config, rs: seq<Request>)
    requires cfg.Valid() && Monotone(rs)
    ensures Agree(Run(cfg, rs).1, RefRun(cfg, rs).1)
    ensures rs != [] ==> Related(cfg, Run(cfg, rs).0, RefRun(cfg, rs).0, rs[|rs| - 1].now)
    ensures |Run(cfg, rs).0.order| <= cfg.maxClients
  {
    RunEmpty(cfg);
    hide *;
    if rs != [] {
      var n := |rs| - 1;
      var before, r := rs[..n], rs[n];
      MonotoneSnoc(rs);
      LimiterRefinesFullHistory(cfg, before);
      assert before + [r] == rs;
      if n == 0 {
        StartRelated(cfg, r.now);
        LimiterStep(cfg, [], r.now, r);
      } else {
        LimiterStep(cfg, before, before[n - 1].now, r);
      }
    }
  }

  lemma RunEmpty(cfg: Config)
    requires cfg.Valid()
    ensures Run(cfg, []) == (EMPTY, []) && RefRun(cfg, []) == (EMPTY, [])
    ensures Agree([], []) && |EMPTY.order| <= cfg.maxClients
  {
  }

  lemma MonotoneSnoc(rs: seq<Request>)
    requires rs != [] && Monotone(rs)
    ensures var n := |rs| - 1;
            Monotone(rs[..n]) && (n > 0 ==> rs[..n][n - 1].now <= rs[n].now)
  {
  }

  lemma LimiterStep(cfg: Config, before: seq<Request>, earlier: Time, r: Request)
    requires cfg.Valid() && Agree(Run(cfg, before).1, RefRun(cfg, before).1) && earlier <= r.now
    requires Related(cfg, Run(cfg, before).0, RefRun(cfg, before).0, earlier)
    ensures Agree(Run(cfg, before + [r]).1, RefRun(cfg, before + [r]).1)
    ensures Related(cfg, Run(cfg, before + [r]).0, RefRun(cfg, before + [r]).0, r.now)
    ensures |Run(cfg, before + [r]).0.order| <= cfg.maxClients
  {
    hide *;
    RunSnoc(cfg, before, r);
    RefRunSnoc(cfg, before, r);
    DispatchRefines(cfg, Run(cfg, before).0, RefRun(cfg, before).0, earlier, r.ip, r.now);
    AgreeSnoc(Run(cfg, before).1, RefRun(cfg, before).1,
              Dispatch(cfg, Run(cfg, before).0, r.ip, r.now).1, RefDispatch(cfg, RefRun(cfg, before).0, r.ip, r.now).1);
    RelatedCapacity(cfg, Run(cfg, before + [r]).0, RefRun(cfg, before + [r]).0, r.now);
  }

  lemma StartRelated(cfg: Config, now: Time)
    requires cfg.Valid()
    ensures Related(cfg, EMPTY, EMPTY, now)
  {
  }

  lemma RelatedCapacity(cfg: Config, t: Table, ref: Table, now: Time)
    requires Related(cfg, t, ref, now)
    ensures |t.order| <= cfg.maxClients
  {
  }

  lemma AgreeSnoc(ds: seq<Decision>, oks: seq<bool>, d: Decision, ok: bool)
    requires Agree(ds, oks) && (d.Accept? <==> ok)
    ensures Agree(ds + [d], oks + [ok])
  {
  }

  lemma RunSnoc(cfg: Config, rs: seq<Request>, r: Request)
    requires cfg.Valid()
    ensures var (t, ds) := Run(cfg, rs);
            var (t', d) := Dispatch(cfg, t, r.ip, r.now);
            Run(cfg, rs + [r]) == (t', ds + [d])
  {
    assert (rs + [r])[..|rs + [r]| - 1] == rs;
    hide Dispatch;
  }

  lemma RefRunSnoc(cfg: Config, rs: seq<Request>, r: Request)
    requires cfg.Valid()
    ensures var (t, oks) := RefRun(cfg, rs);
            var (t', ok) := RefDispatch(cfg, t, r.ip, r.now);
            RefRun(cfg, rs + [r]) == (t', oks + [ok])
  {
    assert (rs + [r])[..|rs + [r]| - 1] == rs;
    hide RefDispatch;
  }

  // ----- every decision, from the requests alone ---------------------------------------------------

  /** The position of the request with which a client entered the table, if it is in it. */
  function Entered(cfg: Config, rs: seq<Request>, ip: string): (n: nat)
    requires cfg.Valid()
    ensures n <= |rs|
  {
    if rs == [] || ip !in Run(cfg, rs).0.hits then |rs| else Entered(cfg, rs[..|rs| - 1], ip)
  }

  /** The accepted timestamps of a client from a position on. */
  function AcceptedFrom(rs: seq<Request>, oks: seq<bool>, ip: string, from: nat): seq<Time>
    requires |rs| == |oks|
  {
    if |rs| <= from then []
    else
      var n := |rs| - 1;
      AcceptedFrom(rs[..n], oks[..n], ip, from) + if rs[n].ip == ip && oks[n] then [rs[n].now] else []
  }

  lemma {:induction false} HistoryIs(cfg: Config, rs: seq<Request>, ip: string)
    requires cfg.Valid() && Monotone(rs)
    ensures EntriesOf(RefRun(cfg, rs).0.hits, ip) == AcceptedFrom(rs, RefRun(cfg, rs).1, ip, Entered(cfg, rs, ip))
  {
    LimiterRefinesFullHistory(cfg, rs);
    assert Run(cfg, rs).0.hits.Keys == RefRun(cfg, rs).0.hits.Keys;
    if rs != [] && ip in RefRun(cfg, rs).0.hits {
      var n := |rs| - 1;
      HistoryIs(cfg, rs[..n], ip);
      var (t, oks) := RefRun(cfg, rs[..n]);
      assert RefRun(cfg, rs).1[..n] == oks;
      RefTouches(cfg, t, rs[n].ip, rs[n].now, ip);
      hide RefDispatch, Related, Agree;
    }
  }

  /** What one request does to the history of a client that is in the table afterwards. */
  lemma RefTouches(cfg: Config, t: Table, asking: string, now: Time, ip: string)
    requires cfg.Valid() && ip in RefDispatch(cfg, t, asking, now).0.hits
    ensures var (t', ok) := RefDispatch(cfg, t, asking, now);
            t'.hits[ip] == EntriesOf(t.hits, ip) + if asking == ip && ok then [now] else []
  {
    hide Recent, Without;
  }

  lemma {:induction false} RunPrefix(cfg: Config, rs: seq<Request>, n: nat)
    requires cfg.Valid() && n <= |rs|
    ensures Run(cfg, rs[..n]).1 == Run(cfg, rs).1[..n]
  {
    if n < |rs| {
      var m := |rs| - 1;
      RunPrefix(cfg, rs[..m], n);
      assert rs[..m][..n] == rs[..n];
      hide Dispatch;
    } else {
      assert rs[..n] == rs;
    }
  }

  /** Whether a request counts against one of client `ip` at time `now`: the client's, accepted, and less than
      a window ago. */
  predicate Counts(cfg: Config, rs: seq<Request>, ds: seq<Decision>, m: nat, ip: string, now: Time)
    requires m < |rs| == |ds|
  {
    rs[m].ip == ip && ds[m].Accept? && rs[m].now > now - cfg.window as real
  }

  function Counted(cfg: Config, rs: seq<Request>, ds: seq<Decision>, from: nat, n: nat, ip: string, now: Time): set<nat>
    requires n <= |rs| == |ds|
  {
    set j | from <= j < n && Counts(cfg, rs, ds, j, ip, now)
  }

  lemma CountedSnoc(cfg: Config, rs: seq<Request>, ds: seq<Decision>, from: nat, m: nat, ip: string, now: Time)
    requires from <= m < |rs| == |ds|
    ensures |Counted(cfg, rs, ds, from, m + 1, ip, now)|
         == |Counted(cfg, rs, ds, from, m, ip, now)| + if Counts(cfg, rs, ds, m, ip, now) then 1 else 0
  {
    var before := Counted(cfg, rs, ds, from, m, ip, now);
    assert Counted(cfg, rs, ds, from, m + 1, ip, now) == before + if Counts(cfg, rs, ds, m, ip, now) then {m} else {};
    assert m !in before;
  }

  lemma RecentSnoc(cfg: Config, accepted: seq<Time>, t: Time, now: Time)
    ensures Recent(cfg, accepted + [t], now) == Recent(cfg, accepted, now) + if now - cfg.window as real < t <= now then 1 else 0
  {
    assert (accepted + [t])[..|accepted + [t]| - 1] == accepted;
  }

  lemma AcceptedSnoc(rs: seq<Request>, oks: seq<bool>, m: nat, ip: string, from: nat)
    requires from <= m < |rs| == |oks|
    ensures AcceptedFrom(rs[..m + 1], oks[..m + 1], ip, from)
         == AcceptedFrom(rs[..m], oks[..m], ip, from) + if rs[m].ip == ip && oks[m] then [rs[m].now] else []
  {
    assert rs[..m + 1][..m] == rs[..m] && oks[..m + 1][..m] == oks[..m];
  }

  lemma CountedNone(cfg: Config, rs: seq<Request>, ds: seq<Decision>, oks: seq<bool>, from: nat, n: nat, ip: string, now: Time)
    requires n <= |rs| == |ds| == |oks| && n <= from
    ensures AcceptedFrom(rs[..n], oks[..n], ip, from) == [] && Counted(cfg, rs, ds, from, n, ip, now) == {}
    ensures Recent(cfg, [], now) == 0
  {
  }

  /** One more request, on both sides. */
  lemma CountedStep(cfg: Config, rs: seq<Request>, ds: seq<Decision>, oks: seq<bool>, from: nat, m: nat, ip: string, now: Time)
    requires from <= m < |rs| == |ds| == |oks| && (ds[m].Accept? <==> oks[m]) && rs[m].now <= now
    requires Recent(cfg, AcceptedFrom(rs[..m], oks[..m], ip, from), now) == |Counted(cfg, rs, ds, from, m, ip, now)|
    ensures Recent(cfg, AcceptedFrom(rs[..m + 1], oks[..m + 1], ip, from), now) == |Counted(cfg, rs, ds, from, m + 1, ip, now)|
  {
    hide AcceptedFrom, Counted, Recent;
    CountedSnoc(cfg, rs, ds, from, m, ip, now);
    AcceptedSnoc(rs, oks, m, ip, from);
    var before := AcceptedFrom(rs[..m], oks[..m], ip, from);
    RecentSnoc(cfg, before, rs[m].now, now);
    assert before + [] == before;
  }

  lemma {:induction false} CountedIs(cfg: Config, rs: seq<Request>, ds: seq<Decision>, oks: seq<bool>, from: nat, n: nat, ip: string, now: Time)
    requires n <= |rs| == |ds| && Agree(ds, oks) && forall j :: 0 <= j < n ==> rs[j].now <= now
    ensures Recent(cfg, AcceptedFrom(rs[..n], oks[..n], ip, from), now) == |Counted(cfg, rs, ds, from, n, ip, now)|
  {
    hide AcceptedFrom, Counted, Recent;
    if n > from {
      CountedIs(cfg, rs, ds, oks, from, n - 1, ip, now);
      CountedStep(cfg, rs, ds, oks, from, n - 1, ip, now);
    } else {
      CountedNone(cfg, rs, ds, oks, from, n, ip, now);
    }
  }

  lemma CountedPrefix(cfg: Config, rs: seq<Request>, ds: seq<Decision>, from: nat, i: nat, ip: string, now: Time)
    requires i <= |rs| == |ds|
    ensures Counted(cfg, rs[..i], ds[..i], from, i, ip, now) == Counted(cfg, rs, ds, from, i, ip, now)
  {
  }

  /** Every decision of a run, said of the requests alone: a request is accepted iff fewer than the limit
      count against it, and then the remaining count is what is left. */
  lemma DecisionIff(cfg: Config, rs: seq<Request>, i: nat)
    requires cfg.Valid() && Monotone(rs) && i < |rs|
    ensures var ds := Run(cfg, rs).1;
            var counted := |Counted(cfg, rs, ds, Entered(cfg, rs[..i], rs[i].ip), i, rs[i].ip, rs[i].now)|;
            && (ds[i].Accept? <==> counted < cfg.requests)
            && (ds[i].Accept? ==> ds[i].remaining == cfg.requests - counted - 1)
  {
    var before, r, ds := rs[..i], rs[i], Run(cfg, rs).1;
    hide *;
    MonotonePrefix(rs, i);
    RunAt(cfg, rs, i);
    CountedPrefix(cfg, rs, ds, Entered(cfg, before, r.ip), i, r.ip, r.now);
    LastDecision(cfg, before, r);
  }

  lemma MonotonePrefix(rs: seq<Request>, i: nat)
    requires Monotone(rs) && i < |rs|
    ensures Monotone(rs[..i]) && forall j :: 0 <= j < i ==> rs[..i][j].now <= rs[i].now
  {
  }

  /** The decision at a position, and those before it, are those of the run up to it. */
  lemma RunAt(cfg: Config, rs: seq<Request>, i: nat)
    requires cfg.Valid() && i < |rs|
    ensures Run(cfg, rs[..i]).1 == Run(cfg, rs).1[..i]
    ensures |Run(cfg, rs[..i] + [rs[i]]).1| == i + 1 && Run(cfg, rs[..i] + [rs[i]]).1[i] == Run(cfg, rs).1[i]
  {
    hide Run;
    assert rs[..i] + [rs[i]] == rs[..i + 1];
    RunPrefix(cfg, rs, i);
    RunPrefix(cfg, rs, i + 1);
  }

  lemma LastDecision(cfg: Config, before: seq<Request>, r: Request)
    requires cfg.Valid() && Monotone(before) && forall j :: 0 <= j < |before| ==> before[j].now <= r.now
    ensures var n := |before|;
            var d := Run(cfg, before + [r]).1[n];
            var counted := |Counted(cfg, before, Run(cfg, before).1, Entered(cfg, before, r.ip), n, r.ip, r.now)|;
            && (d.Accept? <==> counted < cfg.requests)
            && (d.Accept? ==> d.remaining == cfg.requests - counted - 1)
  {
    var oks, n := RefRun(cfg, before).1, |before|;
    hide *;
    LimiterRefinesFullHistory(cfg, before);
    HistoryIs(cfg, before, r.ip);
    CountedIs(cfg, before, Run(cfg, before).1, oks, Entered(cfg, before, r.ip), n, r.ip, r.now);
    assert before[..n] == before && oks[..n] == oks;
    LastIsRecent(cfg, before, r);
  }

  lemma LastIsRecent(cfg: Config, before: seq<Request>, r: Request)
    requires cfg.Valid() && Monotone(before) && forall j :: 0 <= j < |before| ==> before[j].now <= r.now
    ensures var d := Run(cfg, before + [r]).1[|before|];
            var counted := Recent(cfg, EntriesOf(RefRun(cfg, before).0.hits, r.ip), r.now);
            && (d.Accept? <==> counted < cfg.requests)
            && (d.Accept? ==> d.remaining == cfg.requests - counted - 1)
  {
    var n := |before|;
    RunEmpty(cfg);
    StartRelated(cfg, r.now);
    hide *;
    LimiterRefinesFullHistory(cfg, before);
    DispatchRefines(cfg, Run(cfg, before).0, RefRun(cfg, before).0, if n == 0 then r.now else before[n - 1].now, r.ip, r.now);
    RunSnoc(cfg, before, r);
  }

  // ----- what the reference promises --------------------------------------------------------------

  /** Accepted timestamps in the half-open interval (a, a + window]. */
  function InWindow(cfg: Config, accepted: seq<Time>, a: Time): nat {
    CountIn(accepted, a, a + cfg.window as real)
  }

  /** No half-open interval of one window holds more accepted requests than the limit. */
  ghost predicate Bounded(cfg: Config, accepted: seq<Time>) {
    forall a: Time :: InWindow(cfg, accepted, a) <= cfg.requests
  }

  lemma {:induction false} CountInWider(ts: seq<Time>, a: Time, b: Time, c: Time, d: Time)
    requires c <= a && AllUpTo(ts, b)
    ensures CountIn(ts, a, d) <= CountIn(ts, c, b)
  {
    if ts != [] {
      var n := |ts| - 1;
      assert ts[n] in ts && forall x :: x in ts[..n] ==> x in ts;
      CountInWider(ts[..n], a, b, c, d);
    }
  }

  lemma AcceptKeepsBounded(cfg: Config, accepted: seq<Time>, now: Time)
    requires Bounded(cfg, accepted) && AllUpTo(accepted, now)
    requires Recent(cfg, accepted, now) < cfg.requests
    ensures Bounded(cfg, accepted + [now])
  {
    forall a: Time ensures InWindow(cfg, accepted + [now], a) <= cfg.requests {
      var b := a + cfg.window as real;
      CountInAppend(accepted, [now], a, b);
      assert CountIn([now], a, b) == if a < now <= b then 1 else 0 by {
        assert [now][..0] == [];
      }
      assert InWindow(cfg, accepted, a) <= cfg.requests;
      if a < now <= b {
        CountInWider(accepted, a, now, now - cfg.window as real, b);
      }
    }
  }

  ghost predicate RefBounded(cfg: Config, hits: map<string, seq<Time>>, now: Time) {
    forall ip :: ip in hits ==> Bounded(cfg, hits[ip]) && AllUpTo(hits[ip], now)
  }

  lemma RefDispatchBounded(cfg: Config, ref: Table, earlier: Time, ip: string, now: Time)
    requires cfg.Valid() && RefBounded(cfg, ref.hits, earlier) && earlier <= now
    ensures RefBounded(cfg, RefDispatch(cfg, ref, ip, now).0.hits, now)
  {
    forall x | x in ref.hits ensures AllUpTo(ref.hits[x], now) {
      assert AllUpTo(ref.hits[x], earlier);
    }
    var h := Evict(cfg, ref.order, ref.hits, ip).1;
    assert forall x :: x in h ==> x in ref.hits && h[x] == ref.hits[x];
    var accepted := EntriesOf(h, ip);
    NothingIsBounded(cfg);
    assert AllUpTo([], now) && AllUpTo(accepted, now) && AllUpTo(accepted + [now], now);
    hide AllUpTo, Evict, Without, Bounded;
    if Recent(cfg, accepted, now) < cfg.requests {
      AcceptKeepsBounded(cfg, accepted, now);
    }
  }

  /** At most `requests` accepted requests in any half-open interval of one window, for each
      client since it entered the table. */
  lemma {:induction false} FullHistoryIsBounded(cfg: Config, rs: seq<Request>)
    requires cfg.Valid() && Monotone(rs)
    ensures forall ip, a :: ip in RefRun(cfg, rs).0.hits ==> InWindow(cfg, RefRun(cfg, rs).0.hits[ip], a) <= cfg.requests
    ensures rs != [] ==> RefBounded(cfg, RefRun(cfg, rs).0.hits, rs[|rs| - 1].now)
  {
    if rs != [] {
      var n := |rs| - 1;
      FullHistoryIsBounded(cfg, rs[..n]);
      var earlier := if n == 0 then rs[n].now else rs[n - 1].now;
      RefDispatchBounded(cfg, RefRun(cfg, rs[..n]).0, earlier, rs[n].ip, rs[n].now);
      BoundedEverywhere(cfg, RefRun(cfg, rs).0.hits, rs[n].now);
    }
  }

  /** The same of the requests: of a client's, since it entered the table, at most `requests` within
      (a, a + window] are accepted, whatever `a`. */
  lemma AcceptsAreBounded(cfg: Config, rs: seq<Request>, ip: string, a: Time)
    requires cfg.Valid() && Monotone(rs)
    ensures CountIn(AcceptedFrom(rs, RefRun(cfg, rs).1, ip, Entered(cfg, rs, ip)), a, a + cfg.window as real) <= cfg.requests
  {
    HistoryIs(cfg, rs, ip);
    FullHistoryIsBounded(cfg, rs);
    var hits := RefRun(cfg, rs).0.hits;
    assert ip in hits ==> InWindow(cfg, hits[ip], a) <= cfg.requests;
    hide RefRun, Entered, AcceptedFrom, Run;
  }

  lemma BoundedEverywhere(cfg: Config, hits: map<string, seq<Time>>, now: Time)
    requires RefBounded(cfg, hits, now)
    ensures forall ip, a :: ip in hits ==> InWindow(cfg, hits[ip], a) <= cfg.requests
  {
    forall ip, a | ip in hits ensures InWindow(cfg, hits[ip], a) <= cfg.requests {
      assert Bounded(cfg, hits[ip]);
    }
  }

  lemma NothingIsBounded(cfg: Config)
    ensures Bounded(cfg, [])
  {
    forall a: Time ensures InWindow(cfg, [], a) <= cfg.requests {
    }
  }

  // ----- Retry-After ----------------------------------------------------------------------------

  ghost predicate Sound(cfg: Config, t: Table) {
    forall ip :: ip in t.hits ==> Sorted(t.hits[ip]) && |t.hits[ip]| <= cfg.requests
  }

  /** The table holds no timestamp later than `now`. */
  ghost predicate NotAhead(t: Table, now: Time) {
    forall ip :: ip in t.hits ==> AllUpTo(t.hits[ip], now)
  }

  /** Deques are sorted, never longer than the limit and never ahead of the clock, in every
      reachable state. */
  lemma ReachableSound(cfg: Config, rs: seq<Request>)
    requires cfg.Valid() && Monotone(rs)
    ensures Sound(cfg, Run(cfg, rs).0)
    ensures rs != [] ==> NotAhead(Run(cfg, rs).0, rs[|rs| - 1].now)
  {
    LimiterRefinesFullHistory(cfg, rs);
    if rs != [] {
      var t, ref, now := Run(cfg, rs).0, RefRun(cfg, rs).0, rs[|rs| - 1].now;
      hide Run, RefRun, WellFormed;
      RelatedIsSound(cfg, t.hits, ref.hits, now);
    }
  }

  lemma RelatedIsSound(cfg: Config, hits: map<string, seq<Time>>, full: map<string, seq<Time>>, now: Time)
    requires RelatedHits(cfg, hits, full, now)
    ensures forall ip :: ip in hits ==> Sorted(hits[ip]) && |hits[ip]| <= cfg.requests && AllUpTo(hits[ip], now)
  {
    hide Suffix, Sorted, AllUpTo;
    forall ip | ip in hits ensures Sorted(hits[ip]) && |hits[ip]| <= cfg.requests && AllUpTo(hits[ip], now) {
      assert RelatedEntries(cfg, hits[ip], full[ip], now);
      SuffixSorted(hits[ip], full[ip], now - cfg.window as real);
      SuffixUpTo(hits[ip], full[ip], now - cfg.window as real, now);
    }
  }

  lemma SuffixUpTo(kept: seq<Time>, all: seq<Time>, cutoff: Time, now: Time)
    requires Suffix(kept, all, cutoff) && AllUpTo(all, now)
    ensures AllUpTo(kept, now)
  {
    forall x | x in kept ensures x <= now {
      assert x in all;
    }
  }

  /** Requests of other clients, from a given state. */
  function RunFrom(cfg: Config, t: Table, rs: seq<Request>): Table
    requires cfg.Valid()
  {
    if rs == [] then t
    else Dispatch(cfg, RunFrom(cfg, t, rs[..|rs| - 1]), rs[|rs| - 1].ip, rs[|rs| - 1].now).0
  }

  /** A client that stays silent keeps its deque until it is evicted. */
  lemma {:induction false} SilentClientKeepsEntries(cfg: Config, t: Table, rs: seq<Request>, ip: string)
    requires cfg.Valid() && forall i :: 0 <= i < |rs| ==> rs[i].ip != ip
    ensures var end := RunFrom(cfg, t, rs);
            ip in end.hits ==> ip in t.hits && end.hits[ip] == t.hits[ip]
  {
    if rs != [] {
      SilentClientKeepsEntries(cfg, t, rs[..|rs| - 1], ip);
    }
  }

  /** The seconds until the oldest counted request of a rejected client leaves the window. */
  function TrueWait(cfg: Config, t: Table, ip: string, now: Time): real
    requires cfg.Valid() && ip in Dispatch(cfg, t, ip, now).0.hits
  {
    var entries := Dispatch(cfg, t, ip, now).0.hits[ip];
    if entries == [] then 0.0 else cfg.window as real - (now - entries[0])
  }

  lemma {:induction false} DropNone(entries: seq<Time>, cutoff: Time)
    requires Sorted(entries)
    ensures |DropExpired(entries, cutoff)| == |entries| <==> entries == [] || entries[0] > cutoff
    ensures |DropExpired(entries, cutoff)| <= |entries|
  {
    if entries != [] && entries[0] <= cutoff {
      assert Sorted(entries[1..]);
      DropNone(entries[1..], cutoff);
    }
  }

  /** The entries that a rejection leaves behind: as many as the limit, all within the window. */
  lemma RejectedEntries(cfg: Config, t: Table, ip: string, now: Time)
    requires cfg.Valid() && Sound(cfg, t) && Dispatch(cfg, t, ip, now).1.Reject?
    ensures var t1 := Dispatch(cfg, t, ip, now).0;
            && ip in t1.hits && Sorted(t1.hits[ip]) && |t1.hits[ip]| == cfg.requests
            && t1.hits[ip][0] > now - cfg.window as real
  {
    var h := Evict(cfg, t.order, t.hits, ip).1;
    assert ip in h ==> ip in t.hits && h[ip] == t.hits[ip];
    var entries := EntriesOf(h, ip);
    DropExpiredSpec(entries, now - cfg.window as real);
    var kept := DropExpired(entries, now - cfg.window as real);
    SuffixSorted(kept, entries, now - cfg.window as real);
    assert kept[0] in kept;
  }

  /** A rejected client that waits without being evicted is accepted iff the true wait is over. */
  lemma RetryAcceptedIff(cfg: Config, t: Table, ip: string, now: Time, rs: seq<Request>, later: Time)
    requires cfg.Valid() && Sound(cfg, t) && Dispatch(cfg, t, ip, now).1.Reject?
    requires forall i :: 0 <= i < |rs| ==> rs[i].ip != ip
    requires ip in RunFrom(cfg, Dispatch(cfg, t, ip, now).0, rs).hits
    ensures ip in Dispatch(cfg, t, ip, now).0.hits
    ensures Dispatch(cfg, RunFrom(cfg, Dispatch(cfg, t, ip, now).0, rs), ip, later).1.Accept?
            <==> later - now >= TrueWait(cfg, t, ip, now)
  {
    var t1 := Dispatch(cfg, t, ip, now).0;
    RejectedEntries(cfg, t, ip, now);
    SilentClientKeepsEntries(cfg, t1, rs, ip);
    hide *;
    var t2 := RunFrom(cfg, t1, rs);
    var entries := t1.hits[ip];
    FullDequeAcceptsIff(cfg, t2, ip, later);
    TrueWaitOf(cfg, t, ip, now);
    WaitedIff(later, cfg.window as real, now, entries[0]);
  }

  lemma TrueWaitOf(cfg: Config, t: Table, ip: string, now: Time)
    requires cfg.Valid() && ip in Dispatch(cfg, t, ip, now).0.hits && Dispatch(cfg, t, ip, now).0.hits[ip] != []
    ensures TrueWait(cfg, t, ip, now) == cfg.window as real - (now - Dispatch(cfg, t, ip, now).0.hits[ip][0])
  {
    hide Dispatch;
  }

  lemma WaitedIff(later: real, window: real, now: real, oldest: real)
    ensures oldest <= later - window <==> later - now >= window - (now - oldest)
  {
  }

  /** A client with a full deque is accepted iff its oldest timestamp has expired. */
  lemma FullDequeAcceptsIff(cfg: Config, t: Table, ip: string, now: Time)
    requires cfg.Valid() && ip in t.hits && Sorted(t.hits[ip]) && |t.hits[ip]| == cfg.requests
    ensures Dispatch(cfg, t, ip, now).1.Accept? <==> t.hits[ip][0] <= now - cfg.window as real
  {
    DropNone(t.hits[ip], now - cfg.window as real);
    assert Evict(cfg, t.order, t.hits, ip).1 == t.hits;
    hide DropExpired, Without, Sorted, RetryAfter;
  }

  /** The header against the true wait: it is the wait rounded down, but at least 1 and at most
      the window. */
  lemma RetryAfterHeader(cfg: Config, t: Table, ip: string, now: Time)
    requires cfg.Valid() && Sound(cfg, t) && Dispatch(cfg, t, ip, now).1.Reject?
    requires NotAhead(t, now)
    ensures ip in Dispatch(cfg, t, ip, now).0.hits
    ensures var header := Dispatch(cfg, t, ip, now).1.retryAfter;
            var wait := TrueWait(cfg, t, ip, now);
            && 1 <= header <= cfg.window
            && 0.0 < wait < (header + 1) as real
            && (wait >= 1.0 ==> header as real <= wait)
            && (wait < 1.0 ==> header == 1)
  {
    RejectedEntries(cfg, t, ip, now);
    var t1 := Dispatch(cfg, t, ip, now).0;
    var h := Evict(cfg, t.order, t.hits, ip).1;
    assert ip in h ==> ip in t.hits && h[ip] == t.hits[ip];
    var entries := EntriesOf(h, ip);
    DropExpiredSpec(entries, now - cfg.window as real);
    assert t1.hits[ip][0] in t1.hits[ip] && t1.hits[ip][0] in entries;
  }

  /** Waiting one second more than the header is always enough; when the true wait is at least one
      second, any retry before the header is rejected; and waiting exactly the header is enough iff
      the true wait is at most one second or exactly the header, which truncation made smaller
      otherwise. */
  lemma RetryAfterIsHonest(cfg: Config, t: Table, ip: string, now: Time, rs: seq<Request>, later: Time)
    requires cfg.Valid() && Sound(cfg, t) && Dispatch(cfg, t, ip, now).1.Reject?
    requires NotAhead(t, now)
    requires forall i :: 0 <= i < |rs| ==> rs[i].ip != ip
    requires ip in RunFrom(cfg, Dispatch(cfg, t, ip, now).0, rs).hits
    ensures ip in Dispatch(cfg, t, ip, now).0.hits
    ensures var header := Dispatch(cfg, t, ip, now).1.retryAfter;
            var wait := TrueWait(cfg, t, ip, now);
            var ok := Dispatch(cfg, RunFrom(cfg, Dispatch(cfg, t, ip, now).0, rs), ip, later).1.Accept?;
            && (later - now >= (header + 1) as real ==> ok)
            && (wait >= 1.0 && later - now < header as real ==> !ok)
            && (later - now == header as real ==> (ok <==> wait <= 1.0 || wait == header as real))
  {
    RetryAcceptedIff(cfg, t, ip, now, rs, later);
    RetryAfterHeader(cfg, t, ip, now);
    hide *;
    var header := Dispatch(cfg, t, ip, now).1.retryAfter;
    assert (header + 1) as real == header as real + 1.0 && 1.0 == 1 as real;
    HeaderAgainstWait(header as real, TrueWait(cfg, t, ip, now), later - now);
  }

  /** Truncation makes the header short: with one request in 2 seconds, a client refused at 0.5 has to
      wait 1.5 seconds, is told to wait 1, and is refused again when it does. */
  lemma WaitingTheHeaderFails()
    ensures var c, rs := Config(1, 2, 1), [Request("ip", 0.0), Request("ip", 0.5), Request("ip", 1.5)];
            c.Valid() && Monotone(rs) && Run(c, rs).1 == [Accept(0), Reject(1), Reject(1)]
  {
    var c := Config(1, 2, 1);
    var r0, r1, r2 := Request("ip", 0.0), Request("ip", 0.5), Request("ip", 1.5);
    assert Monotone([r0, r1, r2]);
    hide *;
    OnlyClient(c, 0.5, 1.5);
    OnlyClient(c, 1.5, 0.5);
    FirstClient(c);
    RunThree(c, r0, r1, r2);
  }

  lemma RunThree(cfg: Config, a: Request, b: Request, c: Request)
    requires cfg.Valid()
    ensures var (t, d) := Dispatch(cfg, EMPTY, a.ip, a.now);
            var (t', d') := Dispatch(cfg, t, b.ip, b.now);
            var (t'', d'') := Dispatch(cfg, t', c.ip, c.now);
            Run(cfg, [a, b, c]) == (t'', [d, d', d''])
  {
    assert Run(cfg, []) == (EMPTY, []);
    hide Dispatch, Run;
    var (t, d) := Dispatch(cfg, EMPTY, a.ip, a.now);
    var (t', d') := Dispatch(cfg, t, b.ip, b.now);
    assert [] + [a] == [a] && [a] + [b] == [a, b] && [a, b] + [c] == [a, b, c];
    RunSnoc(cfg, [], a);
    assert [] + [d] == [d];
    RunSnoc(cfg, [a], b);
    assert [d] + [d'] == [d, d'];
    RunSnoc(cfg, [a, b], c);
    var d'' := Dispatch(cfg, t', c.ip, c.now).1;
    assert [d, d'] + [d''] == [d, d', d''];
  }

  lemma FirstClient(c: Config)
    requires c == Config(1, 2, 1)
    ensures Dispatch(c, EMPTY, "ip", 0.0) == (Table(["ip"], map["ip" := [0.0]]), Accept(0))
  {
    assert Without([], "ip") + ["ip"] == ["ip"] && [] + [0.0] == [0.0];
    hide RetryAfter;
  }

  lemma OnlyClient(c: Config, now: Time, wait: real)
    requires c == Config(1, 2, 1) && wait == 2.0 - now && 0.0 < wait < 2.0
    ensures var t := Table(["ip"], map["ip" := [0.0]]);
            Dispatch(c, t, "ip", now) == (t, Reject(1))
  {
    var t := Table(["ip"], map["ip" := [0.0]]);
    assert Evict(c, t.order, t.hits, "ip") == (t.order, t.hits) && EntriesOf(t.hits, "ip") == [0.0];
    assert Without(["ip"], "ip") + ["ip"] == ["ip"];
    assert c.window as real == 2.0;
    assert DropExpired([0.0], now - c.window as real) == [0.0];
    assert RetryAfter(c, now, 0.0) == 1;
    hide DropExpired, RetryAfter, Without, Evict;
    assert t.hits["ip" := [0.0]] == t.hits;
  }

  /** The same comparison on numbers alone. */
  lemma HeaderAgainstWait(header: real, wait: real, waited: real)
    requires 0.0 < wait < header + 1.0 && header >= 1.0
    requires wait >= 1.0 ==> header <= wait
    requires wait < 1.0 ==> header == 1.0
    ensures waited >= header + 1.0 ==> waited >= wait
    ensures wait >= 1.0 && waited < header ==> waited < wait
    ensures waited == header ==> (waited >= wait <==> wait <= 1.0 || wait == header)
  {
  }

  // ----- X-RateLimit-Remaining -----------------------------------------------------------------

  /** The table after further requests of one client at the same instant. */
  function Burst(cfg: Config, t: Table, ip: string, now: Time, k: nat): Table
    requires cfg.Valid()
  {
    if k == 0 then t else Dispatch(cfg, Burst(cfg, t, ip, now, k - 1), ip, now).0
  }

  /** The deque of a client that has nothing to expire. */
  ghost predicate Warm(cfg: Config, t: Table, ip: string, now: Time, n: nat) {
    ip in t.hits && |t.hits[ip]| == n && AllAbove(t.hits[ip], now - cfg.window as real)
  }

  lemma WarmDispatch(cfg: Config, t: Table, ip: string, now: Time, n: nat)
    requires cfg.Valid() && Warm(cfg, t, ip, now, n)
    ensures Dispatch(cfg, t, ip, now).1.Accept? <==> n < cfg.requests
    ensures n < cfg.requests ==> Warm(cfg, Dispatch(cfg, t, ip, now).0, ip, now, n + 1)
  {
    var entries := t.hits[ip];
    assert entries != [] ==> entries[0] in entries;
    assert DropExpired(entries, now - cfg.window as real) == entries;
    assert cfg.window as real > 0.0;
    hide DropExpired, Without, RetryAfter;
  }

  lemma AcceptedIsWarm(cfg: Config, t: Table, ip: string, now: Time)
    requires cfg.Valid() && Sound(cfg, t) && Dispatch(cfg, t, ip, now).1.Accept?
    ensures Dispatch(cfg, t, ip, now).1.remaining < cfg.requests
    ensures Warm(cfg, Dispatch(cfg, t, ip, now).0, ip, now, cfg.requests - Dispatch(cfg, t, ip, now).1.remaining)
  {
    var h := Evict(cfg, t.order, t.hits, ip).1;
    assert ip in h ==> ip in t.hits && h[ip] == t.hits[ip];
    DropExpiredSpec(EntriesOf(h, ip), now - cfg.window as real);
    assert cfg.window as real > 0.0;
    hide DropExpired, Without, RetryAfter, Evict;
  }

  /** The remaining count of an accepted request is exact: that many further requests of the client at
      the same instant are accepted, and the next one is not. */
  lemma {:induction false} RemainingIsExact(cfg: Config, t: Table, ip: string, now: Time, k: nat)
    requires cfg.Valid() && Sound(cfg, t) && Dispatch(cfg, t, ip, now).1.Accept?
    requires k <= Dispatch(cfg, t, ip, now).1.remaining
    ensures var (t1, d) := Dispatch(cfg, t, ip, now);
            && d.remaining < cfg.requests
            && Warm(cfg, Burst(cfg, t1, ip, now, k), ip, now, cfg.requests - d.remaining + k)
            && (Dispatch(cfg, Burst(cfg, t1, ip, now, k), ip, now).1.Accept? <==> k < d.remaining)
  {
    var (t1, d) := Dispatch(cfg, t, ip, now);
    AcceptedIsWarm(cfg, t, ip, now);
    hide Dispatch, Warm;
    if k > 0 {
      RemainingIsExact(cfg, t, ip, now, k - 1);
      WarmDispatch(cfg, Burst(cfg, t1, ip, now, k - 1), ip, now, cfg.requests - d.remaining + k - 1);
    }
    WarmDispatch(cfg, Burst(cfg, t1, ip, now, k), ip, now, cfg.requests - d.remaining + k);
  }

  // ----- least recently seen ---------------------------------------------------------------------

  /** Position of the last request of a client, -1 if there is none. */
  function LastSeen(rs: seq<Request>, ip: string): (n: int)
    ensures -1 <= n < |rs|
  {
    if rs == [] then -1
    else if rs[|rs| - 1].ip == ip then |rs| - 1
    else LastSeen(rs[..|rs| - 1], ip)
  }

  ghost predicate ByRecency(order: seq<string>, rs: seq<Request>) {
    && (forall i :: 0 <= i < |order| ==> LastSeen(rs, order[i]) >= 0)
    && (forall i, j :: 0 <= i < j < |order| ==> LastSeen(rs, order[i]) < LastSeen(rs, order[j]))
  }

  lemma {:induction false} WithoutByRecency(order: seq<string>, rs: seq<Request>, ip: string)
    requires ByRecency(order, rs)
    ensures ByRecency(Without(order, ip), rs)
    ensures forall x :: x in Without(order, ip) ==> x in order && x != ip
  {
    hide LastSeen;
    if order != [] {
      var head, tail := order[0], order[1..];
      assert order == [head] + tail;
      assert ByRecency(tail, rs);
      WithoutByRecency(tail, rs, ip);
      var rest := Without(tail, ip);
      if head != ip {
        forall j | 0 <= j < |rest| ensures LastSeen(rs, head) < LastSeen(rs, rest[j]) {
          assert rest[j] in tail;
          var k :| 0 <= k < |tail| && tail[k] == rest[j];
          assert order[k + 1] == rest[j];
        }
      }
    }
  }

  /** The table lists its clients from the least to the most recently seen, so that an eviction,
      which takes the first, removes the least recently seen one. */
  lemma {:induction false} OrderIsRecency(cfg: Config, rs: seq<Request>)
    requires cfg.Valid()
    ensures ByRecency(Run(cfg, rs).0.order, rs)
  {
    if rs != [] {
      var n := |rs| - 1;
      var before := rs[..n];
      OrderIsRecency(cfg, before);
      var t := Run(cfg, before).0;
      hide ByRecency, Evict, Without, DropExpired;
      TouchKeepsRecency(cfg, t.order, t.hits, before, rs[n]);
      assert before + [rs[n]] == rs;
    }
  }

  lemma TouchKeepsRecency(cfg: Config, order: seq<string>, hits: map<string, seq<Time>>, before: seq<Request>, r: Request)
    requires ByRecency(order, before)
    ensures ByRecency(Without(Evict(cfg, order, hits, r.ip).0, r.ip) + [r.ip], before + [r])
  {
    var o := Evict(cfg, order, hits, r.ip).0;
    EvictRecency(cfg, order, hits, before, r.ip);
    hide *;
    WithoutByRecency(o, before, r.ip);
    SnocRecency(Without(o, r.ip), before, r);
  }

  lemma EvictRecency(cfg: Config, order: seq<string>, hits: map<string, seq<Time>>, before: seq<Request>, ip: string)
    requires ByRecency(order, before)
    ensures ByRecency(Evict(cfg, order, hits, ip).0, before)
  {
    hide LastSeen;
  }

  lemma SnocRecency(rest: seq<string>, before: seq<Request>, r: Request)
    requires ByRecency(rest, before) && forall x :: x in rest ==> x != r.ip
    ensures ByRecency(rest + [r.ip], before + [r])
  {
    var rs, order := before + [r], rest + [r.ip];
    assert rs[..|rs| - 1] == before;
    assert LastSeen(rs, r.ip) == |before|;
    forall i | 0 <= i < |rest| ensures order[i] == rest[i] && LastSeen(rs, order[i]) == LastSeen(before, rest[i]) {
      assert rest[i] in rest;
    }
    hide LastSeen;
  }

  // ----- the middleware object --------------------------------------------------------------------

  class Middleware {
    const cfg: Config
    var order: seq<string>
    var hits: map<string, seq<Time>>

    constructor (cfg: Config)
      ensures this.cfg == cfg && order == [] && hits == map[]
    {
      this.cfg := cfg;
      order, hits := [], map[];
    }

    function Contents(): Table
      reads this
    {
      Table(order, hits)
    }

    method CleanupOldEntries(ip: string, now: Time)
      modifies this
      ensures hits == old(hits)[ip := DropExpired(EntriesOf(old(hits), ip), now - cfg.window as real)]
      ensures order == if ip in old(order) then old(order) else old(order) + [ip]
    {
      var cutoff := now - cfg.window as real;
      var entries := EntriesOf(hits, ip);
      while entries != [] && entries[0] <= cutoff
        invariant DropExpired(entries, cutoff) == DropExpired(EntriesOf(hits, ip), cutoff)
        decreases |entries|
      {
        entries := entries[1..];
      }
      hits := hits[ip := entries];
      if ip !in order {
        order := order + [ip];
      }
    }

    method MoveToEnd(ip: string)
      modifies this`order
      ensures order == Without(old(order), ip) + [ip]
    {
      order := Without(order, ip) + [ip];
    }

    method EvictOldest(ip: string)
      requires cfg.Valid() && WellFormed(cfg, order, hits.Keys)
      modifies this
      ensures (order, hits) == Evict(cfg, old(order), old(hits), ip)
    {
      if ip !in hits && |order| >= cfg.maxClients {
        hits := hits - {order[0]};
        order := order[1..];
      }
    }

    /** One request of a limited path, decided in one atomic step. */
    method Handle(ip: string, now: Time) returns (d: Decision)
      requires cfg.Valid() && WellFormed(cfg, order, hits.Keys)
      modifies this
      ensures WellFormed(cfg, order, hits.Keys)
      ensures (Contents(), d) == Dispatch(cfg, old(Contents()), ip, now)
    {
      hide Evict, DropExpired, Without, WellFormed, RetryAfter;
      TouchKeepsWellFormed(cfg, order, hits, ip, Dispatch(cfg, Contents(), ip, now).0.hits[ip]);
      EvictOldest(ip);
      ghost var o, h := order, hits;
      CleanupOldEntries(ip, now);
      MoveToEnd(ip);
      WithoutSnoc(o, ip);
      var count := |hits[ip]|;
      var remaining := Max(0, cfg.requests - count - 1);
      if count >= cfg.requests {
        return Reject(RetryAfter(cfg, now, hits[ip][0]));
      }
      hits := hits[ip := hits[ip] + [now]];
      assert hits == h[ip := hits[ip]];
      d := Accept(remaining);
    }
  }

  lemma {:induction false} WithoutSnoc(order: seq<string>, ip: string)
    ensures Without(order + [ip], ip) == Without(order, ip)
  {
    if order == [] {
      assert [ip][1..] == [];
      assert order + [ip] == [ip];
    } else {
      assert (order + [ip])[1..] == order[1..] + [ip];
      WithoutSnoc(order[1..], ip);
    }
  }
}
