/** What the guard keeps over every run of arrivals and releases. */
module GuardTheorems {
  import opened Sums
  import opened Order
  import opened Guards

  // --- accounting -----------------------------------------------------------------------

  function Inflight(st: IpState): nat {
    st.inflight
  }

  /** The most entries the table can have. */
  function TableCap(lim: Limits): nat {
    if lim.tracked > lim.total + 1 then lim.tracked else lim.total + 1
  }

  ghost predicate Accounted(lim: Limits, g: Guard) {
    && SumOf(g.ips, Inflight) == g.total
    && g.total <= lim.total
    && (forall ip <- g.ips :: g.ips[ip].inflight <= lim.perIp)
    && |g.ips| <= TableCap(lim)
  }

  lemma {:induction false} SumZero(m: map<string, IpState>)
    requires forall k <- m :: m[k].inflight == 0
    ensures SumOf(m, Inflight) == 0
    decreases |m|
  {
    if |m| > 0 {
      var k := SomeKey(m);
      SumRemove(m, k, Inflight);
      RemoveCount(m, k);
      SumZero(m - {k});
    }
  }

  lemma DropIdle(m: map<string, IpState>, gone: set<string>)
    requires gone <= m.Keys && forall ip <- gone :: m[ip].inflight == 0
    ensures SumOf(m - gone, Inflight) == SumOf(m, Inflight)
  {
    SumSplit(m, gone, Inflight);
    SumZero(map k | k in gone :: m[k]);
  }

  /** `left` is `ips` without some of its idle entries. */
  ghost predicate Trimmed(ips: map<string, IpState>, left: map<string, IpState>) {
    && left.Keys <= ips.Keys
    && |left| <= |ips|
    && (forall ip <- left :: left[ip] == ips[ip])
    && (forall ip <- ips :: ips[ip].inflight > 0 ==> ip in left)
    && SumOf(left, Inflight) == SumOf(ips, Inflight)
  }

  lemma TrimIdle(ips: map<string, IpState>, gone: set<string>)
    requires gone <= IdleIps(ips)
    ensures Trimmed(ips, ips - gone)
  {
    DropIdle(ips, gone);
    RemoveSetCount(ips, gone);
  }

  lemma TrimStale(lim: Limits, ips: map<string, IpState>, now: real)
    ensures Trimmed(ips, DropStale(lim, ips, now))
  {
    TrimIdle(ips, StaleIps(ips, now - lim.window));
  }

  /** Eviction loses no running handshake. */
  lemma EvictKeepsRunning(lim: Limits, ips: map<string, IpState>, now: real)
    ensures Trimmed(ips, Evict(lim, ips, now))
  {
    if |ips| >= lim.tracked {
      var kept := DropStale(lim, ips, now);
      TrimStale(lim, ips, now);
      TrimIdle(kept, Overflow(lim, kept));
    }
  }

  lemma AllBusy(ips: map<string, IpState>)
    requires IdleIps(ips) == {}
    ensures |ips| <= SumOf(ips, Inflight)
  {
    forall ip <- ips ensures Inflight(ips[ip]) >= 1 {
      assert ip !in IdleIps(ips);
    }
    SumAtLeastCount(ips, Inflight);
  }

  lemma OverflowMakesRoom(lim: Limits, kept: map<string, IpState>)
    requires |kept| <= TableCap(lim) && SumOf(kept, Inflight) <= lim.total
    ensures |kept - Overflow(lim, kept)| < TableCap(lim)
  {
    RemoveSetCount(kept, Overflow(lim, kept));
    if |kept| >= lim.tracked && IdleIps(kept) == {} { AllBusy(kept); }
  }

  /** Eviction always makes room for one more entry. */
  lemma EvictMakesRoom(lim: Limits, ips: map<string, IpState>, now: real)
    requires SumOf(ips, Inflight) <= lim.total && |ips| <= TableCap(lim)
    ensures |Evict(lim, ips, now)| < TableCap(lim)
  {
    if |ips| >= lim.tracked {
      TrimStale(lim, ips, now);
      OverflowMakesRoom(lim, DropStale(lim, ips, now));
    }
  }

  lemma EnteredAccounted(lim: Limits, g: Guard, ip: string, now: real)
    requires Accounted(lim, g)
    ensures Accounted(lim, Guard(Entered(lim, g.ips, ip, now), g.total))
    ensures Entered(lim, g.ips, ip, now)[ip].inflight == if ip in g.ips then g.ips[ip].inflight else 0
  {
    if ip !in g.ips {
      var left := Evict(lim, g.ips, now);
      EvictKeepsRunning(lim, g.ips, now);
      EvictMakesRoom(lim, g.ips, now);
      SumUpdate(left, ip, IpState([], 0, 0.0), Inflight);
      assert left[ip := IpState([], 0, 0.0)].Keys == left.Keys + {ip};
    }
  }

  lemma SeenAccounted(lim: Limits, g: Guard, ip: string, now: real)
    requires Accounted(lim, g)
    ensures Accounted(lim, Guard(Seen(lim, g.ips, ip, now), g.total))
    ensures ip in Seen(lim, g.ips, ip, now)
    ensures Seen(lim, g.ips, ip, now)[ip].inflight == if ip in g.ips then g.ips[ip].inflight else 0
  {
    EnteredAccounted(lim, g, ip, now);
    var table, seen := Entered(lim, g.ips, ip, now), Seen(lim, g.ips, ip, now);
    SumUpdate(table, ip, seen[ip], Inflight);
    assert seen.Keys == table.Keys;
  }

  lemma AcquireAccounted(lim: Limits, g: Guard, ip: string, now: real)
    requires Accounted(lim, g)
    ensures Accounted(lim, Acquire(lim, g, ip, now).0)
  {
    SeenAccounted(lim, g, ip, now);
    var table := Seen(lim, g.ips, ip, now);
    var (after, verdict) := Acquire(lim, g, ip, now);
    if verdict == Admitted {
      SumUpdate(table, ip, after.ips[ip], Inflight);
      assert after.ips.Keys == table.Keys;
    }
  }

  lemma ReleaseAccounted(lim: Limits, g: Guard, ip: string)
    requires Accounted(lim, g)
    ensures Accounted(lim, Release(g, ip))
  {
    if ip in g.ips {
      var after := Release(g, ip);
      SumRemove(g.ips, ip, Inflight);
      RemoveCount(g.ips, ip);
      if ip in after.ips {
        SumUpdate(g.ips, ip, after.ips[ip], Inflight);
        assert after.ips.Keys == g.ips.Keys;
      }
    }
  }

  /** Over any run the total is the sum of the per-IP counts, both caps hold and the table
      stays bounded. */
  lemma {:induction false} RunAccounted(lim: Limits, t: Trace)
    ensures Accounted(lim, Run(lim, t))
    decreases t
  {
    match t
    case Empty =>
    case Then(before, Come(ip, now)) =>
      RunAccounted(lim, before);
      AcquireAccounted(lim, Run(lim, before), ip, now);
    case Then(before, Go(ip)) =>
      RunAccounted(lim, before);
      ReleaseAccounted(lim, Run(lim, before), ip);
  }

  // --- matched releases -----------------------------------------------------------------

  /** Handshakes of `ip` admitted and not yet released. */
  ghost function Outstanding(lim: Limits, t: Trace, ip: string): int {
    match t
    case Empty => 0
    case Then(before, Come(who, now)) =>
      Outstanding(lim, before, ip) +
      if who == ip && Acquire(lim, Run(lim, before), who, now).1 == Admitted then 1 else 0
    case Then(before, Go(who)) => Outstanding(lim, before, ip) - if who == ip then 1 else 0
  }

  /** Only handshakes that were admitted are released, as a `_GuardSlot` does. */
  ghost predicate Matched(lim: Limits, t: Trace) {
    t.Then? ==>
      && Matched(lim, t.before)
      && (t.event.Go? ==> Outstanding(lim, t.before, t.event.ip) > 0)
  }

  ghost function Running(g: Guard, ip: string): nat {
    if ip in g.ips then g.ips[ip].inflight else 0
  }

  lemma SeenRunning(lim: Limits, g: Guard, who: string, now: real, ip: string)
    requires Accounted(lim, g)
    ensures Running(Guard(Seen(lim, g.ips, who, now), g.total), ip) == Running(g, ip)
  {
    SeenAccounted(lim, g, who, now);
    if who !in g.ips { EvictKeepsRunning(lim, g.ips, now); }
  }

  lemma AcquireRunning(lim: Limits, g: Guard, who: string, now: real, ip: string)
    requires Accounted(lim, g)
    ensures var (after, verdict) := Acquire(lim, g, who, now);
            Running(after, ip) == Running(g, ip) + if who == ip && verdict == Admitted then 1 else 0
  {
    SeenRunning(lim, g, who, now, ip);
  }

  /** The table counts exactly the handshakes that are running, so a matched release always
      finds its entry and neither count is ever clamped. */
  lemma {:induction false} ReleaseFindsEntry(lim: Limits, t: Trace, ip: string)
    requires Matched(lim, t)
    ensures Running(Run(lim, t), ip) == Outstanding(lim, t, ip)
    ensures Outstanding(lim, t, ip) > 0 ==>
              ip in Run(lim, t).ips && Run(lim, t).ips[ip].inflight > 0 && Run(lim, t).total > 0
    decreases t
  {
    RunAccounted(lim, t);
    if t.Then? {
      ReleaseFindsEntry(lim, t.before, ip);
      RunAccounted(lim, t.before);
      match t.event
      case Come(who, now) => AcquireRunning(lim, Run(lim, t.before), who, now, ip);
      case Go(who) =>
    }
    var g := Run(lim, t);
    if Outstanding(lim, t, ip) > 0 { SumRemove(g.ips, ip, Inflight); }
  }

  // --- the sliding window ---------------------------------------------------------------

  /** The times at which `ip` was admitted, over the whole run. */
  ghost function Admissions(lim: Limits, t: Trace, ip: string): seq<real> {
    match t
    case Empty => []
    case Then(before, Come(who, now)) =>
      Admissions(lim, before, ip) +
      if who == ip && Acquire(lim, Run(lim, before), who, now).1 == Admitted then [now] else []
    case Then(before, Go(_)) => Admissions(lim, before, ip)
  }

  /** The clock after a run; a run starts at `start`. */
  function Clock(t: Trace, start: real): real {
    match t
    case Empty => start
    case Then(_, Come(_, now)) => now
    case Then(before, Go(_)) => Clock(before, start)
  }

  predicate Monotone(t: Trace, start: real) {
    t.Then? ==> Monotone(t.before, start) && (t.event.Come? ==> t.event.now >= Clock(t.before, start))
  }

  /** The forced part of eviction hits `ip` while it has an attempt in the window. */
  ghost predicate Forgets(lim: Limits, ips: map<string, IpState>, now: real, ip: string) {
    Forced(lim, ips, now, ip) && exists a <- ips[ip].attempts :: a >= now - lim.window
  }

  ghost predicate NeverForgets(lim: Limits, t: Trace, ip: string) {
    t.Then? ==>
      && NeverForgets(lim, t.before, ip)
      && (t.event.Come? && t.event.ip !in Run(lim, t.before).ips ==>
            !Forgets(lim, Run(lim, t.before).ips, t.event.now, ip))
  }

  ghost predicate Sorted(h: seq<real>) {
    forall i, j | 0 <= i < j < |h| :: h[i] <= h[j]
  }

  /** `kept` is the end of `h`, and what is missing is older than `cutoff`. */
  ghost predicate Recalls(h: seq<real>, kept: seq<real>, cutoff: real) {
    && |kept| <= |h|
    && kept == h[|h| - |kept|..]
    && forall i | 0 <= i < |h| - |kept| :: h[i] < cutoff
  }

  /** Entries `perWindow` apart are more than a window apart. */
  ghost predicate Spaced(h: seq<real>, perWindow: nat, window: real) {
    forall i | 0 <= i && i + perWindow < |h| :: h[i + perWindow] > h[i] + window
  }

  ghost predicate HistoryOk(lim: Limits, h: seq<real>, clock: real) {
    && Sorted(h)
    && (forall i | 0 <= i < |h| :: h[i] <= clock)
    && Spaced(h, lim.perWindow, lim.window)
  }

  /** An entry recalls all of `h` that is still in the window at `clock`. */
  ghost predicate EntryOk(lim: Limits, st: IpState, h: seq<real>, clock: real) {
    && Recalls(h, st.attempts, clock - lim.window)
    && forall i | 0 <= i < |st.attempts| :: st.attempts[i] <= st.lastSeen
  }

  ghost predicate WindowInv(lim: Limits, g: Guard, ip: string, h: seq<real>, clock: real) {
    && HistoryOk(lim, h, clock)
    && if ip in g.ips then EntryOk(lim, g.ips[ip], h, clock) else Recalls(h, [], clock - lim.window)
  }

  lemma {:induction false} PurgeRecalls(h: seq<real>, kept: seq<real>, older: real, cutoff: real)
    requires Recalls(h, kept, older) && older <= cutoff
    ensures Recalls(h, Purge(kept, cutoff), cutoff)
    decreases |kept|
  {
    if kept != [] && kept[0] < cutoff {
      var n := |h| - |kept|;
      assert h[n] == kept[0] && h[n + 1..] == kept[1..];
      assert Recalls(h, kept[1..], cutoff);
      PurgeRecalls(h, kept[1..], cutoff, cutoff);
    }
  }

  /** Stale eviction loses no attempt still in the window. */
  lemma EvictRecalls(lim: Limits, g: Guard, ip: string, h: seq<real>, clock: real, now: real)
    requires WindowInv(lim, g, ip, h, clock) && now >= clock && !Forced(lim, g.ips, now, ip)
    ensures var left := Evict(lim, g.ips, now);
            Recalls(h, if ip in left then left[ip].attempts else [], now - lim.window)
    ensures ip in Evict(lim, g.ips, now) ==> ip in g.ips && Evict(lim, g.ips, now)[ip] == g.ips[ip]
  {
    EvictKeepsRunning(lim, g.ips, now);
    if ip in g.ips && ip !in Evict(lim, g.ips, now) {
      assert ip in StaleIps(g.ips, now - lim.window);
      var kept := g.ips[ip].attempts;
      forall i | 0 <= i < |h| ensures h[i] < now - lim.window {
        if i >= |h| - |kept| { assert h[i] == kept[i - (|h| - |kept|)]; }
      }
    }
  }

  lemma OtherArrives(lim: Limits, g: Guard, who: string, ip: string, h: seq<real>, clock: real, now: real)
    requires who != ip && WindowInv(lim, g, ip, h, clock) && now >= clock
    requires who !in g.ips ==> !Forgets(lim, g.ips, now, ip)
    ensures WindowInv(lim, Acquire(lim, g, who, now).0, ip, h, now)
  {
    var after := Acquire(lim, g, who, now).0;
    if who !in g.ips {
      assert ip in after.ips <==> ip in Evict(lim, g.ips, now);
      if Forced(lim, g.ips, now, ip) {
        assert ip !in Evict(lim, g.ips, now);
        DropsRecent(h, g.ips[ip].attempts, clock - lim.window, now - lim.window);
      } else {
        EvictRecalls(lim, g, ip, h, clock, now);
      }
    }
  }

  lemma RecalledBefore(h: seq<real>, kept: seq<real>, cutoff: real, clock: real)
    requires Recalls(h, kept, cutoff) && forall i | 0 <= i < |h| :: h[i] <= clock
    ensures forall i | 0 <= i < |kept| :: kept[i] <= clock
  {
    assert forall i | 0 <= i < |kept| :: kept[i] == h[|h| - |kept| + i];
  }

  /** The entry that judges `ip` recalls everything still in the window. */
  lemma SeenRecalls(lim: Limits, g: Guard, ip: string, h: seq<real>, clock: real, now: real)
    requires WindowInv(lim, g, ip, h, clock) && now >= clock
    ensures var seen := Seen(lim, g.ips, ip, now);
            ip in seen && seen[ip].lastSeen == now && EntryOk(lim, seen[ip], h, now)
  {
    var kept := if ip in g.ips then g.ips[ip].attempts else [];
    PurgeRecalls(h, kept, clock - lim.window, now - lim.window);
    var left := Purge(kept, now - lim.window);
    RecalledBefore(h, left, now - lim.window, clock);
    assert Seen(lim, g.ips, ip, now)[ip].attempts == left;
  }

  lemma Admit(lim: Limits, st: IpState, h: seq<real>, clock: real, now: real)
    requires HistoryOk(lim, h, clock) && EntryOk(lim, st, h, now) && clock <= now == st.lastSeen
    requires |st.attempts| < lim.perWindow
    ensures HistoryOk(lim, h + [now], now)
    ensures EntryOk(lim, st.(attempts := st.attempts + [now], inflight := st.inflight + 1), h + [now], now)
  {
  }

  lemma SameArrives(lim: Limits, g: Guard, ip: string, h: seq<real>, clock: real, now: real)
    requires WindowInv(lim, g, ip, h, clock) && now >= clock
    ensures var (after, verdict) := Acquire(lim, g, ip, now);
            WindowInv(lim, after, ip, if verdict == Admitted then h + [now] else h, now)
  {
    SeenRecalls(lim, g, ip, h, clock, now);
    var st := Seen(lim, g.ips, ip, now)[ip];
    if Acquire(lim, g, ip, now).1 == Admitted { Admit(lim, st, h, clock, now); }
  }

  lemma SomeoneLeaves(lim: Limits, g: Guard, who: string, ip: string, h: seq<real>, clock: real)
    requires WindowInv(lim, g, ip, h, clock)
    ensures WindowInv(lim, Release(g, who), ip, h, clock)
  {
  }

  lemma SomeoneArrives(lim: Limits, g: Guard, who: string, ip: string, h: seq<real>, clock: real, now: real)
    requires WindowInv(lim, g, ip, h, clock) && now >= clock
    requires who !in g.ips ==> !Forgets(lim, g.ips, now, ip)
    ensures var (after, verdict) := Acquire(lim, g, who, now);
            WindowInv(lim, after, ip, h + if who == ip && verdict == Admitted then [now] else [], now)
  {
    assert h + [] == h;
    if who == ip {
      SameArrives(lim, g, ip, h, clock, now);
    } else {
      OtherArrives(lim, g, who, ip, h, clock, now);
    }
  }

  lemma {:induction false} RunWindow(lim: Limits, t: Trace, ip: string, start: real)
    requires Monotone(t, start) && NeverForgets(lim, t, ip)
    ensures WindowInv(lim, Run(lim, t), ip, Admissions(lim, t, ip), Clock(t, start))
    decreases t
  {
    if t.Then? {
      RunWindow(lim, t.before, ip, start);
      var g, h, clock := Run(lim, t.before), Admissions(lim, t.before, ip), Clock(t.before, start);
      if t.event.Come? {
        SomeoneArrives(lim, g, t.event.ip, ip, h, clock, t.event.now);
      } else {
        SomeoneLeaves(lim, g, t.event.ip, ip, h, clock);
      }
    }
  }

  /** The admissions inside the closed interval of one window from `from'`. */
  ghost function Within(h: seq<real>, from': real, window: real): set<nat> {
    set i: nat | i < |h| && from' <= h[i] <= from' + window
  }

  lemma FarApart(h: seq<real>, perWindow: nat, window: real, lo: nat, i: nat)
    requires Sorted(h) && Spaced(h, perWindow, window) && lo + perWindow <= i < |h|
    ensures h[i] > h[lo] + window
  {
    assert h[lo + perWindow] > h[lo] + window;
  }

  lemma SpacedCount(h: seq<real>, perWindow: nat, window: real, from': real)
    requires Sorted(h) && Spaced(h, perWindow, window)
    ensures |Within(h, from', window)| <= perWindow
  {
    var inside := Within(h, from', window);
    if inside != {} {
      var lo := FirstIndex(inside);
      forall i | lo + perWindow <= i < |h| ensures h[i] > h[lo] + window {
        FarApart(h, perWindow, window, lo, i);
      }
      SubsetSize(inside, Range(lo, perWindow));
    }
  }

  lemma {:induction false} FirstIndex(s: set<nat>) returns (lo: nat)
    requires s != {}
    ensures lo in s && forall i <- s :: lo <= i
    decreases s
  {
    var x :| x in s;
    var rest := s - {x};
    assert s == rest + {x};
    if rest == {} {
      return x;
    }
    lo := FirstIndex(rest);
    if x < lo { lo := x; }
  }

  /** The rate limit: for a clock that does not go back and an IP that forced eviction never
      hits while it has an attempt in the window, no closed interval one window long ever
      contains more than `perWindow` of its admissions. */
  lemma RateLimited(lim: Limits, t: Trace, ip: string, start: real, from': real)
    requires Monotone(t, start) && NeverForgets(lim, t, ip)
    ensures |Within(Admissions(lim, t, ip), from', lim.window)| <= lim.perWindow
  {
    RunWindow(lim, t, ip, start);
    SpacedCount(Admissions(lim, t, ip), lim.perWindow, lim.window, from');
  }

  // --- what forced eviction costs ---------------------------------------------------------

  /** A new address makes the guard forget attempts of `ip` that are still in the window
      exactly when forced eviction hits `ip` while it has such an attempt. */
  lemma ForgetsExactly(lim: Limits, g: Guard, who: string, ip: string, h: seq<real>, clock: real, now: real)
    requires who != ip && who !in g.ips && WindowInv(lim, g, ip, h, clock) && now >= clock
    ensures var after := Acquire(lim, g, who, now).0;
            Recalls(h, if ip in after.ips then after.ips[ip].attempts else [], now - lim.window) <==>
            !Forgets(lim, g.ips, now, ip)
  {
    var after := Acquire(lim, g, who, now).0;
    assert ip in after.ips <==> ip in Evict(lim, g.ips, now);
    if Forced(lim, g.ips, now, ip) {
      assert ip !in Evict(lim, g.ips, now);
      DropsRecent(h, g.ips[ip].attempts, clock - lim.window, now - lim.window);
    } else {
      EvictRecalls(lim, g, ip, h, clock, now);
    }
  }

  lemma DropsRecent(h: seq<real>, kept: seq<real>, older: real, cutoff: real)
    requires Recalls(h, kept, older) && older <= cutoff
    ensures Recalls(h, [], cutoff) <==> !exists a <- kept :: a >= cutoff
  {
    if a :| a in kept && a >= cutoff {
      var i :| 0 <= i < |kept| && kept[i] == a;
      assert h[|h| - |kept| + i] == a;
    } else {
      forall i | 0 <= i < |h| ensures h[i] < cutoff {
        if i >= |h| - |kept| { assert h[i] == kept[i - (|h| - |kept|)] && h[i] in kept; }
      }
    }
  }

  /** `ip` comes at `now` and leaves at once. */
  function Visits(before: Trace, ip: string, now: real): Trace {
    Then(Then(before, Come(ip, now)), Go(ip))
  }

  lemma VisitMonotone(before: Trace, ip: string, now: real, start: real)
    requires Monotone(before, start) && Clock(before, start) <= now
    ensures Monotone(Visits(before, ip, now), start) && Clock(Visits(before, ip, now), start) == now
  {
    var t := Then(before, Come(ip, now));
    assert Monotone(t, start) && Clock(t, start) == now;
  }

  ghost predicate Generous(lim: Limits) {
    lim.tracked >= 1 && lim.perWindow >= 1 && lim.total >= 1 && lim.perIp >= 1 && lim.window >= 0.0
  }

  /** No handshake runs, and everyone in the table was last seen at `now`. */
  ghost predicate Idling(lim: Limits, g: Guard, now: real) {
    && g.total == 0 && |g.ips| <= lim.tracked
    && forall ip <- g.ips :: g.ips[ip].inflight == 0 && g.ips[ip].lastSeen == now
  }

  /** The table after an address that was not in it has come and gone. */
  ghost function Visited(lim: Limits, g: Guard, ip: string, now: real): Guard {
    Guard(Evict(lim, g.ips, now)[ip := IpState([now], 0, now)], 0)
  }

  lemma SeenNew(lim: Limits, ips: map<string, IpState>, ip: string, now: real)
    requires ip !in ips
    ensures Seen(lim, ips, ip, now) == Evict(lim, ips, now)[ip := IpState([], 0, now)]
  {
  }

  lemma AdmitsOne(lim: Limits, g: Guard, ip: string, now: real)
    requires Generous(lim) && g.total == 0 && ip !in g.ips
    ensures var (held, verdict) := Acquire(lim, g, ip, now);
            && verdict == Admitted && held.total == 1
            && held.ips == Evict(lim, g.ips, now)[ip := IpState([now], 1, now)]
  {
    SeenNew(lim, g.ips, ip, now);
    assert Judge(lim, 0, IpState([], 0, now)) == Admitted && [] + [now] == [now];
  }

  lemma NewVisit(lim: Limits, g: Guard, ip: string, now: real)
    requires Generous(lim) && g.total == 0 && ip !in g.ips
    ensures var (held, verdict) := Acquire(lim, g, ip, now);
            verdict == Admitted && Release(held, ip) == Visited(lim, g, ip, now)
  {
    AdmitsOne(lim, g, ip, now);
    ReleasesOne(Evict(lim, g.ips, now), ip, now);
  }

  lemma ReleasesOne(left: map<string, IpState>, ip: string, now: real)
    ensures Release(Guard(left[ip := IpState([now], 1, now)], 1), ip) == Guard(left[ip := IpState([now], 0, now)], 0)
  {
    assert left[ip := IpState([now], 1, now)][ip := IpState([now], 0, now)] == left[ip := IpState([now], 0, now)];
  }

  lemma VisitRun(lim: Limits, before: Trace, ip: string, now: real, who: string)
    requires Generous(lim) && Run(lim, before).total == 0 && ip !in Run(lim, before).ips
    ensures Run(lim, Visits(before, ip, now)) == Visited(lim, Run(lim, before), ip, now)
    ensures Admissions(lim, Visits(before, ip, now), who) ==
            Admissions(lim, before, who) + if who == ip then [now] else []
  {
    NewVisit(lim, Run(lim, before), ip, now);
    var t := Then(before, Come(ip, now));
    assert Run(lim, t) == Acquire(lim, Run(lim, before), ip, now).0;
    assert Admissions(lim, Then(t, Go(ip)), who) == Admissions(lim, t, who);
  }

  /** `a` comes first among all addresses of the table. */
  ghost predicate First(g: Guard, a: string) {
    forall ip <- g.ips :: Leq(a, ip)
  }

  /** A full table of idle addresses makes room, and `a` goes first. */
  lemma EvictsFirst(lim: Limits, g: Guard, a: string, now: real)
    requires Generous(lim) && Idling(lim, g, now) && First(g, a)
    ensures |g.ips| < lim.tracked ==> Evict(lim, g.ips, now) == g.ips
    ensures |Evict(lim, g.ips, now)| < lim.tracked
    ensures forall ip <- Evict(lim, g.ips, now) :: ip in g.ips && Evict(lim, g.ips, now)[ip] == g.ips[ip]
    ensures a in g.ips && |g.ips| >= lim.tracked ==> a !in Evict(lim, g.ips, now)
  {
    if |g.ips| >= lim.tracked {
      var idle := IdleIps(g.ips);
      assert DropStale(lim, g.ips, now) == g.ips;
      assert idle == g.ips.Keys;
      var gone := Overflow(lim, g.ips);
      assert gone == FirstIdle(g.ips, idle, Tenth(|idle|)) && gone != {};
      RemoveSetCount(g.ips, gone);
      if a in g.ips {
        assert IsOldest(g.ips, idle, a);
        OldestUnique(g.ips, idle, a, Oldest(g.ips, idle));
        assert a in gone;
      }
    }
  }

  /** Addresses in the order of their visits. */
  datatype Names = NoMore | Name(ip: string, rest: Names)

  function Length(names: Names): nat {
    if names.NoMore? then 0 else 1 + Length(names.rest)
  }

  function All(names: Names): set<string> {
    if names.NoMore? then {} else {names.ip} + All(names.rest)
  }

  /** They are new, different, and come after `a`. */
  predicate AllNew(a: string, names: Names, used: set<string>) {
    names.Name? ==>
      names.ip != a && names.ip !in used && Leq(a, names.ip) && AllNew(a, names.rest, used + {names.ip})
  }

  /** The table holds at most `a` and addresses that have been used, all of them after `a`. */
  ghost predicate OnlyFrom(g: Guard, a: string, used: set<string>) {
    First(g, a) && forall ip <- g.ips :: ip == a || ip in used
  }

  /** If `a` is in the table, m others have not pushed it out. */
  ghost predicate Crowded(lim: Limits, g: Guard, a: string, used: set<string>, m: nat, now: real) {
    Idling(lim, g, now) && OnlyFrom(g, a, used) && (a in g.ips ==> |g.ips| > m)
  }

  /** The table of which `left` is left, with one more address. */
  lemma Joined(lim: Limits, g: Guard, left: map<string, IpState>, a: string, used: set<string>, m: nat,
               ip: string, now: real)
    requires Crowded(lim, g, a, used, m, now) && |left| < lim.tracked
    requires forall k <- left :: k in g.ips && left[k] == g.ips[k]
    requires a in left ==> left == g.ips
    requires ip != a && ip !in used && Leq(a, ip)
    ensures Crowded(lim, Guard(left[ip := IpState([now], 0, now)], 0), a, used + {ip}, m + 1, now)
  {
    AddCount(left, ip, IpState([now], 0, now));
    assert a in left[ip := IpState([now], 0, now)] ==> a in left;
  }

  lemma OneMore(lim: Limits, g: Guard, a: string, used: set<string>, m: nat, ip: string, now: real)
    requires Generous(lim) && Crowded(lim, g, a, used, m, now)
    requires ip != a && ip !in used && Leq(a, ip)
    ensures ip !in g.ips && Crowded(lim, Visited(lim, g, ip, now), a, used + {ip}, m + 1, now)
  {
    EvictsFirst(lim, g, a, now);
    Joined(lim, g, Evict(lim, g.ips, now), a, used, m, ip, now);
  }

  /** All of them visit. */
  function Fill(t: Trace, names: Names, now: real): Trace
    decreases names
  {
    if names.NoMore? then t else Fill(Visits(t, names.ip, now), names.rest, now)
  }

  /** A run at one instant that leaves the table so. */
  ghost predicate Instant(lim: Limits, t: Trace, a: string, used: set<string>, m: nat, now: real) {
    Crowded(lim, Run(lim, t), a, used, m, now) && Monotone(t, now) && Clock(t, now) == now
  }

  lemma OneFills(lim: Limits, t: Trace, a: string, used: set<string>, m: nat, ip: string, now: real, u: Trace)
    requires Generous(lim) && Instant(lim, t, a, used, m, now) && ip != a && ip !in used && Leq(a, ip)
    requires u == Visits(t, ip, now)
    ensures Instant(lim, u, a, used + {ip}, m + 1, now) && Admissions(lim, u, a) == Admissions(lim, t, a)
  {
    OneMore(lim, Run(lim, t), a, used, m, ip, now);
    VisitRun(lim, t, ip, now, a);
    VisitMonotone(t, ip, now, now);
  }

  lemma {:induction false} Fills(lim: Limits, t: Trace, a: string, names: Names, used: set<string>, m: nat,
                                 now: real, u: Trace)
    requires Generous(lim) && Instant(lim, t, a, used, m, now) && AllNew(a, names, used) && u == Fill(t, names, now)
    ensures Instant(lim, u, a, used + All(names), m + Length(names), now)
    ensures Admissions(lim, u, a) == Admissions(lim, t, a)
    decreases names
  {
    if names.Name? {
      var next := Visits(t, names.ip, now);
      OneFills(lim, t, a, used, m, names.ip, now, next);
      Fills(lim, next, a, names.rest, used + {names.ip}, m + 1, now, u);
      assert used + {names.ip} + All(names.rest) == used + All(names);
    } else {
      assert used + All(names) == used;
    }
  }

  /** Rounds of visits, after each of which `a` comes back. */
  datatype Rounds = Done | Round(names: Names, rest: Rounds)

  function Count(rounds: Rounds): nat {
    if rounds.Done? then 0 else 1 + Count(rounds.rest)
  }

  /** Each round has as many new addresses as the table can hold. */
  predicate Enough(a: string, rounds: Rounds, used: set<string>, tracked: nat) {
    rounds.Round? ==>
      && AllNew(a, rounds.names, used) && Length(rounds.names) == tracked
      && Enough(a, rounds.rest, used + All(rounds.names), tracked)
  }

  function Turns(t: Trace, a: string, rounds: Rounds, now: real): Trace
    decreases rounds
  {
    if rounds.Done? then t else Turns(Visits(Fill(t, rounds.names, now), a, now), a, rounds.rest, now)
  }

  function Repeat(n: nat, x: real): seq<real> {
    if n == 0 then [] else [x] + Repeat(n - 1, x)
  }

  lemma RepeatMore(h: seq<real>, n: nat, x: real)
    ensures h + [x] + Repeat(n, x) == h + Repeat(n + 1, x)
  {
    assert h + [x] + Repeat(n, x) == h + ([x] + Repeat(n, x));
  }

  lemma Rejoined(lim: Limits, g: Guard, left: map<string, IpState>, a: string, used: set<string>, now: real)
    requires Idling(lim, g, now) && OnlyFrom(g, a, used) && |left| < lim.tracked && Leq(a, a)
    requires forall k <- left :: k in g.ips && left[k] == g.ips[k]
    ensures Crowded(lim, Guard(left[a := IpState([now], 0, now)], 0), a, used, 0, now)
  {
    AddCount(left, a, IpState([now], 0, now));
  }

  lemma ComesBack(lim: Limits, t: Trace, a: string, used: set<string>, now: real, u: Trace)
    requires Generous(lim) && a !in Run(lim, t).ips && Idling(lim, Run(lim, t), now) && OnlyFrom(Run(lim, t), a, used)
    requires Monotone(t, now) && Clock(t, now) == now && u == Visits(t, a, now)
    ensures Instant(lim, u, a, used, 0, now) && Admissions(lim, u, a) == Admissions(lim, t, a) + [now]
  {
    var g := Run(lim, t);
    EvictsFirst(lim, g, a, now);
    LeqTotal(a, a);
    Rejoined(lim, g, Evict(lim, g.ips, now), a, used, now);
    VisitRun(lim, t, a, now, a);
    VisitMonotone(t, a, now, now);
  }

  lemma OneRound(lim: Limits, t: Trace, a: string, names: Names, used: set<string>, now: real, u: Trace)
    requires Generous(lim) && Instant(lim, t, a, used, 0, now) && AllNew(a, names, used) && Length(names) == lim.tracked
    requires u == Visits(Fill(t, names, now), a, now)
    ensures Instant(lim, u, a, used + All(names), 0, now) && Admissions(lim, u, a) == Admissions(lim, t, a) + [now]
  {
    var full := Fill(t, names, now);
    Fills(lim, t, a, names, used, 0, now, full);
    ComesBack(lim, full, a, used + All(names), now, u);
  }

  /** The rate limit fails without bound under forced eviction, whatever size the table has:
      an address that comes back whenever enough others have been is admitted every time, all
      at one instant. */
  lemma {:induction false} ForcedEvictionExceeds(lim: Limits, t: Trace, a: string, rounds: Rounds, used: set<string>,
                                                 now: real, u: Trace)
    requires Generous(lim) && Instant(lim, t, a, used, 0, now) && Enough(a, rounds, used, lim.tracked)
    requires u == Turns(t, a, rounds, now)
    ensures Monotone(u, now) && Admissions(lim, u, a) == Admissions(lim, t, a) + Repeat(Count(rounds), now)
    decreases rounds
  {
    if rounds.Round? {
      var next := Visits(Fill(t, rounds.names, now), a, now);
      OneRound(lim, t, a, rounds.names, used, now, next);
      ForcedEvictionExceeds(lim, next, a, rounds.rest, used + All(rounds.names), now, u);
      RepeatMore(Admissions(lim, t, a), Count(rounds.rest), now);
    } else {
      assert Admissions(lim, t, a) + [] == Admissions(lim, t, a);
    }
  }

  // --- in closed form ---------------------------------------------------------------------

  function Ones(n: nat): string {
    if n == 0 then "" else "1" + Ones(n - 1)
  }

  lemma {:induction false} OnesLength(n: nat)
    ensures |Ones(n)| == n
  {
    if n > 0 { OnesLength(n - 1); }
  }

  /** m addresses, from the one of length k on. */
  function Longer(k: nat, m: nat): Names
    decreases m
  {
    if m == 0 then NoMore else Name(Ones(k), Longer(k + 1, m - 1))
  }

  lemma {:induction false} LongerNew(k: nat, m: nat, used: set<string>)
    requires k >= 2 && forall s <- used :: |s| < k
    ensures AllNew("1", Longer(k, m), used) && Length(Longer(k, m)) == m
    ensures forall s <- used + All(Longer(k, m)) :: |s| < k + m
    decreases m
  {
    if m > 0 {
      OnesLength(k);
      assert Ones(k) == "1" + Ones(k - 1) && Leq("1", Ones(k));
      LongerNew(k + 1, m - 1, used + {Ones(k)});
    }
  }

  /** n rounds of m addresses. */
  function Crowds(n: nat, k: nat, m: nat): Rounds {
    if n == 0 then Done else Round(Longer(k, m), Crowds(n - 1, k + m, m))
  }

  lemma {:induction false} CrowdsEnough(n: nat, k: nat, m: nat, used: set<string>)
    requires k >= 2 && forall s <- used :: |s| < k
    ensures Enough("1", Crowds(n, k, m), used, m) && Count(Crowds(n, k, m)) == n
    decreases n
  {
    if n > 0 {
      LongerNew(k, m, used);
      CrowdsEnough(n - 1, k + m, m, used + All(Longer(k, m)));
    }
  }

  lemma {:induction false} RepeatIs(n: nat, x: real)
    ensures |Repeat(n, x)| == n && forall i | 0 <= i < n :: Repeat(n, x)[i] == x
    decreases n
  {
    if n > 0 { RepeatIs(n - 1, x); }
  }

  lemma RepeatWithin(h: seq<real>, n: nat, now: real, window: real)
    requires window >= 0.0 && |h| == n && forall i | 0 <= i < n :: h[i] == now
    ensures |Within(h, now, window)| == n
  {
    assert Within(h, now, window) == Range(0, n);
  }

  /** Whatever the limits, some run puts more than any number of admissions of one address into
      one window. */
  lemma NoBoundUnderForce(lim: Limits, n: nat, now: real) returns (t: Trace, a: string)
    requires Generous(lim)
    ensures Monotone(t, now) && |Within(Admissions(lim, t, a), now, lim.window)| > n
  {
    a := "1";
    var first, rounds := Visits(Empty, a, now), Crowds(n, 2, lim.tracked);
    ComesBack(lim, Empty, a, {}, now, first);
    CrowdsEnough(n, 2, lim.tracked, {});
    t := Turns(first, a, rounds, now);
    ForcedEvictionExceeds(lim, first, a, rounds, {}, now, t);
    RepeatIs(n, now);
    RepeatWithin(Admissions(lim, t, a), n + 1, now, lim.window);
  }
}
