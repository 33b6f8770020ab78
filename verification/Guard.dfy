/** A total order on strings, and the least-recently-seen order of the guard's table. */
module Order {

  predicate Leq(a: string, b: string) {
    a == [] || (b != [] && (a[0] < b[0] || (a[0] == b[0] && Leq(a[1..], b[1..]))))
  }

  lemma {:induction false} LeqTotal(a: string, b: string)
    ensures Leq(a, b) || Leq(b, a)
    decreases |a|
  {
    if a != [] && b != [] && a[0] == b[0] { LeqTotal(a[1..], b[1..]); }
  }

  lemma {:induction false} LeqAntisymmetric(a: string, b: string)
    requires Leq(a, b) && Leq(b, a)
    ensures a == b
    decreases |a|
  {
    if a != [] {
      LeqAntisymmetric(a[1..], b[1..]);
      assert a == [a[0]] + a[1..] && b == [b[0]] + b[1..];
    }
  }

  lemma {:induction false} LeqTransitive(a: string, b: string, c: string)
    requires Leq(a, b) && Leq(b, c)
    ensures Leq(a, c)
    decreases |a|
  {
    if a != [] && a[0] == b[0] == c[0] { LeqTransitive(a[1..], b[1..], c[1..]); }
  }
}

/** The handshake admission guard of memnode/ratelimit.py, on values. */
module Guards {
  import opened Order

  datatype IpState = IpState(attempts: seq<real>, inflight: nat, lastSeen: real)

  datatype Limits = Limits(perWindow: nat, window: real, perIp: nat, total: nat, tracked: nat)

  datatype Guard = Guard(ips: map<string, IpState>, total: nat)

  datatype Verdict = Admitted | TotalFull | IpFull | RateFull

  function Purge(attempts: seq<real>, cutoff: real): seq<real> {
    if attempts != [] && attempts[0] < cutoff then Purge(attempts[1..], cutoff) else attempts
  }

  // --- eviction -------------------------------------------------------------------------

  function StaleIps(ips: map<string, IpState>, cutoff: real): set<string> {
    set ip | ip in ips && ips[ip].inflight == 0 && ips[ip].lastSeen < cutoff
  }

  function IdleIps(ips: map<string, IpState>): set<string> {
    set ip | ip in ips && ips[ip].inflight == 0
  }

  /** The order of `sorted((last_seen, ip))`. */
  predicate Before(ips: map<string, IpState>, a: string, b: string)
    requires a in ips && b in ips
  {
    ips[a].lastSeen < ips[b].lastSeen || (ips[a].lastSeen == ips[b].lastSeen && Leq(a, b))
  }

  ghost predicate IsOldest(ips: map<string, IpState>, idle: set<string>, a: string)
    requires idle <= ips.Keys
  {
    a in idle && forall b <- idle :: Before(ips, a, b)
  }

  lemma BeforeTotal(ips: map<string, IpState>, a: string, b: string)
    requires a in ips && b in ips
    ensures Before(ips, a, b) || Before(ips, b, a)
  {
    LeqTotal(a, b);
  }

  lemma BeforeTransitive(ips: map<string, IpState>, a: string, b: string, c: string)
    requires a in ips && b in ips && c in ips && Before(ips, a, b) && Before(ips, b, c)
    ensures Before(ips, a, c)
  {
    if Leq(a, b) && Leq(b, c) { LeqTransitive(a, b, c); }
  }

  lemma {:induction false} OldestExists(ips: map<string, IpState>, idle: set<string>) returns (a: string)
    requires idle <= ips.Keys && idle != {}
    ensures IsOldest(ips, idle, a)
    decreases idle
  {
    var c :| c in idle;
    var rest := idle - {c};
    assert idle == rest + {c};
    BeforeTotal(ips, c, c);
    if rest == {} {
      return c;
    }
    var d := OldestExists(ips, rest);
    BeforeTotal(ips, c, d);
    a := if Before(ips, c, d) then c else d;
    forall b <- idle ensures Before(ips, a, b) {
      if b in rest {
        assert Before(ips, d, b);
        if a == c { BeforeTransitive(ips, c, d, b); }
      }
    }
  }

  lemma HasOldest(ips: map<string, IpState>, idle: set<string>)
    requires idle <= ips.Keys && idle != {}
    ensures exists a :: IsOldest(ips, idle, a)
  {
    var a := OldestExists(ips, idle);
  }

  lemma OldestUnique(ips: map<string, IpState>, idle: set<string>, a: string, b: string)
    requires idle <= ips.Keys && IsOldest(ips, idle, a) && IsOldest(ips, idle, b)
    ensures a == b
  {
    assert Before(ips, a, b) && Before(ips, b, a);
    LeqAntisymmetric(a, b);
  }

  ghost function Oldest(ips: map<string, IpState>, idle: set<string>): (a: string)
    requires idle <= ips.Keys && idle != {}
    ensures IsOldest(ips, idle, a)
  {
    HasOldest(ips, idle);
    var a :| IsOldest(ips, idle, a); a
  }

  /** The first n of the idle entries in that order. */
  ghost function FirstIdle(ips: map<string, IpState>, idle: set<string>, n: nat): (r: set<string>)
    requires idle <= ips.Keys
    ensures r <= idle
    ensures n >= 1 && idle != {} ==> r != {}
    decreases n
  {
    if n == 0 || idle == {} then {}
    else
      var a := Oldest(ips, idle);
      {a} + FirstIdle(ips, idle - {a}, n - 1)
  }

  function Tenth(count: nat): nat {
    if count / 10 > 1 then count / 10 else 1
  }

  function DropStale(lim: Limits, ips: map<string, IpState>, now: real): map<string, IpState> {
    ips - StaleIps(ips, now - lim.window)
  }

  /** What a table that is still full drops, although it may still matter. */
  ghost function Overflow(lim: Limits, kept: map<string, IpState>): (r: set<string>)
    ensures r <= IdleIps(kept)
  {
    if |kept| < lim.tracked then {} else FirstIdle(kept, IdleIps(kept), Tenth(|IdleIps(kept)|))
  }

  ghost function Evict(lim: Limits, ips: map<string, IpState>, now: real): map<string, IpState> {
    if |ips| < lim.tracked then ips
    else
      var kept := DropStale(lim, ips, now);
      kept - Overflow(lim, kept)
  }

  /** `ip` loses its entry to the forced part of eviction. */
  ghost predicate Forced(lim: Limits, ips: map<string, IpState>, now: real, ip: string) {
    |ips| >= lim.tracked && ip in Overflow(lim, DropStale(lim, ips, now))
  }

  // --- operations ---------------------------------------------------------------------

  /** The table once `ip` has an entry. */
  ghost function Entered(lim: Limits, ips: map<string, IpState>, ip: string, now: real): (r: map<string, IpState>)
    ensures ip in r
  {
    if ip in ips then ips else Evict(lim, ips, now)[ip := IpState([], 0, 0.0)]
  }

  /** The same with that entry seen now and purged. */
  ghost function Seen(lim: Limits, ips: map<string, IpState>, ip: string, now: real): map<string, IpState> {
    var table := Entered(lim, ips, ip, now);
    table[ip := IpState(Purge(table[ip].attempts, now - lim.window), table[ip].inflight, now)]
  }

  ghost function Judge(lim: Limits, total: nat, st: IpState): Verdict {
    if total >= lim.total then TotalFull
    else if st.inflight >= lim.perIp then IpFull
    else if |st.attempts| >= lim.perWindow then RateFull
    else Admitted
  }

  ghost function Acquire(lim: Limits, g: Guard, ip: string, now: real): (Guard, Verdict) {
    var table := Seen(lim, g.ips, ip, now);
    var st := table[ip];
    var verdict := Judge(lim, g.total, st);
    if verdict == Admitted
    then (Guard(table[ip := st.(attempts := st.attempts + [now], inflight := st.inflight + 1)], g.total + 1), verdict)
    else (Guard(table, g.total), verdict)
  }

  ghost function Release(g: Guard, ip: string): Guard {
    if ip !in g.ips then g
    else
      var st := g.ips[ip];
      var left := if st.inflight > 0 then st.inflight - 1 else 0;
      var total := if st.inflight > 0 && g.total > 0 then g.total - 1 else g.total;
      if left == 0 && st.attempts == [] then Guard(g.ips - {ip}, total)
      else Guard(g.ips[ip := st.(inflight := left)], total)
  }

  datatype Event = Come(ip: string, now: real) | Go(ip: string)

  datatype Trace = Empty | Then(before: Trace, event: Event)

  ghost function Run(lim: Limits, t: Trace): Guard {
    match t
    case Empty => Guard(map[], 0)
    case Then(before, Come(ip, now)) => Acquire(lim, Run(lim, before), ip, now).0
    case Then(before, Go(ip)) => Release(Run(lim, before), ip)
  }
}
