/** The code's form of the guard: one table changed in place, proved to take the steps of
    `Guards` and to keep the books of `GuardTheorems`. */
module HandshakeGuards {
  import opened Guards
  import opened GuardTheorems

  class HandshakeGuard {
    const limits: Limits
    var ips: map<string, IpState>
    var total: nat
    var rejectedTotal: nat
    var rejectedIp: nat
    var rejectedRate: nat

    ghost function View(): Guard
      reads this
    {
      Guard(ips, total)
    }

    ghost predicate Valid()
      reads this
    {
      Accounted(limits, View())
    }

    constructor (limits: Limits)
      ensures Valid() && View() == Guard(map[], 0) && this.limits == limits
    {
      this.limits := limits;
      ips, total := map[], 0;
      rejectedTotal, rejectedIp, rejectedRate := 0, 0, 0;
    }

    /** The first entry of the sorted idle list. */
    method FindOldest(idle: set<string>) returns (a: string)
      requires idle <= ips.Keys && idle != {}
      ensures a == Oldest(ips, idle)
    {
      a :| a in idle;
      var rest := idle - {a};
      BeforeTotal(ips, a, a);
      while rest != {}
        invariant rest <= idle && a in idle
        invariant forall b <- idle - rest :: Before(ips, a, b)
        decreases rest
      {
        var b :| b in rest;
        rest := rest - {b};
        BeforeTotal(ips, a, b);
        BeforeTotal(ips, b, b);
        if !Before(ips, a, b) {
          forall c | c in idle - rest && c != b ensures Before(ips, b, c) { BeforeTransitive(ips, b, a, c); }
          a := b;
        }
      }
      assert IsOldest(ips, idle, a);
      OldestUnique(ips, idle, a, Oldest(ips, idle));
    }

    /** Removes the first n idle entries, or all of them. */
    method DropOldest(idle: set<string>, n: nat)
      requires idle <= ips.Keys
      modifies this`ips
      ensures ips == old(ips) - FirstIdle(old(ips), idle, n)
    {
      ghost var was := ips;
      ghost var gone: set<string> := {};
      var left, rest := n, idle;
      while left > 0 && rest != {}
        invariant rest <= idle && rest !! gone
        invariant ips == was - gone
        invariant FirstIdle(was, idle, n) == gone + FirstIdle(was, rest, left)
        decreases left
      {
        var a := FindOldest(rest);
        OldestFrame(was, gone, rest);
        ips := ips - {a};
        gone := gone + {a};
        rest, left := rest - {a}, left - 1;
      }
    }

    method EvictIfNeeded(now: real)
      modifies this`ips
      ensures ips == Evict(limits, old(ips), now)
    {
      if |ips| < limits.tracked {
        return;
      }
      var cutoff := now - limits.window;
      ips := ips - StaleIps(ips, cutoff);
      if |ips| < limits.tracked {
        assert ips - {} == ips;
        return;
      }
      var idle := IdleIps(ips);
      DropOldest(idle, Tenth(|idle|));
    }

    method PurgeAttempts(attempts: seq<real>, cutoff: real) returns (left: seq<real>)
      ensures left == Purge(attempts, cutoff)
    {
      left := attempts;
      while left != [] && left[0] < cutoff
        invariant Purge(left, cutoff) == Purge(attempts, cutoff)
        decreases |left|
      {
        left := left[1..];
      }
    }

    method TryAcquire(ip: string, now: real) returns (verdict: Verdict)
      requires Valid()
      modifies this
      ensures Valid()
      ensures (View(), verdict) == Acquire(limits, old(View()), ip, now)
    {
      AcquireAccounted(limits, View(), ip, now);
      var st := See(ip, now);
      if total >= limits.total {
        rejectedTotal := rejectedTotal + 1;
        return TotalFull;
      }
      if st.inflight >= limits.perIp {
        rejectedIp := rejectedIp + 1;
        return IpFull;
      }
      if |st.attempts| >= limits.perWindow {
        rejectedRate := rejectedRate + 1;
        return RateFull;
      }
      ips := ips[ip := st.(attempts := st.attempts + [now], inflight := st.inflight + 1)];
      total := total + 1;
      return Admitted;
    }

    /** The entry that judges `ip`, entered if need be, purged and seen now. */
    method See(ip: string, now: real) returns (st: IpState)
      modifies this`ips
      ensures ips == Seen(limits, old(ips), ip, now) && ip in ips && st == ips[ip]
    {
      if ip !in ips {
        EvictIfNeeded(now);
        ips := ips[ip := IpState([], 0, 0.0)];
      }
      var attempts := PurgeAttempts(ips[ip].attempts, now - limits.window);
      st := IpState(attempts, ips[ip].inflight, now);
      ips := ips[ip := st];
    }

    method ReleaseSlot(ip: string)
      requires Valid()
      modifies this
      ensures Valid()
      ensures View() == Release(old(View()), ip)
    {
      ReleaseAccounted(limits, View(), ip);
      if ip !in ips {
        return;
      }
      var st := ips[ip];
      if st.inflight > 0 {
        st := st.(inflight := st.inflight - 1);
        ips := ips[ip := st];
        total := if total > 0 then total - 1 else 0;
      }
      if st.inflight == 0 && st.attempts == [] {
        ips := ips - {ip};
      }
      assert View() == Release(old(View()), ip);
    }
  }

  /** Removing other entries does not change which of `rest` is oldest. */
  lemma OldestFrame(was: map<string, IpState>, gone: set<string>, rest: set<string>)
    requires rest <= was.Keys && rest !! gone && rest != {}
    ensures rest <= (was - gone).Keys && Oldest(was - gone, rest) == Oldest(was, rest)
  {
    var a := Oldest(was - gone, rest);
    assert forall b <- rest :: Before(was - gone, a, b) ==> Before(was, a, b);
    assert IsOldest(was, rest, a);
    OldestUnique(was, rest, a, Oldest(was, rest));
  }
}
