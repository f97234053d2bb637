/**
 The connection throttle: a pruned sliding window with bans, against a specification that
 never forgets an attempt or a ban.
 */
module Throttle {
  datatype Limits = Limits(throttle: nat, considered: nat, banTime: nat)

  /** `duration_since` saturates at zero. */
  function Age(now: nat, t: nat): nat {
    if t <= now then now - t else 0
  }

  /** The attempts still inside the window at `now`. */
  function Recent(lim: Limits, ts: seq<nat>, now: nat): seq<nat> {
    if ts == [] then []
    else
      var front := Recent(lim, ts[..|ts| - 1], now);
      var t := ts[|ts| - 1];
      if Age(now, t) < lim.considered then front + [t] else front
  }

  // ----- what the extension keeps -----

  datatype Inner = Inner(connections: map<string, seq<nat>>, banned: map<string, nat>)

  function AttemptsOf(st: Inner, ip: string): seq<nat> {
    if ip in st.connections then st.connections[ip] else []
  }

  predicate IsBanned(lim: Limits, st: Inner, ip: string, now: nat) {
    ip in st.banned && Age(now, st.banned[ip]) < lim.banTime
  }

  function ShouldBlock(lim: Limits, st: Inner, ip: string, now: nat): (Inner, bool) {
    if IsBanned(lim, st, ip, now) then (st, true)
    else
      var entry := Recent(lim, AttemptsOf(st, ip) + [now], now);
      var st' := Inner(st.connections[ip := entry], st.banned - {ip});
      if |entry| > lim.throttle then (st'.(banned := st'.banned[ip := now]), true)
      else (st', false)
  }

  class Throttle {
    const lim: Limits
    var connections: map<string, seq<nat>>
    var banned: map<string, nat>

    ghost function View(): Inner
      reads this
    {
      Inner(connections, banned)
    }

    constructor (lim: Limits)
      ensures this.lim == lim && View() == Inner(map[], map[])
    {
      this.lim := lim;
      connections, banned := map[], map[];
    }

    method Retain(ts: seq<nat>, now: nat) returns (kept: seq<nat>)
      ensures kept == Recent(lim, ts, now)
    {
      kept := [];
      for k := 0 to |ts|
        invariant kept == Recent(lim, ts[..k], now)
      {
        assert ts[..k + 1][..k] == ts[..k];
        if Age(now, ts[k]) < lim.considered {
          kept := kept + [ts[k]];
        }
      }
      assert ts[..|ts|] == ts;
    }

    /** Adds the attempt to the address's window and counts what is in it. */
    method Record(ip: string, now: nat) returns (count: nat)
      modifies `connections
      ensures var entry := Recent(lim, AttemptsOf(old(View()), ip) + [now], now);
        connections == old(connections)[ip := entry] && count == |entry|
    {
      var entry := if ip in connections then connections[ip] else [];
      entry := Retain(entry + [now], now);
      connections := connections[ip := entry];
      count := |entry|;
    }

    method Block(ip: string, now: nat) returns (blocked: bool)
      modifies this
      ensures (View(), blocked) == ShouldBlock(lim, old(View()), ip, now)
    {
      if ip in banned {
        if Age(now, banned[ip]) < lim.banTime {
          return true;
        }
        banned := banned - {ip};
      }
      assert banned == old(banned) - {ip};
      var count := Record(ip, now);
      if count > lim.throttle {
        banned := banned[ip := now];
        return true;
      }
      return false;
    }
  }

  // ----- the specification that keeps everything -----

  /** Turned: refused under a ban, not recorded. Banned: recorded, and starts a ban. */
  datatype Verdict = Turned | Admitted | Banned

  datatype Entry = Entry(ip: string, at: nat, verdict: Verdict)

  datatype Call = Call(ip: string, at: nat)

  /** All recorded attempts of one address, ever. */
  function Recorded(h: seq<Entry>, ip: string): seq<nat> {
    if h == [] then []
    else
      var front := Recorded(h[..|h| - 1], ip);
      var e := h[|h| - 1];
      if e.ip == ip && !e.verdict.Turned? then front + [e.at] else front
  }

  predicate UnderBan(lim: Limits, h: seq<Entry>, ip: string, now: nat) {
    exists i | 0 <= i < |h| ::
      h[i].ip == ip && h[i].verdict.Banned? && Age(now, h[i].at) < lim.banTime
  }

  function Judge(lim: Limits, h: seq<Entry>, c: Call): Verdict {
    if UnderBan(lim, h, c.ip, c.at) then Turned
    else if |Recent(lim, Recorded(h, c.ip) + [c.at], c.at)| > lim.throttle then Banned
    else Admitted
  }

  function History(lim: Limits, calls: seq<Call>): seq<Entry> {
    if calls == [] then []
    else
      var h := History(lim, calls[..|calls| - 1]);
      var c := calls[|calls| - 1];
      h + [Entry(c.ip, c.at, Judge(lim, h, c))]
  }

  predicate InOrder(calls: seq<Call>) {
    forall i, j | 0 <= i < j < |calls| :: calls[i].at <= calls[j].at
  }

  function StateAfter(lim: Limits, calls: seq<Call>): Inner {
    if calls == [] then Inner(map[], map[])
    else
      var c := calls[|calls| - 1];
      ShouldBlock(lim, StateAfter(lim, calls[..|calls| - 1]), c.ip, c.at).0
  }

  // ----- pruning loses nothing -----

  lemma {:induction false} RecentConcat(lim: Limits, a: seq<nat>, b: seq<nat>, now: nat)
    ensures Recent(lim, a + b, now) == Recent(lim, a, now) + Recent(lim, b, now)
    decreases |b|
  {
    if b == [] {
      assert a + b == a;
    } else {
      assert (a + b)[..|a + b| - 1] == a + b[..|b| - 1];
      RecentConcat(lim, a, b[..|b| - 1], now);
    }
  }

  /** Pruning at an earlier time does not change a later window. */
  lemma {:induction false} PruningIsInvisible(lim: Limits, ts: seq<nat>, earlier: nat, now: nat)
    requires earlier <= now
    ensures Recent(lim, Recent(lim, ts, earlier), now) == Recent(lim, ts, now)
    decreases |ts|
  {
    if ts != [] {
      var front, t := ts[..|ts| - 1], ts[|ts| - 1];
      PruningIsInvisible(lim, front, earlier, now);
      if Age(earlier, t) < lim.considered {
        RecentConcat(lim, Recent(lim, front, earlier), [t], now);
        assert [t][..0] == [];
      }
    }
  }

  /** The pruned state and the full history answer alike for `ip` at `now`. */
  predicate AgreesAt(lim: Limits, st: Inner, h: seq<Entry>, ip: string, now: nat) {
    && Recent(lim, AttemptsOf(st, ip), now) == Recent(lim, Recorded(h, ip), now)
    && (IsBanned(lim, st, ip, now) <==> UnderBan(lim, h, ip, now))
  }

  ghost predicate Agrees(lim: Limits, st: Inner, h: seq<Entry>, t: nat) {
    forall ip: string, now: nat | t <= now :: AgreesAt(lim, st, h, ip, now)
  }

  lemma UnderBanGrows(lim: Limits, h: seq<Entry>, e: Entry, ip: string, now: nat)
    ensures UnderBan(lim, h + [e], ip, now) <==>
      UnderBan(lim, h, ip, now) || (e.ip == ip && e.verdict.Banned? && Age(now, e.at) < lim.banTime)
  {
    var h' := h + [e];
    if UnderBan(lim, h, ip, now) {
      var i :| 0 <= i < |h| && h[i].ip == ip && h[i].verdict.Banned? && Age(now, h[i].at) < lim.banTime;
      assert h'[i] == h[i];
    }
    assert h'[|h|] == e;
    assert forall i | 0 <= i < |h| :: h'[i] == h[i];
  }

  lemma BansExpireForGood(lim: Limits, h: seq<Entry>, ip: string, earlier: nat, now: nat)
    requires earlier <= now && UnderBan(lim, h, ip, now)
    ensures UnderBan(lim, h, ip, earlier)
  {
    var i :| 0 <= i < |h| && h[i].ip == ip && h[i].verdict.Banned? && Age(now, h[i].at) < lim.banTime;
    assert Age(earlier, h[i].at) < lim.banTime;
  }

  lemma RecordedGrows(h: seq<Entry>, e: Entry, ip: string)
    ensures Recorded(h + [e], ip) ==
      if e.ip == ip && !e.verdict.Turned? then Recorded(h, ip) + [e.at] else Recorded(h, ip)
  {
    assert (h + [e])[..|h|] == h;
  }

  /** Both sides count the same attempts in the window of this call. */
  lemma SameCount(lim: Limits, st: Inner, h: seq<Entry>, c: Call)
    requires AgreesAt(lim, st, h, c.ip, c.at)
    ensures Recent(lim, AttemptsOf(st, c.ip) + [c.at], c.at) == Recent(lim, Recorded(h, c.ip) + [c.at], c.at)
  {
    RecentConcat(lim, AttemptsOf(st, c.ip), [c.at], c.at);
    RecentConcat(lim, Recorded(h, c.ip), [c.at], c.at);
  }

  /** A refused attempt leaves no trace. */
  lemma TurnedCallAgrees(lim: Limits, st: Inner, h: seq<Entry>, c: Call, ip: string, now: nat)
    requires AgreesAt(lim, st, h, c.ip, c.at) && AgreesAt(lim, st, h, ip, now)
    requires UnderBan(lim, h, c.ip, c.at)
    ensures AgreesAt(lim, ShouldBlock(lim, st, c.ip, c.at).0,
                     h + [Entry(c.ip, c.at, Judge(lim, h, c))], ip, now)
  {
    var e := Entry(c.ip, c.at, Turned);
    assert ShouldBlock(lim, st, c.ip, c.at).0 == st;
    RecordedGrows(h, e, ip);
    UnderBanGrows(lim, h, e, ip, now);
  }

  lemma OthersKeepTheirEntries(lim: Limits, st: Inner, ip: string, at: nat, other: string, now: nat)
    requires other != ip
    ensures var st' := ShouldBlock(lim, st, ip, at).0;
      AttemptsOf(st', other) == AttemptsOf(st, other)
      && IsBanned(lim, st', other, now) == IsBanned(lim, st, other, now)
  {
  }

  /** An attempt of another address changes nothing for `ip`. */
  lemma UnrelatedCallAgrees(lim: Limits, st: Inner, h: seq<Entry>, c: Call, ip: string, now: nat)
    requires AgreesAt(lim, st, h, ip, now) && ip != c.ip
    ensures AgreesAt(lim, ShouldBlock(lim, st, c.ip, c.at).0,
                     h + [Entry(c.ip, c.at, Judge(lim, h, c))], ip, now)
  {
    var e := Entry(c.ip, c.at, Judge(lim, h, c));
    OthersKeepTheirEntries(lim, st, c.ip, c.at, ip, now);
    RecordedGrows(h, e, ip);
    UnderBanGrows(lim, h, e, ip, now);
  }

  /** A recorded attempt enters both windows, and starts a ban on both sides or on neither. */
  lemma RecordedCallAgrees(lim: Limits, st: Inner, h: seq<Entry>, c: Call, now: nat)
    requires AgreesAt(lim, st, h, c.ip, c.at) && AgreesAt(lim, st, h, c.ip, now)
    requires c.at <= now && !UnderBan(lim, h, c.ip, c.at)
    ensures AgreesAt(lim, ShouldBlock(lim, st, c.ip, c.at).0,
                     h + [Entry(c.ip, c.at, Judge(lim, h, c))], c.ip, now)
  {
    var ip, e := c.ip, Entry(c.ip, c.at, Judge(lim, h, c));
    var ts := AttemptsOf(st, ip) + [c.at];
    SameCount(lim, st, h, c);
    RecordedGrows(h, e, ip);
    PruningIsInvisible(lim, ts, c.at, now);
    RecentConcat(lim, AttemptsOf(st, ip), [c.at], now);
    RecentConcat(lim, Recorded(h, ip), [c.at], now);
    UnderBanGrows(lim, h, e, ip, now);
    assert !UnderBan(lim, h, ip, now) by {
      if UnderBan(lim, h, ip, now) {
        BansExpireForGood(lim, h, ip, c.at, now);
      }
    }
    assert AttemptsOf(ShouldBlock(lim, st, ip, c.at).0, ip) == Recent(lim, ts, c.at);
  }

  lemma StepAgrees(lim: Limits, st: Inner, h: seq<Entry>, t: nat, c: Call)
    requires Agrees(lim, st, h, t) && t <= c.at
    ensures var (st', blocked) := ShouldBlock(lim, st, c.ip, c.at);
      && (blocked <==> !Judge(lim, h, c).Admitted?)
      && Agrees(lim, st', h + [Entry(c.ip, c.at, Judge(lim, h, c))], c.at)
  {
    assert AgreesAt(lim, st, h, c.ip, c.at);
    SameCount(lim, st, h, c);
    forall ip: string, now: nat | c.at <= now
      ensures AgreesAt(lim, ShouldBlock(lim, st, c.ip, c.at).0,
                       h + [Entry(c.ip, c.at, Judge(lim, h, c))], ip, now)
    {
      assert AgreesAt(lim, st, h, ip, now);
      if ip != c.ip {
        UnrelatedCallAgrees(lim, st, h, c, ip, now);
      } else if UnderBan(lim, h, c.ip, c.at) {
        TurnedCallAgrees(lim, st, h, c, ip, now);
      } else {
        RecordedCallAgrees(lim, st, h, c, now);
      }
    }
  }

  lemma {:induction false} RunAgrees(lim: Limits, calls: seq<Call>)
    requires InOrder(calls)
    ensures Agrees(lim, StateAfter(lim, calls), History(lim, calls),
                   if calls == [] then 0 else calls[|calls| - 1].at)
    decreases |calls|
  {
    if calls != [] {
      var front, c := calls[..|calls| - 1], calls[|calls| - 1];
      assert InOrder(front);
      RunAgrees(lim, front);
      StepAgrees(lim, StateAfter(lim, front), History(lim, front),
                 if front == [] then 0 else front[|front| - 1].at, c);
    }
  }

  /**
   The pruned window is exact: after any call history in time order, the next call is blocked
   if and only if the specification that kept every attempt and every ban blocks it.
   */
  lemma PrunedWindowIsExact(lim: Limits, calls: seq<Call>, c: Call)
    requires InOrder(calls + [c])
    ensures ShouldBlock(lim, StateAfter(lim, calls), c.ip, c.at).1 <==>
            !Judge(lim, History(lim, calls), c).Admitted?
  {
    assert forall i | 0 <= i < |calls| :: (calls + [c])[i] == calls[i];
    assert (calls + [c])[|calls|] == c;
    RunAgrees(lim, calls);
    StepAgrees(lim, StateAfter(lim, calls), History(lim, calls),
               if calls == [] then 0 else calls[|calls| - 1].at, c);
  }

  // ----- what the verdict is, said from the history alone -----

  /** The recorded attempts of `ip` whose window has not passed at `now`, by their place in `h`. */
  function InWindow(lim: Limits, h: seq<Entry>, ip: string, now: nat): set<nat> {
    set i: nat | i < |h| && h[i].ip == ip && !h[i].verdict.Turned? && now < h[i].at + lim.considered
  }

  lemma WindowGrows(lim: Limits, front: seq<Entry>, e: Entry, ip: string, now: nat)
    ensures |InWindow(lim, front + [e], ip, now)| == |InWindow(lim, front, ip, now)| +
      if e.ip == ip && !e.verdict.Turned? && now < e.at + lim.considered then 1 else 0
  {
    var h := front + [e];
    var here := e.ip == ip && !e.verdict.Turned? && now < e.at + lim.considered;
    assert forall i | 0 <= i < |front| :: h[i] == front[i];
    assert InWindow(lim, h, ip, now) == InWindow(lim, front, ip, now) + if here then {|front|} else {};
  }

  lemma RecentGrows(lim: Limits, ts: seq<nat>, t: nat, now: nat)
    requires t <= now
    ensures |Recent(lim, ts + [t], now)| ==
      |Recent(lim, ts, now)| + if now < t + lim.considered then 1 else 0
  {
    assert (ts + [t])[..|ts|] == ts;
  }

  lemma {:induction false} WindowIsCounted(lim: Limits, h: seq<Entry>, ip: string, now: nat)
    requires NotAfter(h, now)
    ensures |Recent(lim, Recorded(h, ip), now)| == |InWindow(lim, h, ip, now)|
    decreases |h|
  {
    if h == [] {
      assert InWindow(lim, h, ip, now) == {};
    } else {
      var front, e := h[..|h| - 1], h[|h| - 1];
      assert NotAfter(front, now) && h == front + [e] && e.at <= now;
      WindowIsCounted(lim, front, ip, now);
      WindowGrows(lim, front, e, ip, now);
      RecordedGrows(front, e, ip);
      RecentGrows(lim, Recorded(front, ip), e.at, now);
    }
  }

  /** A ban of the address that has not run out. */
  predicate BanRuns(lim: Limits, h: seq<Entry>, ip: string, now: nat) {
    exists i | 0 <= i < |h| :: h[i].ip == ip && h[i].verdict.Banned? && now < h[i].at + lim.banTime
  }

  lemma BanIsABan(lim: Limits, h: seq<Entry>, ip: string, now: nat)
    requires NotAfter(h, now)
    ensures UnderBan(lim, h, ip, now) <==> BanRuns(lim, h, ip, now)
  {
    if BanRuns(lim, h, ip, now) {
      var i :| 0 <= i < |h| && h[i].ip == ip && h[i].verdict.Banned? && now < h[i].at + lim.banTime;
      assert Age(now, h[i].at) < lim.banTime;
    }
  }

  /**
   The sliding window, from the history alone. After any calls in time order: the next call is
   turned away exactly while a ban of its address runs; else it starts a ban exactly if, itself
   included, more than `throttle` recorded attempts of its address lie less than `considered`
   back; else it is admitted. The pruned state blocks it in the first two cases and only in those.
   */
  lemma WindowSlides(lim: Limits, calls: seq<Call>, c: Call)
    requires InOrder(calls + [c])
    ensures var h := History(lim, calls);
      var count := |InWindow(lim, h, c.ip, c.at)| + if 0 < lim.considered then 1 else 0;
      var verdict := if BanRuns(lim, h, c.ip, c.at) then Turned
                     else if count > lim.throttle then Banned else Admitted;
      && History(lim, calls + [c]) == h + [Entry(c.ip, c.at, verdict)]
      && (ShouldBlock(lim, StateAfter(lim, calls), c.ip, c.at).1 <==> verdict != Admitted)
  {
    var h := History(lim, calls);
    assert forall i | 0 <= i < |calls| :: (calls + [c])[i] == calls[i];
    assert (calls + [c])[|calls|] == c && (calls + [c])[..|calls|] == calls;
    assert NotAfter(h, c.at) by {
      HistoryIsInOrder(lim, calls);
    }
    PrunedWindowIsExact(lim, calls, c);
    BanIsABan(lim, h, c.ip, c.at);
    WindowIsCounted(lim, h, c.ip, c.at);
    RecentGrows(lim, Recorded(h, c.ip), c.at, c.at);
  }

  // ----- the rate limit -----

  /** How many attempts of `ip` were let in at times in `[from, from + considered)`. */
  function AdmittedIn(lim: Limits, h: seq<Entry>, ip: string, from: nat): nat {
    if h == [] then 0
    else
      var e := h[|h| - 1];
      AdmittedIn(lim, h[..|h| - 1], ip, from) +
      if e.ip == ip && e.verdict.Admitted? && from <= e.at < from + lim.considered then 1 else 0
  }

  predicate NotAfter(h: seq<Entry>, now: nat) {
    forall i | 0 <= i < |h| :: h[i].at <= now
  }

  /** Whatever a window let in by `now` is still counted at `now`, if `now` is in the window. */
  lemma {:induction false} AdmittedAreCounted(lim: Limits, h: seq<Entry>, ip: string, from: nat, now: nat)
    requires NotAfter(h, now) && now < from + lim.considered
    ensures AdmittedIn(lim, h, ip, from) <= |Recent(lim, Recorded(h, ip), now)|
    decreases |h|
  {
    if h != [] {
      var front, e := h[..|h| - 1], h[|h| - 1];
      assert NotAfter(front, now);
      AdmittedAreCounted(lim, front, ip, from, now);
      if e.ip == ip && !e.verdict.Turned? {
        var r := Recorded(front, ip);
        assert Recorded(h, ip) == r + [e.at] && (r + [e.at])[..|r|] == r;
        assert h[|h| - 1].at <= now;
      }
    }
  }

  lemma {:induction false} HistoryIsInOrder(lim: Limits, calls: seq<Call>)
    requires InOrder(calls)
    ensures |History(lim, calls)| == |calls|
    ensures calls != [] ==> NotAfter(History(lim, calls), calls[|calls| - 1].at)
    decreases |calls|
  {
    if calls != [] {
      var front, c := calls[..|calls| - 1], calls[|calls| - 1];
      assert InOrder(front);
      HistoryIsInOrder(lim, front);
      var h, h' := History(lim, front), History(lim, calls);
      assert h' == h + [Entry(c.ip, c.at, Judge(lim, h, c))];
      assert front != [] ==> front[|front| - 1] == calls[|calls| - 2];
    }
  }

  lemma {:induction false} HistoryAdmitsFew(lim: Limits, calls: seq<Call>, ip: string, from: nat)
    requires InOrder(calls)
    ensures AdmittedIn(lim, History(lim, calls), ip, from) <= lim.throttle
    decreases |calls|
  {
    if calls != [] {
      var front, c := calls[..|calls| - 1], calls[|calls| - 1];
      HistoryAdmitsFew(lim, front, ip, from);
      var h, h' := History(lim, front), History(lim, calls);
      assert h'[..|h|] == h;
      var e := h'[|h|];
      if e.ip == ip && e.verdict.Admitted? && from <= e.at < from + lim.considered {
        HistoryIsInOrder(lim, calls);
        AdmittedAreCounted(lim, h', ip, from, c.at);
        assert Recorded(h', ip) == Recorded(h, ip) + [c.at];
      }
    }
  }

  /** How many calls of `ip` in `[from, from + considered)` the pruned state let in. */
  function LetIn(lim: Limits, calls: seq<Call>, ip: string, from: nat): nat {
    if calls == [] then 0
    else
      var front, c := calls[..|calls| - 1], calls[|calls| - 1];
      LetIn(lim, front, ip, from) +
      if c.ip == ip && from <= c.at < from + lim.considered
         && !ShouldBlock(lim, StateAfter(lim, front), c.ip, c.at).1 then 1 else 0
  }

  lemma {:induction false} LetInIsAdmitted(lim: Limits, calls: seq<Call>, ip: string, from: nat)
    requires InOrder(calls)
    ensures LetIn(lim, calls, ip, from) == AdmittedIn(lim, History(lim, calls), ip, from)
    decreases |calls|
  {
    if calls != [] {
      var front, c := calls[..|calls| - 1], calls[|calls| - 1];
      assert calls == front + [c];
      LetInIsAdmitted(lim, front, ip, from);
      PrunedWindowIsExact(lim, front, c);
      var h := History(lim, front);
      assert History(lim, calls)[..|h|] == h;
    }
  }

  /**
   The rate limit: over any call history in time order, any window of length `considered`
   lets in at most `throttle` attempts of one address, although old attempts are forgotten.
   */
  lemma AtMostThrottlePerWindow(lim: Limits, calls: seq<Call>, ip: string, from: nat)
    requires InOrder(calls)
    ensures LetIn(lim, calls, ip, from) <= lim.throttle
  {
    LetInIsAdmitted(lim, calls, ip, from);
    HistoryAdmitsFew(lim, calls, ip, from);
  }
}
