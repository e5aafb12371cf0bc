/** IP addresses and their canonical form (section 2.5.5.2 of RFC 4291). */
module Addresses {
  import opened Prelude

  type u128 = n: nat | n < U64_LIMIT * U64_LIMIT

  datatype IpAddr = V4(bits: u32) | V6(wide: u128)

  /** ::ffff:a.b.c.d is the IPv4-mapped form of a.b.c.d. */
  function Mapped(v4: u32): IpAddr {
    V6(0xffff * U32_LIMIT + v4)
  }

  function Canonical(ip: IpAddr): IpAddr {
    match ip
    case V6(n) => if n / U32_LIMIT == 0xffff then V4(n % U32_LIMIT) else ip
    case V4(_) => ip
  }

  /** Canonicalisation identifies an IPv4 address with its mapped form and nothing else. */
  lemma CanonicalIdentifies(a: IpAddr, b: IpAddr)
    ensures Canonical(a) == Canonical(b) <==>
            a == b || (a.V4? && b == Mapped(a.bits)) || (b.V4? && a == Mapped(b.bits))
  {
  }

  const LOCALHOST_V4: IpAddr := V4(0x7f00_0001)
  const LOCALHOST_V6: IpAddr := V6(1)

  predicate IsAllowlisted(ip: IpAddr) {
    ip == LOCALHOST_V4 || ip == LOCALHOST_V6
  }

  /** 127.0.0.1, ::ffff:127.0.0.1 and ::1 are exempt, and no other address is. */
  lemma ExemptIff(a: IpAddr)
    ensures IsAllowlisted(Canonical(a)) <==> a == V4(0x7f00_0001) || a == V6(0xffff_7f00_0001) || a == V6(1)
    ensures Mapped(0x7f00_0001) == V6(0xffff_7f00_0001)
  {
    CanonicalIdentifies(a, V4(0x7f00_0001));
    CanonicalIdentifies(a, V6(1));
  }
}

/** What the admission limiter should answer, from the history of calls alone. */
module GuardSpec {
  import opened Prelude
  import opened Addresses

  const FLOOD_WINDOW: int := 10 * SECOND
  const MAX_CONNECTIONS_PER_WINDOW: nat := 30
  const BAN_DURATION: int := 10 * 60 * SECOND
  const SWEEP_INTERVAL: int := 60 * SECOND

  datatype Verdict = Allowlisted | Banned | Flooded | Admitted

  /** A call for a canonical address, and its verdict. */
  datatype Call = Call(ip: IpAddr, at: Instant, verdict: Verdict)

  predicate Admits(c: Call, ip: IpAddr) { c.ip == ip && c.verdict == Admitted }

  /** Connections of an address admitted in the closed interval [from, to]. */
  function Count(h: seq<Call>, ip: IpAddr, from: Instant, to: Instant): nat {
    if h == [] then 0
    else Count(Front(h), ip, from, to) + if Admits(Last(h), ip) && from <= Last(h).at <= to then 1 else 0
  }

  function LastFlood(h: seq<Call>, ip: IpAddr): Option<Instant> {
    if h == [] then None
    else if Last(h).ip == ip && Last(h).verdict == Flooded then Some(Last(h).at)
    else LastFlood(Front(h), ip)
  }

  function Judge(h: seq<Call>, ip: IpAddr, now: Instant): Verdict {
    if IsAllowlisted(ip) then Allowlisted
    else if LastFlood(h, ip).Some? && now < LastFlood(h, ip).value + BAN_DURATION then Banned
    else if Count(h, ip, now - FLOOD_WINDOW, now) >= MAX_CONNECTIONS_PER_WINDOW then Flooded
    else Admitted
  }

  predicate Blocks(v: Verdict) { v == Banned || v == Flooded }

  ghost predicate InOrder(h: seq<Call>) {
    forall i, j | 0 <= i < j < |h| :: h[i].at <= h[j].at
  }

  /** A history in which every verdict was reached from what came before it. */
  ghost predicate Judged(h: seq<Call>) {
    InOrder(h) && forall i {:trigger Judge(h[..i], h[i].ip, h[i].at)} | 0 <= i < |h| ::
                    h[i].verdict == Judge(h[..i], h[i].ip, h[i].at)
  }

  // ---------------------------------------------------------------- what the verdicts guarantee

  lemma JudgedFront(h: seq<Call>)
    requires Judged(h) && h != []
    ensures Judged(Front(h)) && Last(h).verdict == Judge(Front(h), Last(h).ip, Last(h).at)
  {
    assert forall i | 0 <= i < |Front(h)| :: Front(h)[..i] == h[..i];
  }

  /** Widening an interval to the left, or to the right past the last call, loses nothing. */
  lemma {:induction false} CountWidens(h: seq<Call>, ip: IpAddr, from: Instant, to: Instant,
                                       from': Instant, to': Instant)
    requires InOrder(h) && from' <= from && (to <= to' || h == [] || Last(h).at <= to')
    ensures Count(h, ip, from, to) <= Count(h, ip, from', to')
  {
    if h == [] {
    } else {
      if Front(h) != [] {
        assert Last(Front(h)) == h[|h| - 2];
      }
      CountWidens(Front(h), ip, from, to, from', to');
    }
  }

  /** Every closed interval of the window's length contains at most 30 admissions of an address. */
  lemma {:induction false} SlidingWindow(h: seq<Call>, ip: IpAddr, from: Instant)
    requires Judged(h)
    ensures Count(h, ip, from, from + FLOOD_WINDOW) <= MAX_CONNECTIONS_PER_WINDOW
  {
    if h == [] {
    } else {
      JudgedFront(h);
      SlidingWindow(Front(h), ip, from);
      var c := Last(h);
      if Admits(c, ip) && from <= c.at <= from + FLOOD_WINDOW {
        if Front(h) != [] {
          assert Last(Front(h)) == h[|h| - 2];
        }
        CountWidens(Front(h), ip, from, from + FLOOD_WINDOW, c.at - FLOOD_WINDOW, c.at);
      }
    }
  }

  /** The last flood verdict is the latest. */
  lemma {:induction false} LastFloodIsLast(h: seq<Call>, ip: IpAddr, i: nat)
    requires InOrder(h) && i < |h| && h[i].ip == ip && h[i].verdict == Flooded
    ensures LastFlood(h, ip).Some? && LastFlood(h, ip).value >= h[i].at
  {
    if i == |h| - 1 || (Last(h).ip == ip && Last(h).verdict == Flooded) {
    } else {
      LastFloodIsLast(Front(h), ip, i);
    }
  }

  /**
   For ten minutes after a flood verdict every attempt is refused as banned; as it is not itself a
   flood verdict, it does not lengthen the ban.
   */
  lemma BanHolds(h: seq<Call>, i: nat, j: nat)
    requires Judged(h) && i < j < |h| && h[i].verdict == Flooded && h[j].ip == h[i].ip
    requires h[j].at < h[i].at + BAN_DURATION
    ensures h[j].verdict == Banned && LastFlood(h[..j + 1], h[j].ip) == LastFlood(h[..j], h[j].ip)
  {
    LastFloodIsLast(h[..j], h[i].ip, i);
    assert h[i].verdict == Judge(h[..i], h[i].ip, h[i].at);
    assert h[j].verdict == Judge(h[..j], h[j].ip, h[j].at);
    assert Front(h[..j + 1]) == h[..j] && Last(h[..j + 1]) == h[j];
  }

  // ---------------------------------------------------------------- in terms of what got through

  predicate Passes(c: Call, ip: IpAddr) { c.ip == ip && !Blocks(c.verdict) }

  /** Calls for an address that were let through in the closed interval [from, to]. */
  function Passed(h: seq<Call>, ip: IpAddr, from: Instant, to: Instant): nat {
    if h == [] then 0
    else Passed(Front(h), ip, from, to) + if Passes(Last(h), ip) && from <= Last(h).at <= to then 1 else 0
  }

  lemma {:induction false} PassedIsCount(h: seq<Call>, ip: IpAddr, from: Instant, to: Instant)
    requires Judged(h) && !IsAllowlisted(ip)
    ensures Passed(h, ip, from, to) == Count(h, ip, from, to)
  {
    if h == [] {
    } else {
      JudgedFront(h);
      PassedIsCount(Front(h), ip, from, to);
    }
  }

  /** No address other than the exempt ones is let through more than 30 times in any closed 10 s. */
  lemma ThirtyPerTenSeconds(h: seq<Call>, ip: IpAddr, from: Instant)
    requires Judged(h) && !IsAllowlisted(ip)
    ensures Passed(h, ip, from, from + 10_000_000_000) <= 30
  {
    PassedIsCount(h, ip, from, from + 10_000_000_000);
    SlidingWindow(h, ip, from);
  }

  /** A flood verdict for the address less than ten minutes old. */
  ghost predicate RecentFlood(h: seq<Call>, ip: IpAddr, now: Instant) {
    exists i: nat :: i < |h| && h[i].ip == ip && h[i].verdict == Flooded && now < h[i].at + 600_000_000_000
  }

  /**
   Exactly who is blocked: not the exempt; any other address if it flooded within the last ten
   minutes, or if it was let through 30 times within the last 10 s, which is then a flood.
   */
  lemma BlockedIff(h: seq<Call>, ip: IpAddr, now: Instant)
    requires Judged(h)
    ensures var v, full := Judge(h, ip, now), Passed(h, ip, now - 10_000_000_000, now) >= 30;
            && (IsAllowlisted(ip) ==> !Blocks(v))
            && (!IsAllowlisted(ip) ==>
                  && (Blocks(v) <==> RecentFlood(h, ip, now) || full)
                  && (v == Flooded <==> !RecentFlood(h, ip, now) && full))
  {
    if !IsAllowlisted(ip) {
      PassedIsCount(h, ip, now - 10_000_000_000, now);
      if RecentFlood(h, ip, now) {
        var i: nat :| i < |h| && h[i].ip == ip && h[i].verdict == Flooded && now < h[i].at + 600_000_000_000;
        LastFloodIsLast(h, ip, i);
      }
      if LastFlood(h, ip).Some? {
        var i := LastFloodAt(h, ip);
        assert i < |h| && h[i].ip == ip && h[i].verdict == Flooded;
      }
    }
  }

  lemma {:induction false} LastFloodAt(h: seq<Call>, ip: IpAddr) returns (i: nat)
    requires LastFlood(h, ip).Some?
    ensures i < |h| && h[i].ip == ip && h[i].verdict == Flooded && h[i].at == LastFlood(h, ip).value
  {
    if Last(h).ip == ip && Last(h).verdict == Flooded {
      i := |h| - 1;
    } else {
      i := LastFloodAt(Front(h), ip);
    }
  }

  lemma {:induction false} NoneCounted(h: seq<Call>, ip: IpAddr, from: Instant, to: Instant)
    requires forall i | 0 <= i < |h| && Admits(h[i], ip) :: h[i].at < from
    ensures Count(h, ip, from, to) == 0
  {
    if h == [] {
    } else {
      NoneCounted(Front(h), ip, from, to);
    }
  }

  /** The first attempt at or after the end of a ban is admitted. */
  lemma FirstAfterBan(h: seq<Call>, j: nat)
    requires Judged(h) && j < |h| && LastFlood(h[..j], h[j].ip).Some?
    requires var end := LastFlood(h[..j], h[j].ip).value + BAN_DURATION;
             h[j].at >= end && forall i | 0 <= i < j && h[i].ip == h[j].ip :: h[i].at < end
    ensures h[j].verdict == Admitted
  {
    var ip, flood := h[j].ip, LastFlood(h[..j], h[j].ip).value;
    var f := LastFloodAt(h[..j], ip);
    assert h[f].verdict == Judge(h[..f], ip, h[f].at);
    forall i | 0 <= i < j && Admits(h[..j][i], ip) ensures h[..j][i].at < h[j].at - FLOOD_WINDOW {
      if f < i {
        BanHolds(h, f, i);
      }
    }
    NoneCounted(h[..j], ip, h[j].at - FLOOD_WINDOW, h[j].at);
    assert h[j].verdict == Judge(h[..j], h[j].ip, h[j].at);
  }
}

/** The limiter itself: per-address queues, bans and lazy sweeping. */
module Guards {
  import opened Prelude
  import opened Addresses
  import opened GuardSpec

  type Queues = map<IpAddr, seq<Instant>>
  type Bans = map<IpAddr, Instant>

  // ---------------------------------------------------------------- queues against history

  /** The admission times of an address. */
  function Admissions(h: seq<Call>, ip: IpAddr): seq<Instant> {
    if h == [] then []
    else if Admits(Last(h), ip) then Admissions(Front(h), ip) + [Last(h).at]
    else Admissions(Front(h), ip)
  }

  ghost predicate Sorted(q: seq<Instant>) {
    forall i, j | 0 <= i < j < |q| :: q[i] <= q[j]
  }

  /** What `prune` leaves. */
  function Pruned(q: seq<Instant>, now: Instant): seq<Instant> {
    if q != [] && now - q[0] > FLOOD_WINDOW then Pruned(q[1..], now) else q
  }

  /** `q` is what is left of `all` after times from its front, all too old at `clock`, are dropped. */
  predicate Tail(q: seq<Instant>, all: seq<Instant>, clock: Instant): (t: bool)
    ensures t ==> |q| <= |all|
  {
    if |q| >= |all| then q == all else clock - all[0] > FLOOD_WINDOW && Tail(q, all[1..], clock)
  }

  function QueueOf(queues: Queues, ip: IpAddr): seq<Instant> {
    if ip in queues then queues[ip] else []
  }

  ghost predicate QueuesTrack(queues: Queues, h: seq<Call>, clock: Instant) {
    forall ip {:trigger QueueOf(queues, ip)} :: Tail(QueueOf(queues, ip), Admissions(h, ip), clock)
  }

  /** A ban is kept while it matters, and what is kept is right. */
  ghost predicate BansTrack(bans: Bans, h: seq<Call>, clock: Instant) {
    forall ip {:trigger LastFlood(h, ip)} ::
      if ip in bans then LastFlood(h, ip) == Some(bans[ip] - BAN_DURATION)
      else LastFlood(h, ip).Some? ==> LastFlood(h, ip).value + BAN_DURATION <= clock
  }

  /** Nothing tracked was already stale at the last sweep, and no queue is empty or over-long. */
  ghost predicate Compact(queues: Queues, bans: Bans, lastSweep: Option<Instant>) {
    && (forall ip | ip in queues ::
          1 <= |queues[ip]| <= MAX_CONNECTIONS_PER_WINDOW && Sorted(queues[ip]) &&
          (lastSweep.Some? ==> Last(queues[ip]) >= lastSweep.value - FLOOD_WINDOW))
    && (forall ip | ip in bans :: lastSweep.Some? ==> bans[ip] > lastSweep.value)
  }

  lemma {:induction false} AdmissionsSorted(h: seq<Call>, ip: IpAddr)
    requires InOrder(h)
    ensures Sorted(Admissions(h, ip))
    ensures forall i | 0 <= i < |Admissions(h, ip)| :: h != [] && Admissions(h, ip)[i] <= Last(h).at
  {
    if h == [] {
    } else {
      if Front(h) != [] {
        assert Last(Front(h)) == h[|h| - 2];
      }
      AdmissionsSorted(Front(h), ip);
    }
  }

  /** Pruning drops exactly the times that are too old. */
  lemma {:induction false} PrunedIsTail(q: seq<Instant>, now: Instant)
    ensures Tail(Pruned(q, now), q, now)
    ensures Sorted(q) ==>
              && Sorted(Pruned(q, now))
              && forall i | 0 <= i < |Pruned(q, now)| :: now - Pruned(q, now)[i] <= FLOOD_WINDOW
  {
    if q == [] || now - q[0] <= FLOOD_WINDOW {
    } else {
      PrunedIsTail(q[1..], now);
    }
  }

  /** The same by index: the last |q| times of `all`, and all the others are too old. */
  lemma {:induction false} TailParts(q: seq<Instant>, all: seq<Instant>, clock: Instant)
    requires Tail(q, all, clock)
    ensures forall i | 0 <= i < |q| :: q[i] == all[|all| - |q| + i]
    ensures forall i | 0 <= i < |all| - |q| :: clock - all[i] > FLOOD_WINDOW
  {
    if |q| == |all| {
    } else {
      TailParts(q, all[1..], clock);
      assert forall i | 1 <= i < |all| :: all[i] == all[1..][i - 1];
    }
  }

  lemma {:induction false} TailSorted(q: seq<Instant>, all: seq<Instant>, clock: Instant)
    requires Tail(q, all, clock) && Sorted(all)
    ensures Sorted(q)
  {
    if |q| == |all| {
    } else {
      TailSorted(q, all[1..], clock);
    }
  }

  lemma {:induction false} TailOfTail(p: seq<Instant>, q: seq<Instant>, all: seq<Instant>, clock: Instant, now: Instant)
    requires Tail(p, q, now) && Tail(q, all, clock) && clock <= now
    ensures Tail(p, all, now)
    decreases |all|
  {
    if |q| == |all| {
    } else {
      TailOfTail(p, q, all[1..], clock, now);
    }
  }

  function InRange(s: seq<Instant>, from: Instant, to: Instant): nat {
    if s == [] then 0 else InRange(Front(s), from, to) + if from <= Last(s) <= to then 1 else 0
  }

  lemma {:induction false} CountIsInRange(h: seq<Call>, ip: IpAddr, from: Instant, to: Instant)
    ensures Count(h, ip, from, to) == InRange(Admissions(h, ip), from, to)
  {
    if h == [] {
    } else {
      CountIsInRange(Front(h), ip, from, to);
      if Admits(Last(h), ip) {
        var before := Admissions(Front(h), ip);
        assert Front(before + [Last(h).at]) == before;
      }
    }
  }

  lemma {:induction false} InRangeIsTail(s: seq<Instant>, n: nat, from: Instant, to: Instant)
    requires n <= |s|
    requires forall i | 0 <= i < |s| - n :: s[i] < from
    requires forall i | |s| - n <= i < |s| :: from <= s[i] <= to
    ensures InRange(s, from, to) == n
    decreases |s|
  {
    if s == [] {
    } else {
      InRangeIsTail(Front(s), if n == 0 then 0 else n - 1, from, to);
    }
  }

  /** The spec's count is the length of the pruned queue. */
  lemma CountIsLength(h: seq<Call>, ip: IpAddr, p: seq<Instant>, now: Instant)
    requires InOrder(h) && (h != [] ==> Last(h).at <= now)
    requires Tail(p, Admissions(h, ip), now) && forall i | 0 <= i < |p| :: now - p[i] <= FLOOD_WINDOW
    ensures Count(h, ip, now - FLOOD_WINDOW, now) == |p|
  {
    var all := Admissions(h, ip);
    CountIsInRange(h, ip, now - FLOOD_WINDOW, now);
    AllWithin(h, ip, p, now);
    InRangeIsTail(all, |p|, now - FLOOD_WINDOW, now);
  }

  lemma AllWithin(h: seq<Call>, ip: IpAddr, p: seq<Instant>, now: Instant)
    requires InOrder(h) && (h != [] ==> Last(h).at <= now)
    requires Tail(p, Admissions(h, ip), now) && forall i | 0 <= i < |p| :: now - p[i] <= FLOOD_WINDOW
    ensures var all := Admissions(h, ip);
            && (forall i | 0 <= i < |all| - |p| :: all[i] < now - FLOOD_WINDOW)
            && (forall i | |all| - |p| <= i < |all| :: now - FLOOD_WINDOW <= all[i] <= now)
  {
    var all := Admissions(h, ip);
    AdmissionsSorted(h, ip);
    TailParts(p, all, now);
    forall i | |all| - |p| <= i < |all| ensures now - FLOOD_WINDOW <= all[i] {
      assert all[i] == p[i - (|all| - |p|)];
    }
  }

  // ---------------------------------------------------------------- one call

  lemma Later(queues: Queues, bans: Bans, h: seq<Call>, clock: Instant, now: Instant)
    requires QueuesTrack(queues, h, clock) && BansTrack(bans, h, clock) && clock <= now
    ensures QueuesTrack(queues, h, now) && BansTrack(bans, h, now)
  {
    forall ip ensures Tail(QueueOf(queues, ip), Admissions(h, ip), now) {
      assert Tail(QueueOf(queues, ip), Admissions(h, ip), clock);
      TailOfTail(QueueOf(queues, ip), QueueOf(queues, ip), Admissions(h, ip), clock, now);
    }
  }

  /** A call settled early changes nothing that is tracked. */
  lemma SettledEarly(queues: Queues, bans: Bans, h: seq<Call>, now: Instant, c: Call)
    requires QueuesTrack(queues, h, now) && BansTrack(bans, h, now)
    requires c.verdict == Allowlisted || c.verdict == Banned
    ensures QueuesTrack(queues, h + [c], now) && BansTrack(bans, h + [c], now)
  {
    assert Front(h + [c]) == h;
    forall ip ensures Tail(QueueOf(queues, ip), Admissions(h + [c], ip), now) {
      assert Tail(QueueOf(queues, ip), Admissions(h, ip), now);
    }
    forall ip ensures LastFlood(h + [c], ip) == LastFlood(h, ip) {
    }
  }

  /** The queue of an address after a call that was not settled early. */
  function Recorded(q: seq<Instant>, now: Instant): seq<Instant> {
    var p := Pruned(q, now);
    if |p| >= MAX_CONNECTIONS_PER_WINDOW then p else p + [now]
  }

  lemma {:induction false} TailGrows(p: seq<Instant>, all: seq<Instant>, now: Instant)
    requires Tail(p, all, now)
    ensures Tail(p + [now], all + [now], now)
  {
    if |p| == |all| {
    } else {
      TailGrows(p, all[1..], now);
      assert (all + [now])[1..] == all[1..] + [now];
    }
  }

  lemma RecordedTail(q: seq<Instant>, h: seq<Call>, now: Instant, ip: IpAddr, verdict: Verdict)
    requires Tail(q, Admissions(h, ip), now)
    requires verdict == if |Pruned(q, now)| >= MAX_CONNECTIONS_PER_WINDOW then Flooded else Admitted
    ensures Tail(Recorded(q, now), Admissions(h + [Call(ip, now, verdict)], ip), now)
  {
    var all := Admissions(h, ip);
    assert Tail(Pruned(q, now), all, now) by {
      PrunedIsTail(q, now);
      TailOfTail(Pruned(q, now), q, all, now, now);
    }
    assert Front(h + [Call(ip, now, verdict)]) == h;
    if verdict == Admitted {
      TailGrows(Pruned(q, now), all, now);
    }
  }

  lemma QueuesAfterCall(queues: Queues, h: seq<Call>, now: Instant, ip: IpAddr, verdict: Verdict)
    requires QueuesTrack(queues, h, now)
    requires verdict == if |Pruned(QueueOf(queues, ip), now)| >= MAX_CONNECTIONS_PER_WINDOW then Flooded else Admitted
    ensures QueuesTrack(queues[ip := Recorded(QueueOf(queues, ip), now)], h + [Call(ip, now, verdict)], now)
  {
    var h' := h + [Call(ip, now, verdict)];
    assert Front(h') == h;
    RecordedTail(QueueOf(queues, ip), h, now, ip, verdict);
    var queues' := queues[ip := Recorded(QueueOf(queues, ip), now)];
    forall x ensures Tail(QueueOf(queues', x), Admissions(h', x), now) {
      assert x != ip ==> QueueOf(queues', x) == QueueOf(queues, x) && Admissions(h', x) == Admissions(h, x);
    }
  }

  /** What a sweep leaves. */
  function Swept(queues: Queues, now: Instant): Queues {
    map ip | ip in queues && Pruned(queues[ip], now) != [] :: Pruned(queues[ip], now)
  }

  function Unexpired(bans: Bans, now: Instant): Bans {
    map ip | ip in bans && now < bans[ip] :: bans[ip]
  }

  lemma SweepKeepsTracking(queues: Queues, bans: Bans, h: seq<Call>, h': seq<Call>, now: Instant)
    requires QueuesTrack(queues, h', now) && BansTrack(bans, h, now)
    ensures QueuesTrack(Swept(queues, now), h', now) && BansTrack(Unexpired(bans, now), h, now)
  {
    forall ip ensures Tail(QueueOf(Swept(queues, now), ip), Admissions(h', ip), now) {
      assert Tail(QueueOf(queues, ip), Admissions(h', ip), now);
      PrunedIsTail(QueueOf(queues, ip), now);
      TailOfTail(Pruned(QueueOf(queues, ip), now), QueueOf(queues, ip), Admissions(h', ip), now, now);
    }
  }

  lemma SweptCompact(queues: Queues, bans: Bans, lastSweep: Option<Instant>, now: Instant)
    requires Compact(queues, bans, lastSweep)
    ensures Compact(Swept(queues, now), Unexpired(bans, now), Some(now))
  {
    forall ip | ip in Swept(queues, now)
      ensures var q := Swept(queues, now)[ip];
              1 <= |q| <= MAX_CONNECTIONS_PER_WINDOW && Sorted(q) && Last(q) >= now - FLOOD_WINDOW
    {
      PrunedIsTail(queues[ip], now);
    }
  }

  /** The verdict of the specification is read off the pruned queue. */
  lemma DetectionIsRight(queues: Queues, h: seq<Call>, ip: IpAddr, now: Instant)
    requires QueuesTrack(queues, h, now) && InOrder(h) && (h != [] ==> Last(h).at <= now)
    requires !IsAllowlisted(ip)
    requires LastFlood(h, ip).Some? ==> now >= LastFlood(h, ip).value + BAN_DURATION
    ensures var p := Pruned(QueueOf(queues, ip), now);
            Judge(h, ip, now) == if |p| >= MAX_CONNECTIONS_PER_WINDOW then Flooded else Admitted
  {
    var q := QueueOf(queues, ip);
    assert Tail(q, Admissions(h, ip), now);
    AdmissionsSorted(h, ip);
    TailSorted(q, Admissions(h, ip), now);
    PrunedIsTail(q, now);
    TailOfTail(Pruned(q, now), q, Admissions(h, ip), now, now);
    CountIsLength(h, ip, Pruned(q, now), now);
  }

  /** A recorded queue is short, sorted and ends within the window. */
  lemma RecordedShape(q: seq<Instant>, now: Instant)
    requires Sorted(q) && |q| <= MAX_CONNECTIONS_PER_WINDOW && forall i | 0 <= i < |q| :: q[i] <= now
    ensures var r := Recorded(q, now);
            1 <= |r| <= MAX_CONNECTIONS_PER_WINDOW && Sorted(r) && Last(r) >= now - FLOOD_WINDOW
  {
    PrunedIsTail(q, now);
    TailNotAfter(Pruned(q, now), q, now);
    AppendedShape(Pruned(q, now), now);
  }

  lemma TailNotAfter(p: seq<Instant>, q: seq<Instant>, now: Instant)
    requires Tail(p, q, now) && forall i | 0 <= i < |q| :: q[i] <= now
    ensures forall i | 0 <= i < |p| :: p[i] <= now
  {
    TailParts(p, q, now);
  }

  lemma AppendedShape(p: seq<Instant>, now: Instant)
    requires Sorted(p) && |p| <= MAX_CONNECTIONS_PER_WINDOW
    requires forall i | 0 <= i < |p| :: p[i] <= now && now - p[i] <= FLOOD_WINDOW
    ensures var r := if |p| >= MAX_CONNECTIONS_PER_WINDOW then p else p + [now];
            1 <= |r| <= MAX_CONNECTIONS_PER_WINDOW && Sorted(r) && Last(r) >= now - FLOOD_WINDOW
  {
  }

  lemma DetectionCompact(queues: Queues, bans: Bans, lastSweep: Option<Instant>, h: seq<Call>, ip: IpAddr, now: Instant)
    requires Compact(queues, bans, lastSweep) && (lastSweep.Some? ==> lastSweep.value <= now)
    requires QueuesTrack(queues, h, now) && InOrder(h) && (h != [] ==> Last(h).at <= now)
    ensures Compact(queues[ip := Recorded(QueueOf(queues, ip), now)], bans, lastSweep)
  {
    var q, all := QueueOf(queues, ip), Admissions(h, ip);
    AdmissionsSorted(h, ip);
    assert Tail(q, all, now);
    TailParts(q, all, now);
    TailSorted(q, all, now);
    RecordedShape(q, now);
  }

  lemma BansAfterCall(bans: Bans, h: seq<Call>, ip: IpAddr, now: Instant, verdict: Verdict)
    requires BansTrack(bans, h, now) && verdict in {Flooded, Admitted}
    ensures BansTrack(if verdict == Flooded then bans[ip := now + BAN_DURATION] else bans,
                      h + [Call(ip, now, verdict)], now)
  {
    var h' := h + [Call(ip, now, verdict)];
    assert Front(h') == h;
    var bans' := if verdict == Flooded then bans[ip := now + BAN_DURATION] else bans;
    forall x ensures if x in bans' then LastFlood(h', x) == Some(bans'[x] - BAN_DURATION)
                     else LastFlood(h', x).Some? ==> LastFlood(h', x).value + BAN_DURATION <= now
    {
      assert LastFlood(h', x) == if x == ip && verdict == Flooded then Some(now) else LastFlood(h, x);
    }
  }

  lemma Extends(h: seq<Call>, ip: IpAddr, now: Instant)
    requires Judged(h) && (h != [] ==> Last(h).at <= now)
    ensures Judged(h + [Call(ip, now, Judge(h, ip, now))])
  {
    var h' := h + [Call(ip, now, Judge(h, ip, now))];
    assert forall i | 0 <= i <= |h| :: h'[..i] == h[..i];
    assert h[..|h|] == h;
  }

  /** What ties the limiter's fields to the history of calls. */
  ghost predicate Tracks(queues: Queues, bans: Bans, lastSweep: Option<Instant>, h: seq<Call>, clock: Instant) {
    && Judged(h) && (h != [] ==> Last(h).at <= clock)
    && QueuesTrack(queues, h, clock) && BansTrack(bans, h, clock)
    && Compact(queues, bans, lastSweep)
    && (if lastSweep.Some? then lastSweep.value <= clock else queues == map[] && bans == map[])
  }

  /** Each tracked address was admitted in the last 70 s; each ban is active or ended within 60 s. */
  ghost predicate Recent(queues: Queues, bans: Bans, now: Instant) {
    && (forall ip | ip in queues :: queues[ip] != [] && Last(queues[ip]) > now - 70_000_000_000)
    && (forall ip | ip in bans :: bans[ip] > now - 60_000_000_000)
  }

  predicate SweepDue(lastSweep: Option<Instant>, now: Instant) {
    lastSweep.None? || now - lastSweep.value >= SWEEP_INTERVAL
  }

  /** A counted call sweeps exactly if none has before, or the last sweep is a minute old. */
  lemma SweepsEveryMinute(lastSweep: Option<Instant>, now: Instant)
    ensures NextSweep(lastSweep, now) ==
            match lastSweep {
              case None => Some(now)
              case Some(last) => if now - last >= 60_000_000_000 then Some(now) else Some(last)
            }
  {
  }

  lemma SettledEarlyTracks(queues: Queues, bans: Bans, lastSweep: Option<Instant>, h: seq<Call>, clock: Instant,
                           ip: IpAddr, now: Instant)
    requires Tracks(queues, bans, lastSweep, h, clock) && clock <= now
    requires Judge(h, ip, now) == Allowlisted || Judge(h, ip, now) == Banned
    ensures Tracks(queues, bans, lastSweep, h + [Call(ip, now, Judge(h, ip, now))], now)
  {
    Later(queues, bans, h, clock, now);
    Extends(h, ip, now);
    SettledEarly(queues, bans, h, now, Call(ip, now, Judge(h, ip, now)));
  }

  lemma UnbannedTracks(queues: Queues, bans: Bans, lastSweep: Option<Instant>, h: seq<Call>, clock: Instant,
                       ip: IpAddr, now: Instant)
    requires Tracks(queues, bans, lastSweep, h, clock) && clock <= now && (ip in bans ==> bans[ip] <= now)
    ensures Tracks(queues, bans - {ip}, lastSweep, h, now)
    ensures LastFlood(h, ip).Some? ==> now >= LastFlood(h, ip).value + BAN_DURATION
  {
    Later(queues, bans, h, clock, now);
    UnbannedBans(bans, h, ip, now);
  }

  lemma UnbannedBans(bans: Bans, h: seq<Call>, ip: IpAddr, now: Instant)
    requires BansTrack(bans, h, now) && (ip in bans ==> bans[ip] <= now)
    ensures BansTrack(bans - {ip}, h, now)
    ensures LastFlood(h, ip).Some? ==> now >= LastFlood(h, ip).value + BAN_DURATION
  {
    forall x ensures if x in bans - {ip} then LastFlood(h, x) == Some(bans[x] - BAN_DURATION)
                     else LastFlood(h, x).Some? ==> LastFlood(h, x).value + BAN_DURATION <= now
    {
      assert if x in bans then LastFlood(h, x) == Some(bans[x] - BAN_DURATION)
             else LastFlood(h, x).Some? ==> LastFlood(h, x).value + BAN_DURATION <= now;
    }
  }

  lemma NotBanned(queues: Queues, bans: Bans, lastSweep: Option<Instant>, h: seq<Call>, clock: Instant,
                  ip: IpAddr, now: Instant)
    requires Tracks(queues, bans, lastSweep, h, clock) && clock <= now && ip !in bans
    ensures Tracks(queues, bans, lastSweep, h, now)
    ensures LastFlood(h, ip).Some? ==> now >= LastFlood(h, ip).value + BAN_DURATION
  {
    UnbannedTracks(queues, bans, lastSweep, h, clock, ip, now);
    assert bans - {ip} == bans;
  }

  lemma BanIsRight(queues: Queues, bans: Bans, lastSweep: Option<Instant>, h: seq<Call>, clock: Instant,
                   ip: IpAddr, now: Instant)
    requires Tracks(queues, bans, lastSweep, h, clock) && ip in bans && now < bans[ip] && !IsAllowlisted(ip)
    ensures Judge(h, ip, now) == Banned
  {
    assert LastFlood(h, ip) == Some(bans[ip] - BAN_DURATION);
  }

  // The steps of a call that is not settled early.

  predicate OverLimit(queues: Queues, ip: IpAddr, now: Instant) {
    |Pruned(QueueOf(queues, ip), now)| >= MAX_CONNECTIONS_PER_WINDOW
  }

  function Detected(queues: Queues, ip: IpAddr, now: Instant): Queues {
    queues[ip := Recorded(QueueOf(queues, ip), now)]
  }

  function SweptIfDue(queues: Queues, lastSweep: Option<Instant>, now: Instant): Queues {
    if SweepDue(lastSweep, now) then Swept(queues, now) else queues
  }

  function UnexpiredIfDue(bans: Bans, lastSweep: Option<Instant>, now: Instant): Bans {
    if SweepDue(lastSweep, now) then Unexpired(bans, now) else bans
  }

  function NextSweep(lastSweep: Option<Instant>, now: Instant): Option<Instant> {
    if SweepDue(lastSweep, now) then Some(now) else lastSweep
  }

  function BannedIf(flooded: bool, bans: Bans, ip: IpAddr, now: Instant): Bans {
    if flooded then bans[ip := now + BAN_DURATION] else bans
  }

  /** A call that is not settled early: detection, a sweep if one is due, and a ban for a flood. */
  lemma CallTracks(queues: Queues, bans: Bans, lastSweep: Option<Instant>, h: seq<Call>, ip: IpAddr, now: Instant,
                   queues': Queues, bans': Bans, lastSweep': Option<Instant>)
    requires Tracks(queues, bans, lastSweep, h, now) && !IsAllowlisted(ip)
    requires LastFlood(h, ip).Some? ==> now >= LastFlood(h, ip).value + BAN_DURATION
    requires queues' == SweptIfDue(Detected(queues, ip, now), lastSweep, now)
    requires bans' == BannedIf(OverLimit(queues, ip, now), UnexpiredIfDue(bans, lastSweep, now), ip, now)
    requires lastSweep' == NextSweep(lastSweep, now)
    ensures Judge(h, ip, now) == if OverLimit(queues, ip, now) then Flooded else Admitted
    ensures Tracks(queues', bans', lastSweep', h + [Call(ip, now, Judge(h, ip, now))], now)
    ensures Recent(queues', bans', now)
  {
    var verdict := Judge(h, ip, now);
    var queues1 := queues[ip := Recorded(QueueOf(queues, ip), now)];
    DetectionIsRight(queues, h, ip, now);
    DetectionCompact(queues, bans, lastSweep, h, ip, now);
    QueuesAfterCall(queues, h, now, ip, verdict);
    Extends(h, ip, now);
    if SweepDue(lastSweep, now) {
      SweepKeepsTracking(queues1, bans, h, h + [Call(ip, now, verdict)], now);
      SweptCompact(queues1, bans, lastSweep, now);
      BannedTracks(Swept(queues1, now), Unexpired(bans, now), now, h, ip, now, verdict);
    } else {
      BannedTracks(queues1, bans, lastSweep.value, h, ip, now, verdict);
    }
  }

  /** The ban, if there is one, is set last. */
  lemma BannedTracks(queues: Queues, bans: Bans, sweep: Instant, h: seq<Call>, ip: IpAddr, now: Instant,
                     verdict: Verdict)
    requires var h' := h + [Call(ip, now, verdict)];
             Judged(h') && QueuesTrack(queues, h', now) && BansTrack(bans, h, now)
    requires Compact(queues, bans, Some(sweep)) && sweep <= now < sweep + SWEEP_INTERVAL
    requires verdict in {Flooded, Admitted}
    ensures var bans' := if verdict == Flooded then bans[ip := now + BAN_DURATION] else bans;
            Tracks(queues, bans', Some(sweep), h + [Call(ip, now, verdict)], now) && Recent(queues, bans', now)
  {
    BansAfterCall(bans, h, ip, now, verdict);
  }

  class ConnectionGuard {
    var timestamps: Queues
    var bannedUntil: Bans
    var lastSweep: Option<Instant>

    /** Every call so far with the verdict the specification gives it. */
    ghost var history: seq<Call>
    ghost var clock: Instant

    ghost predicate Valid()
      reads this
    {
      Tracks(timestamps, bannedUntil, lastSweep, history, clock)
    }

    constructor (now: Instant)
      ensures Valid() && history == [] && clock == now
    {
      timestamps, bannedUntil, lastSweep := map[], map[], None;
      history, clock := [], now;
    }

    static method Prune(queue: seq<Instant>, now: Instant) returns (kept: seq<Instant>)
      ensures kept == Pruned(queue, now)
    {
      kept := queue;
      while kept != [] && now - kept[0] > FLOOD_WINDOW
        invariant Pruned(kept, now) == Pruned(queue, now)
        decreases |kept|
      {
        kept := kept[1..];
      }
    }

    method IsFloodDetected(ip: IpAddr, now: Instant) returns (flooded: bool)
      modifies `timestamps
      ensures flooded == OverLimit(old(timestamps), ip, now)
      ensures timestamps == Detected(old(timestamps), ip, now)
    {
      var queue := Prune(if ip in timestamps then timestamps[ip] else [], now);
      if |queue| >= MAX_CONNECTIONS_PER_WINDOW {
        timestamps := timestamps[ip := queue];
        return true;
      }
      timestamps := timestamps[ip := queue + [now]];
      return false;
    }

    method SweepIfDue(now: Instant)
      modifies `timestamps, `bannedUntil, `lastSweep
      ensures timestamps == SweptIfDue(old(timestamps), old(lastSweep), now)
      ensures bannedUntil == UnexpiredIfDue(old(bannedUntil), old(lastSweep), now)
      ensures lastSweep == NextSweep(old(lastSweep), now)
    {
      if lastSweep.Some? && now - lastSweep.value < SWEEP_INTERVAL {
        return;
      }
      lastSweep := Some(now);
      timestamps := RetainQueues(timestamps, now);
      bannedUntil := RetainBans(bannedUntil, now);
    }

    static method RetainQueues(queues: Queues, now: Instant) returns (kept: Queues)
      ensures kept == Swept(queues, now)
    {
      kept := map[];
      var rest := queues.Keys;
      while rest != {}
        invariant rest <= queues.Keys
        invariant kept == map ip | ip in queues && ip !in rest && Pruned(queues[ip], now) != [] ::
                            Pruned(queues[ip], now)
        decreases rest
      {
        var ip :| ip in rest;
        var queue := Prune(queues[ip], now);
        if queue != [] {
          kept := kept[ip := queue];
        }
        rest := rest - {ip};
      }
    }

    static method RetainBans(bans: Bans, now: Instant) returns (kept: Bans)
      ensures kept == Unexpired(bans, now)
    {
      kept := map[];
      var rest := bans.Keys;
      while rest != {}
        invariant rest <= bans.Keys
        invariant kept == map ip | ip in bans && ip !in rest && now < bans[ip] :: bans[ip]
        decreases rest
      {
        var ip :| ip in rest;
        if now < bans[ip] {
          kept := kept[ip := bans[ip]];
        }
        rest := rest - {ip};
      }
    }

    /**
     The answer is the specification's, whatever was pruned, unbanned or swept before.  After a call
     that is not settled early, everything tracked is recent.
     */
    method ShouldBlock(address: IpAddr, now: Instant) returns (blocked: bool)
      requires Valid() && clock <= now
      modifies this
      ensures Valid() && clock == now
      ensures var verdict := Judge(old(history), Canonical(address), now);
              && history == old(history) + [Call(Canonical(address), now, verdict)]
              && blocked == Blocks(verdict)
              && (verdict == Admitted || verdict == Flooded ==> Recent(timestamps, bannedUntil, now))
    {
      var ip := Canonical(address);
      ghost var h := history;
      if IsAllowlisted(ip) {
        SettledEarlyTracks(timestamps, bannedUntil, lastSweep, h, clock, ip, now);
        history, clock := h + [Call(ip, now, Allowlisted)], now;
        return false;
      }
      if ip in bannedUntil {
        if now < bannedUntil[ip] {
          BanIsRight(timestamps, bannedUntil, lastSweep, h, clock, ip, now);
          SettledEarlyTracks(timestamps, bannedUntil, lastSweep, h, clock, ip, now);
          history, clock := h + [Call(ip, now, Banned)], now;
          return true;
        }
        UnbannedTracks(timestamps, bannedUntil, lastSweep, h, clock, ip, now);
        bannedUntil := bannedUntil - {ip};
      } else {
        NotBanned(timestamps, bannedUntil, lastSweep, h, clock, ip, now);
      }
      blocked := DetectAndRecord(ip, now);
    }

    /** The half of `ShouldBlock` for a call that is not settled early, with its entry in the history. */
    method DetectAndRecord(ip: IpAddr, now: Instant) returns (flooded: bool)
      requires Tracks(timestamps, bannedUntil, lastSweep, history, now) && !IsAllowlisted(ip)
      requires LastFlood(history, ip).Some? ==> now >= LastFlood(history, ip).value + BAN_DURATION
      modifies this
      ensures Valid() && clock == now && Recent(timestamps, bannedUntil, now)
      ensures history == old(history) + [Call(ip, now, Judge(old(history), ip, now))]
      ensures flooded == Blocks(Judge(old(history), ip, now))
    {
      ghost var queues' := SweptIfDue(Detected(timestamps, ip, now), lastSweep, now);
      ghost var bans' := BannedIf(OverLimit(timestamps, ip, now), UnexpiredIfDue(bannedUntil, lastSweep, now), ip, now);
      ghost var sweep' := NextSweep(lastSweep, now);
      CallTracks(timestamps, bannedUntil, lastSweep, history, ip, now, queues', bans', sweep');
      flooded := DetectAndSweep(ip, now);
      assert timestamps == queues' && bannedUntil == bans' && lastSweep == sweep';
      history, clock := history + [Call(ip, now, Judge(history, ip, now))], now;
    }

    /** Its effects on the fields: detection, the sweep if one is due, and the ban. */
    method DetectAndSweep(ip: IpAddr, now: Instant) returns (flooded: bool)
      modifies `timestamps, `bannedUntil, `lastSweep
      ensures flooded == OverLimit(old(timestamps), ip, now)
      ensures timestamps == SweptIfDue(Detected(old(timestamps), ip, now), old(lastSweep), now)
      ensures bannedUntil == BannedIf(flooded, UnexpiredIfDue(old(bannedUntil), old(lastSweep), now), ip, now)
      ensures lastSweep == NextSweep(old(lastSweep), now)
    {
      flooded := IsFloodDetected(ip, now);
      SweepIfDue(now);
      if flooded {
        bannedUntil := bannedUntil[ip := now + BAN_DURATION];
      }
    }
  }

  // ---------------------------------------------------------------- the accept loop

  /** A connection the listener accepted: the peer's address, and when. */
  datatype Attempt = Attempt(address: IpAddr, at: Instant)

  /** The history that a sequence of attempts determines. */
  function Played(attempts: seq<Attempt>): (h: seq<Call>)
    ensures |h| == |attempts|
  {
    if attempts == [] then []
    else
      var h, a := Played(Front(attempts)), Last(attempts);
      h + [Call(Canonical(a.address), a.at, Judge(h, Canonical(a.address), a.at))]
  }

  /** How many of the attempts from an address, in any of its forms, were served in [from, to]. */
  function Served(attempts: seq<Attempt>, ip: IpAddr, from: Instant, to: Instant): nat {
    if attempts == [] then 0 else
    var n := |attempts| - 1;
    assert attempts[..n] == Front(attempts);
    Served(attempts[..n], ip, from, to) +
    if Canonical(attempts[n].address) == ip && Opened(attempts, n) && from <= attempts[n].at <= to then 1 else 0
  }

  /** Whatever else connects, at most 30 attempts from one address are served in any closed 10 s. */
  lemma AtMostThirtyServed(attempts: seq<Attempt>, ip: IpAddr, from: Instant)
    requires forall i, j | 0 <= i < j < |attempts| :: attempts[i].at <= attempts[j].at
    requires !IsAllowlisted(ip)
    ensures Served(attempts, ip, from, from + 10_000_000_000) <= 30
  {
    PlayedIsJudged(attempts);
    ThirtyPerTenSeconds(Played(attempts), ip, from);
    ServedIsPassed(attempts, ip, from, from + 10_000_000_000);
  }

  lemma {:induction false} ServedIsPassed(attempts: seq<Attempt>, ip: IpAddr, from: Instant, to: Instant)
    ensures Served(attempts, ip, from, to) == Passed(Played(attempts), ip, from, to)
  {
    if attempts == [] {
    } else {
      ServedIsPassed(Front(attempts), ip, from, to);
      assert Front(Played(attempts)) == Played(Front(attempts));
    }
  }

  /** So everything proved of judged histories holds of what the accept loop lets through. */
  lemma {:induction false} PlayedIsJudged(attempts: seq<Attempt>)
    requires forall i, j | 0 <= i < j < |attempts| :: attempts[i].at <= attempts[j].at
    ensures Judged(Played(attempts)) && (attempts != [] ==> Last(Played(attempts)).at == Last(attempts).at)
  {
    if attempts == [] {
    } else {
      var a := Last(attempts);
      PlayedIsJudged(Front(attempts));
      if Front(attempts) != [] {
        assert Last(Front(attempts)) == attempts[|attempts| - 2];
      }
      Extends(Played(Front(attempts)), Canonical(a.address), a.at);
    }
  }

  /** `i` got through: the specification's verdict on it, given the attempts before it, does not block. */
  predicate Opened(attempts: seq<Attempt>, i: nat)
    requires i < |attempts|
  {
    !Blocks(Judge(Played(attempts[..i]), Canonical(attempts[i].address), attempts[i].at))
  }

  /** `served` lists, in order, exactly those of the first n attempts that got through. */
  ghost predicate Serves(served: seq<nat>, attempts: seq<Attempt>, n: nat)
    requires n <= |attempts|
  {
    && (forall i: nat | i < n :: i in served <==> Opened(attempts, i))
    && (forall i | 0 <= i < |served| :: served[i] < n)
    && (forall i, j | 0 <= i < j < |served| :: served[i] < served[j])
  }

  lemma ServesNext(served: seq<nat>, attempts: seq<Attempt>, n: nat)
    requires n < |attempts| && Serves(served, attempts, n)
    ensures Serves(if Opened(attempts, n) then served + [n] else served, attempts, n + 1)
  {
    assert n !in served;
  }

  /** Sessions are started for exactly the attempts that the specification lets through, in order. */
  method AcceptLoop(attempts: seq<Attempt>) returns (served: seq<nat>)
    requires forall i, j | 0 <= i < j < |attempts| :: attempts[i].at <= attempts[j].at
    ensures Serves(served, attempts, |attempts|)
  {
    served := [];
    if attempts == [] {
      return;
    }
    var guard := new ConnectionGuard(attempts[0].at);
    for n := 0 to |attempts|
      invariant fresh(guard) && guard.Valid() && guard.history == Played(attempts[..n])
      invariant n < |attempts| ==> guard.clock <= attempts[n].at
      invariant Serves(served, attempts, n)
    {
      assert Front(attempts[..n + 1]) == attempts[..n];
      ServesNext(served, attempts, n);
      var blocked := guard.ShouldBlock(attempts[n].address, attempts[n].at);
      if !blocked {
        served := served + [n];
      }
    }
  }
}
