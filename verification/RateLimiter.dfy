/**
 SlidingWindowRateLimiter: a ring of admission times on a 32-bit millisecond
 clock that wraps, against the plain list of real admission times.
 */
module RateLimiter {
  import opened Bytes

  const WINDOW_MS: nat := 60000
  const MAX_REQUESTS: nat := 120

  datatype Decision = Decision(allowed: bool, retryAfterMs: nat, requestCount: nat)

  /** Unsigned 32-bit subtraction. */
  function ElapsedMs(nowMs: nat, startMs: nat): nat
    requires nowMs < TWO_32 && startMs < TWO_32
  {
    (nowMs - startMs + TWO_32) % TWO_32
  }

  /** The real age of an instant, as the 32-bit clock shows it. */
  function WrappedAge(now: nat, start: nat): nat
    requires start <= now
  {
    (now - start) % TWO_32
  }

  lemma ElapsedIsWrappedAge(now: nat, start: nat)
    requires start <= now
    ensures ElapsedMs(now % TWO_32, start % TWO_32) == WrappedAge(now, start)
  {}

  /** Wrapping only ever makes an instant look younger, and not within one turn. */
  lemma AgeFacts(now: nat, start: nat)
    requires start <= now
    ensures WrappedAge(now, start) <= now - start
    ensures now - start < TWO_32 ==> WrappedAge(now, start) == now - start
  {}

  /** Where the ring keeps its i-th request. */
  function Slot(head: nat, i: nat): (s: nat)
    ensures s < MAX_REQUESTS
  {
    (head + i) % MAX_REQUESTS
  }

  lemma SlotWraps(head: nat, i: nat)
    requires head < MAX_REQUESTS && i <= MAX_REQUESTS
    ensures Slot(head, i) == if head + i < MAX_REQUESTS then head + i else head + i - MAX_REQUESTS
  {
    if head + i >= MAX_REQUESTS {
      assert head + i == MAX_REQUESTS + (head + i - MAX_REQUESTS);
    }
  }

  lemma SlotFacts(head: nat, i: nat, j: nat)
    requires head < MAX_REQUESTS && i < MAX_REQUESTS
    ensures Slot(head, 0) == head
    ensures Slot(Slot(head, 1), i) == Slot(head, i + 1)
    ensures i < j < MAX_REQUESTS ==> Slot(head, i) != Slot(head, j)
  {
    SlotWraps(head, 0);
    SlotWraps(head, 1);
    SlotWraps(head, i);
    SlotWraps(head, i + 1);
    SlotWraps(Slot(head, 1), i);
    if i < j < MAX_REQUESTS { SlotWraps(head, j); }
    hide Slot;
  }

  // ------------------------------------------- the plain list of real times

  predicate Ordered(times: seq<nat>) {
    forall i, j :: 0 <= i < j < |times| ==> times[i] <= times[j]
  }

  predicate NotAfter(times: seq<nat>, now: nat) {
    forall i :: 0 <= i < |times| ==> times[i] <= now
  }

  /** What eviction at real time `now` leaves of the listed admissions. */
  function Evict(times: seq<nat>, now: nat): (left: seq<nat>)
    requires NotAfter(times, now)
    ensures |left| <= |times| && left == times[|times| - |left|..]
    ensures left != [] ==> WrappedAge(now, left[0]) < WINDOW_MS
    ensures forall i :: 0 <= i < |times| - |left| ==> WrappedAge(now, times[i]) >= WINDOW_MS
  {
    if times != [] && WrappedAge(now, times[0]) >= WINDOW_MS then Evict(times[1..], now) else times
  }

  lemma EvictOneMore(times: seq<nat>, now: nat)
    requires NotAfter(times, now) && times != [] && WrappedAge(now, times[0]) >= WINDOW_MS
    ensures NotAfter(times[1..], now) && Evict(times, now) == Evict(times[1..], now)
  {}

  lemma EvictStops(times: seq<nat>, now: nat)
    requires NotAfter(times, now) && (times != [] ==> WrappedAge(now, times[0]) < WINDOW_MS)
    ensures Evict(times, now) == times
  {}

  /** The listed admissions after one call, and whether the call was admitted. */
  function Decide(times: seq<nat>, now: nat): (seq<nat>, bool)
    requires NotAfter(times, now)
  {
    var left := Evict(times, now);
    if |left| < MAX_REQUESTS then (left + [now], true) else (left, false)
  }

  predicate AllFresh(times: seq<nat>, now: nat) {
    forall i :: 0 <= i < |times| ==> now < times[i] + WINDOW_MS
  }

  /** No request less than a window old is ever forgotten, whatever the gap. */
  lemma EvictedAreOld(times: seq<nat>, now: nat, i: nat)
    requires NotAfter(times, now) && i < |times| - |Evict(times, now)|
    ensures times[i] + WINDOW_MS <= now
  {
    AgeFacts(now, times[i]);
  }

  /**
   Gaps between calls that the 32-bit clock survives: those after which no request
   of the window before the gap shows an age that has wrapped back below a window.
   */
  predicate SafeGap(gap: nat) {
    gap <= TWO_32 - WINDOW_MS || WINDOW_MS <= gap % TWO_32 <= TWO_32 - WINDOW_MS
  }

  /** What a call finds: ordered requests, none after the last call and all fresh then. */
  predicate FreshList(times: seq<nat>, last: nat) {
    Ordered(times) && NotAfter(times, last) && AllFresh(times, last)
  }

  /** A request fresh at the last call shows after a safe gap whether it still is. */
  lemma SafeGapShowsAge(start: nat, last: nat, gap: nat)
    requires start <= last < start + WINDOW_MS && SafeGap(gap)
    ensures WrappedAge(last + gap, start) >= WINDOW_MS <==> last + gap >= start + WINDOW_MS
  {
    AgeFacts(last + gap, start);
    if gap > TWO_32 - WINDOW_MS {
      var laps := gap / TWO_32;
      assert last + gap - start == laps * TWO_32 + (gap % TWO_32 + (last - start));
      WrapsTo(last + gap - start, laps, gap % TWO_32 + (last - start));
    }
  }

  lemma WrapsTo(age: nat, laps: nat, rest: nat)
    requires age == laps * TWO_32 + rest && rest < TWO_32
    ensures age % TWO_32 == rest
  {}

  /** After a safe gap eviction leaves only fresh requests, */
  lemma EvictIsExact(times: seq<nat>, last: nat, now: nat)
    requires FreshList(times, last) && last <= now && (SafeGap(now - last) || times == [])
    ensures AllFresh(Evict(times, now), now)
  {
    hide WrappedAge, SafeGap, Evict, Ordered, NotAfter, AllFresh;
    var left := LaterList(times, last, now);
    if left != [] {
      var k := |times| - |left|;
      FreshMember(times, last, k);
      SafeGapShowsAge(times[k], last, now - last);
      FreshFrom(times, k, now);
    } else {
      FreshNone(now);
    }
  }

  /** Eviction at a later time is defined, and leaves an end of the list. */
  lemma LaterList(times: seq<nat>, last: nat, now: nat) returns (left: seq<nat>)
    requires NotAfter(times, last) && last <= now
    ensures NotAfter(times, now) && left == Evict(times, now)
    ensures |left| <= |times| && left == times[|times| - |left|..]
    ensures left != [] ==> left[0] <= now && WrappedAge(now, left[0]) < WINDOW_MS
  {
    left := Evict(times, now);
  }

  lemma FreshMember(times: seq<nat>, last: nat, k: nat)
    requires NotAfter(times, last) && AllFresh(times, last) && k < |times|
    ensures times[k] <= last < times[k] + WINDOW_MS
  {}

  lemma FreshNone(now: nat)
    ensures AllFresh([], now)
  {}

  /** In an ordered list everything from a fresh request on is fresh. */
  lemma FreshFrom(times: seq<nat>, k: nat, now: nat)
    requires Ordered(times) && k < |times| && now < times[k] + WINDOW_MS
    ensures AllFresh(times[k..], now)
  {}

  /** An unsafe gap makes some request of the window before it look young again. */
  lemma UnsafeGapHidesAge(gap: nat) returns (last: nat)
    requires !SafeGap(gap)
    ensures last < WINDOW_MS <= last + gap && WrappedAge(last + gap, 0) < WINDOW_MS
  {
    var laps, rest := gap / TWO_32, gap % TWO_32;
    assert gap == laps * TWO_32 + rest && rest < TWO_32;
    if rest < WINDOW_MS {
      last := 0;
      WrapsTo(gap, laps, rest);
    } else {
      last := TWO_32 - rest;
      assert last + gap == (laps + 1) * TWO_32 + 0;
      WrapsTo(last + gap, laps + 1, 0);
    }
  }

  /** retryAfterMs is the least wait after which the next call is admitted. */
  lemma RetryIsLeastWait(times: seq<nat>, now: nat, retryAfterMs: nat, d: nat)
    requires FreshList(times, now) && |times| == MAX_REQUESTS
    requires retryAfterMs == WINDOW_MS - WrappedAge(now, times[0]) && d <= retryAfterMs
    ensures NotAfter(times, now + d) && (Decide(times, now + d).1 <==> d == retryAfterMs)
  {
    hide WrappedAge, Evict, Ordered, AllFresh, NotAfter;
    FreshMember(times, now, 0);
    AgeReaches(now, times[0], d);
    var left := LaterList(times, now, now + d);
    if d < retryAfterMs { EvictStops(times, now + d); } else { EvictOneMore(times, now + d); }
  }

  /** The age a fresh request shows reaches a window after exactly the wait that it lacks. */
  lemma AgeReaches(now: nat, start: nat, d: nat)
    requires start <= now < start + WINDOW_MS && d <= WINDOW_MS - WrappedAge(now, start)
    ensures WrappedAge(now + d, start) >= WINDOW_MS <==> d == WINDOW_MS - WrappedAge(now, start)
  {
    AgeFacts(now, start);
    AgeFacts(now + d, start);
  }

  /** Any two admissions a full ring apart are at least a window apart. */
  predicate Spaced(times: seq<nat>) {
    forall i, j :: 0 <= i && i + MAX_REQUESTS <= j < |times| ==> times[i] + WINDOW_MS <= times[j]
  }

  function CountIn(times: seq<nat>, lo: nat): nat {
    if times == [] then 0
    else CountIn(times[..|times| - 1], lo) + (if lo <= times[|times| - 1] < lo + 60000 then 1 else 0)
  }

  lemma {:induction false} CountFrom(times: seq<nat>, lo: nat, first: nat)
    requires forall k :: 0 <= k < |times| && lo <= times[k] < lo + WINDOW_MS ==> first <= k < first + MAX_REQUESTS
    ensures CountIn(times, lo) <= MAX_REQUESTS
    ensures CountIn(times, lo) <= if |times| > first then |times| - first else 0
    decreases |times|
  {
    if times != [] {
      CountFrom(times[..|times| - 1], lo, first);
    }
  }

  function FirstAtLeast(times: seq<nat>, lo: nat): (k: nat)
    requires Ordered(times)
    ensures k <= |times| && forall m :: 0 <= m < |times| ==> (lo <= times[m] <==> k <= m)
  {
    if times == [] || times[|times| - 1] < lo then |times| else FirstAtLeast(times[..|times| - 1], lo)
  }

  /** No window of 60000 ms holds more than 120 admissions. */
  lemma WindowNeverOverfull(times: seq<nat>, lo: nat)
    requires Ordered(times) && Spaced(times)
    ensures CountIn(times, lo) <= MAX_REQUESTS
  {
    var k := FirstAtLeast(times, lo);
    forall m | k + MAX_REQUESTS <= m < |times|
      ensures lo + WINDOW_MS <= times[m]
    {
      assert times[k] + WINDOW_MS <= times[m];
    }
    CountFrom(times, lo, k);
  }

  // ------------------------------------------------------------- the ring

  class SlidingWindowRateLimiter {
    const timestamps: array<nat>
    var head: nat
    var count: nat
    ghost var listed: seq<nat>      // real times of the requests in the ring
    ghost var admitted: seq<nat>    // real times of every admission so far
    ghost var last: nat             // real time of the latest call

    ghost predicate Valid()
      reads this, timestamps
    {
      timestamps.Length == MAX_REQUESTS && head < MAX_REQUESTS && RingHolds() && HistoryOk(admitted, listed, last)
    }

    ghost predicate RingHolds()
      reads this`head, this`count, this`listed, timestamps
    {
      && timestamps.Length == MAX_REQUESTS
      && count == |listed| <= MAX_REQUESTS
      && forall i :: 0 <= i < count ==> timestamps[Slot(head, i)] == listed[i] % TWO_32
    }

    constructor ()
      ensures Valid() && fresh(timestamps) && listed == [] && admitted == [] && last == 0
    {
      timestamps := new nat[MAX_REQUESTS](_ => 0);
      head, count, listed, admitted, last := 0, 0, [], [], 0;
    }

    method EvictExpired(nowMs: nat, ghost now: nat)
      requires RingHolds() && head < MAX_REQUESTS && nowMs == now % TWO_32 && NotAfter(listed, now)
      modifies `head, `count, `listed
      ensures head < MAX_REQUESTS && RingHolds() && listed == Evict(old(listed), now)
    {
      hide WrappedAge, Slot, ElapsedMs, NotAfter, Evict, RingHolds, Expired;
      RingCount();
      while count > 0 && Expired(nowMs)
        invariant head < MAX_REQUESTS && RingHolds() && timestamps.Length == MAX_REQUESTS && count == |listed|
        invariant NotAfter(listed, now) && NotAfter(old(listed), now) && Evict(listed, now) == Evict(old(listed), now)
        decreases count
      {
        ExpiredMeans(nowMs, now);
        EvictOneMore(listed, now);
        DropOldest();
        RingCount();
      }
      if count > 0 { ExpiredMeans(nowMs, now); }
      EvictStops(listed, now);
    }

    /** One step of the loop: head moves on and the list loses its first. */
    method DropOldest()
      requires RingHolds() && head < MAX_REQUESTS && count > 0
      modifies `head, `count, `listed
      ensures head < MAX_REQUESTS && RingHolds() && count == old(count) - 1 && listed == old(listed)[1..]
    {
      hide Slot;
      forall i | 0 <= i < count - 1 ensures Slot(Slot(head, 1), i) == Slot(head, i + 1) { SlotFacts(head, i, 0); }
      head := Slot(head, 1);
      count := count - 1;
      listed := listed[1..];
    }

    /** The eviction test on the oldest request. */
    predicate Expired(nowMs: nat)
      requires nowMs < TWO_32 && timestamps.Length == MAX_REQUESTS && head < MAX_REQUESTS
      reads this, timestamps
    {
      timestamps[head] < TWO_32 && ElapsedMs(nowMs, timestamps[head]) >= WINDOW_MS
    }

    lemma ExpiredMeans(nowMs: nat, now: nat)
      requires RingHolds() && head < MAX_REQUESTS && count == |listed| > 0 && nowMs == now % TWO_32
      requires timestamps.Length == MAX_REQUESTS && NotAfter(listed, now)
      ensures listed[0] <= now && timestamps[head] < TWO_32
      ensures ElapsedMs(nowMs, timestamps[head]) == WrappedAge(now, listed[0])
      ensures Expired(nowMs) <==> WrappedAge(now, listed[0]) >= WINDOW_MS
    {
      SlotFacts(head, 0, 0);
      assert timestamps[Slot(head, 0)] == listed[0] % TWO_32;
      ElapsedIsWrappedAge(now, listed[0]);
    }

    lemma RingCount()
      requires RingHolds()
      ensures timestamps.Length == MAX_REQUESTS && count == |listed| <= MAX_REQUESTS
    {
    }

    /** One call at real time `now`, of which the code sees only the low 32 bits. */
    method Evaluate(nowMs: nat, ghost now: nat) returns (decision: Decision)
      requires Valid() && nowMs == now % TWO_32 && last <= now
      modifies this, timestamps
      ensures Valid() && last == now
      ensures NotAfter(old(listed), now) && (listed, decision.allowed) == Decide(old(listed), now)
      ensures admitted == if decision.allowed then old(admitted) + [now] else old(admitted)
      ensures decision.requestCount == |listed|
      ensures decision.allowed ==> decision.retryAfterMs == 0
      ensures !decision.allowed ==>
                && |listed| == MAX_REQUESTS && listed[0] <= now
                && decision.retryAfterMs == WINDOW_MS - WrappedAge(now, listed[0]) > 0
      // after a safe gap, and from an empty ring after any gap, an exact ring is exact again
      ensures AllFresh(old(listed), old(last)) && (SafeGap(now - old(last)) || old(listed) == []) ==>
                AllFresh(listed, now)
    {
      hide WrappedAge, Slot, ElapsedMs, NotAfter, AllFresh, RingHolds, HistoryOk, SafeGap;
      ghost var before := listed;
      Prune(nowMs, now);
      RingCount();
      hide Evict;
      if count >= MAX_REQUESTS {
        OldestNotAfter(listed, before, now);
        ExpiredMeans(nowMs, now);
        return Decision(false, WINDOW_MS - ElapsedMs(nowMs, timestamps[head]), count);
      }
      FreshPlusNow(listed, now);
      AdmissionKeepsHistory(admitted, listed, now);
      Admit(nowMs, now);
      RingCount();
      admitted := admitted + [now];
      return Decision(true, 0, count);
    }

    /** The eviction that starts each call, and what it means for the history. */
    method Prune(nowMs: nat, ghost now: nat)
      requires Valid() && nowMs == now % TWO_32 && last <= now
      modifies `head, `count, `listed, `last
      ensures Valid() && last == now
      ensures NotAfter(old(listed), now) && listed == Evict(old(listed), now)
      ensures AllFresh(old(listed), old(last)) && (SafeGap(now - old(last)) || old(listed) == []) ==>
                AllFresh(listed, now)
    {
      hide WrappedAge, Slot, ElapsedMs, Evict, NotAfter, Ordered, AllFresh, RingHolds, HistoryOk, SafeGap;
      ghost var before := listed;
      EvictionKeepsHistory(admitted, before, last, now);
      EvictExpired(nowMs, now);
      if AllFresh(before, last) && (SafeGap(now - last) || before == []) {
        EvictIsExact(before, last, now);
      }
      last := now;
    }

    method Admit(nowMs: nat, ghost now: nat)
      requires RingHolds() && head < MAX_REQUESTS && count < MAX_REQUESTS && nowMs == now % TWO_32
      modifies `count, `listed, timestamps
      ensures RingHolds() && listed == old(listed) + [now]
    {
      hide Slot;
      forall i | 0 <= i < count ensures Slot(head, i) != Slot(head, count) { SlotFacts(head, i, count); }
      timestamps[Slot(head, count)] := nowMs;
      count := count + 1;
      listed := listed + [now];
    }
  }

  predicate SuffixOf(tail: seq<nat>, whole: seq<nat>) {
    |tail| <= |whole| && tail == whole[|whole| - |tail|..]
  }

  lemma SuffixAt(tail: seq<nat>, whole: seq<nat>, i: nat)
    requires SuffixOf(tail, whole) && i < |tail|
    ensures tail[i] == whole[|whole| - |tail| + i]
  {}

  lemma SuffixFacts(tail: seq<nat>, whole: seq<nat>, last: nat)
    requires SuffixOf(tail, whole) && Ordered(whole) && NotAfter(whole, last)
    ensures Ordered(tail) && NotAfter(tail, last)
  {}

  lemma SuffixTrans(a: seq<nat>, b: seq<nat>, c: seq<nat>)
    requires SuffixOf(a, b) && SuffixOf(b, c)
    ensures SuffixOf(a, c)
  {
    assert c[|c| - |b|..][|b| - |a|..] == c[|c| - |a|..];
  }

  /** Everything before the listed requests is at least a window old. */
  predicate DroppedAreOld(admitted: seq<nat>, listed: nat, now: nat) {
    forall i :: 0 <= i < |admitted| - listed ==> admitted[i] + WINDOW_MS <= now
  }

  lemma EvictKeepsDroppedOld(admitted: seq<nat>, listed: seq<nat>, last: nat, now: nat)
    requires SuffixOf(listed, admitted) && NotAfter(listed, now) && last <= now
    requires DroppedAreOld(admitted, |listed|, last)
    ensures DroppedAreOld(admitted, |Evict(listed, now)|, now)
  {
    var left := Evict(listed, now);
    forall i | 0 <= i < |admitted| - |left| ensures admitted[i] + WINDOW_MS <= now {
      var gone := |admitted| - |listed|;
      if i >= gone {
        SuffixAt(listed, admitted, i - gone);
        EvictedAreOld(listed, now, i - gone);
      }
    }
  }

  lemma AdmissionKeepsSpacing(admitted: seq<nat>, listed: nat, now: nat)
    requires Spaced(admitted) && DroppedAreOld(admitted, listed, now) && listed < MAX_REQUESTS
    ensures Spaced(admitted + [now])
  {}

  lemma OldestNotAfter(left: seq<nat>, times: seq<nat>, now: nat)
    requires NotAfter(times, now) && left == Evict(times, now) && left != []
    ensures NotAfter(left, now) && left[0] <= now && WrappedAge(now, left[0]) < WINDOW_MS
  {}

  lemma FreshPlusNow(listed: seq<nat>, now: nat)
    ensures AllFresh(listed, now) ==> AllFresh(listed + [now], now)
  {}

  /** The listed requests are the end of the history, and all before them are old. */
  predicate HistoryOk(admitted: seq<nat>, listed: seq<nat>, last: nat) {
    && Ordered(admitted) && NotAfter(admitted, last) && Spaced(admitted)
    && SuffixOf(listed, admitted) && DroppedAreOld(admitted, |listed|, last)
  }

  /** What eviction at `now` means for the whole history. */
  lemma EvictionKeepsHistory(admitted: seq<nat>, listed: seq<nat>, last: nat, now: nat)
    requires HistoryOk(admitted, listed, last) && last <= now
    ensures NotAfter(listed, now) && Ordered(listed) && NotAfter(listed, last)
    ensures HistoryOk(admitted, Evict(listed, now), now)
  {
    SuffixFacts(listed, admitted, last);
    EvictKeepsDroppedOld(admitted, listed, last, now);
    SuffixTrans(Evict(listed, now), listed, admitted);
  }

  lemma AdmissionKeepsHistory(admitted: seq<nat>, listed: seq<nat>, now: nat)
    requires HistoryOk(admitted, listed, now) && |listed| < MAX_REQUESTS
    ensures HistoryOk(admitted + [now], listed + [now], now)
  {
    AdmissionKeepsSpacing(admitted, |listed|, now);
  }

  /** With an exact ring, it lists precisely the admissions of the last window. */
  lemma RingListsLastWindow(limiter: SlidingWindowRateLimiter, i: nat)
    requires limiter.Valid() && AllFresh(limiter.listed, limiter.last) && i < |limiter.admitted|
    ensures limiter.last < limiter.admitted[i] + WINDOW_MS <==> i >= |limiter.admitted| - |limiter.listed|
  {
    var gone := |limiter.admitted| - |limiter.listed|;
    if i >= gone { assert limiter.listed[i - gone] == limiter.admitted[i]; }
  }

  // ------------------------------------------------ a whole run of calls

  /** How many of these admissions are less than a window old. */
  function RecentCount(times: seq<nat>, now: nat): nat {
    if times == [] then 0
    else RecentCount(times[..|times| - 1], now) + if now < times[|times| - 1] + 60000 then 1 else 0
  }

  /** The limit as it is meant, on real time: fewer than 120 admissions in the last window. */
  function Allows(admitted: seq<nat>, now: nat): bool {
    RecentCount(admitted, now) < 120
  }

  /** What the limit as meant admits of a run of calls. */
  function Admissions(calls: seq<nat>): seq<nat> {
    if calls == [] then []
    else
      var before, now := Admissions(calls[..|calls| - 1]), calls[|calls| - 1];
      if Allows(before, now) then before + [now] else before
  }

  /** Admissions that are old do not count; the rest count at most once each, and all if fresh. */
  lemma {:induction false} RecentSplit(dropped: seq<nat>, kept: seq<nat>, now: nat)
    requires forall i :: 0 <= i < |dropped| ==> dropped[i] + WINDOW_MS <= now
    ensures RecentCount(dropped + kept, now) <= |kept|
    ensures AllFresh(kept, now) ==> RecentCount(dropped + kept, now) == |kept|
    decreases |dropped| + |kept|
  {
    var all := dropped + kept;
    if kept != [] {
      assert all[..|all| - 1] == dropped + kept[..|kept| - 1];
      RecentSplit(dropped, kept[..|kept| - 1], now);
    } else if dropped != [] {
      var front := dropped[..|dropped| - 1];
      assert all[..|all| - 1] == front + [];
      RecentSplit(front, [], now);
    }
  }

  /** With an exact ring, what it lists is what the limit counts. */
  lemma RingCountsRecent(admitted: seq<nat>, listed: seq<nat>, now: nat)
    requires HistoryOk(admitted, listed, now) && AllFresh(listed, now)
    ensures RecentCount(admitted, now) == |listed|
  {
    var gone := |admitted| - |listed|;
    assert admitted == admitted[..gone] + listed;
    RecentSplit(admitted[..gone], listed, now);
  }

  /** The ring's decision after a safe gap is the limit as meant. */
  lemma ExactDecision(admitted: seq<nat>, listed: seq<nat>, last: nat, now: nat)
    requires HistoryOk(admitted, listed, last) && AllFresh(listed, last) && last <= now
    requires SafeGap(now - last) || listed == []
    ensures NotAfter(listed, now) && (Decide(listed, now).1 <==> Allows(admitted, now))
  {
    hide HistoryOk, AllFresh, NotAfter, Ordered, SafeGap, RecentCount, WrappedAge, Evict;
    EvictionKeepsHistory(admitted, listed, last, now);
    EvictIsExact(listed, last, now);
    RingCountsRecent(admitted, Evict(listed, now), now);
  }

  /** With a full exact ring, the least wait is what its oldest request lacks of a window. */
  lemma LeastWait(admitted: seq<nat>, listed: seq<nat>, now: nat, later: nat)
    requires HistoryOk(admitted, listed, now) && AllFresh(listed, now) && |listed| == MAX_REQUESTS
    requires now <= later <= listed[0] + WINDOW_MS
    ensures Allows(admitted, later) <==> later == listed[0] + WINDOW_MS
  {
    var gone := |admitted| - |listed|;
    SuffixFacts(listed, admitted, now);
    var dropped := admitted[..gone];
    assert admitted == dropped + listed;
    hide RecentCount, SuffixOf, Spaced;
    if later < listed[0] + WINDOW_MS {
      FreshFrom(listed, 0, later);
      assert listed[0..] == listed;
      RecentSplit(dropped, listed, later);
    } else {
      assert dropped + listed == (dropped + [listed[0]]) + listed[1..];
      RecentSplit(dropped + [listed[0]], listed[1..], later);
    }
  }

  predicate SafeGaps(calls: seq<nat>)
    requires Ordered(calls)
  {
    forall i, j :: 0 <= i < |calls| && j == i + 1 < |calls| ==> SafeGap(calls[j] - calls[i])
  }

  /** The decision on the last of these calls, and the wait it asks for, are those of the limit as meant. */
  ghost predicate MeetsLimit(calls: seq<nat>, decision: Decision) {
    calls != [] ==>
      var past, now := calls[..|calls| - 1], calls[|calls| - 1];
      && (decision.allowed <==> Allows(Admissions(past), now))
      && (!decision.allowed ==>
            forall later :: now <= later <= now + decision.retryAfterMs ==>
              (Allows(Admissions(calls), later) <==> later == now + decision.retryAfterMs))
  }

  /** What the code lists after a run of calls. */
  function Ring(calls: seq<nat>): (listed: seq<nat>)
    requires Ordered(calls)
    ensures if calls == [] then listed == [] else NotAfter(listed, calls[|calls| - 1])
  {
    if calls == [] then []
    else
      var past, now := calls[..|calls| - 1], calls[|calls| - 1];
      OrderedPast(calls);
      LaterStill(Ring(past), if past == [] then now else past[|past| - 1], now);
      DecideNotAfter(Ring(past), now);
      Decide(Ring(past), now).0
  }

  lemma OrderedPast(calls: seq<nat>)
    requires calls != [] && Ordered(calls)
    ensures var past := calls[..|calls| - 1];
            Ordered(past) && (past != [] ==> past[|past| - 1] <= calls[|calls| - 1])
  {}

  lemma LaterStill(times: seq<nat>, last: nat, now: nat)
    requires (times == [] || NotAfter(times, last)) && last <= now
    ensures NotAfter(times, now)
  {}

  lemma DecideNotAfter(times: seq<nat>, now: nat)
    requires NotAfter(times, now)
    ensures NotAfter(Decide(times, now).0, now)
  {}

  /** Whether the code admits a call at this time after the others. */
  predicate RingAllows(calls: seq<nat>, now: nat)
    requires Ordered(calls + [now])
  {
    assert (calls + [now])[..|calls|] == calls && (calls + [now])[|calls|] == now;
    RingLater(calls, now);
    Decide(Ring(calls), now).1
  }

  lemma RingLater(calls: seq<nat>, now: nat)
    requires Ordered(calls + [now])
    ensures Ordered(calls) && NotAfter(Ring(calls), now)
    ensures Ring(calls + [now]) == Decide(Ring(calls), now).0
  {
    var calls' := calls + [now];
    assert calls'[..|calls|] == calls && calls'[|calls|] == now;
    assert forall i :: 0 <= i < |calls| ==> calls[i] == calls'[i];
    if calls != [] { assert calls'[|calls| - 1] <= calls'[|calls|]; }
  }

  /** The calls that were let through. */
  function LetThrough(calls: seq<nat>, decisions: seq<Decision>): seq<nat>
    requires |calls| == |decisions|
  {
    if calls == [] then []
    else
      var n := |calls| - 1;
      LetThrough(calls[..n], decisions[..n]) + if decisions[n].allowed then [calls[n]] else []
  }

  /** What Evaluate promises of one call, as a relation between the states around it. */
  ghost predicate Evaluated(admitted: seq<nat>, listed: seq<nat>, last: nat, now: nat,
                            admitted': seq<nat>, listed': seq<nat>, decision: Decision) {
    && last <= now && NotAfter(listed, now) && (listed', decision.allowed) == Decide(listed, now)
    && admitted' == (if decision.allowed then admitted + [now] else admitted)
    && HistoryOk(admitted, listed, last) && HistoryOk(admitted', listed', now)
    && (AllFresh(listed, last) && (SafeGap(now - last) || listed == []) ==> AllFresh(listed', now))
    && (!decision.allowed ==>
          && |listed'| == MAX_REQUESTS && listed'[0] <= now
          && decision.retryAfterMs == WINDOW_MS - WrappedAge(now, listed'[0]))
  }

  lemma LastGap(calls: seq<nat>)
    requires calls != [] && Ordered(calls) && SafeGaps(calls)
    ensures SafeGaps(calls[..|calls| - 1])
    ensures |calls| > 1 ==> calls[|calls| - 2] <= calls[|calls| - 1] && SafeGap(calls[|calls| - 1] - calls[|calls| - 2])
  {}

  /** What one call of a run of safe gaps gives. */
  lemma ServeStep(calls: seq<nat>, admitted: seq<nat>, listed: seq<nat>, last: nat,
                  admitted': seq<nat>, listed': seq<nat>, decision: Decision)
    requires calls != [] && Ordered(calls) && SafeGaps(calls)
    requires if |calls| == 1 then listed == [] else last == calls[|calls| - 2]
    requires SafeGaps(calls[..|calls| - 1]) ==> AllFresh(listed, last) && admitted == Admissions(calls[..|calls| - 1])
    requires Evaluated(admitted, listed, last, calls[|calls| - 1], admitted', listed', decision)
    ensures MeetsLimit(calls, decision)
    ensures AllFresh(listed', calls[|calls| - 1]) && admitted' == Admissions(calls)
  {
    hide SafeGaps, SafeGap, HistoryOk, Allows, Decide, Ordered, AllFresh, NotAfter, WrappedAge;
    var now := calls[|calls| - 1];
    LastGap(calls);
    ExactDecision(admitted, listed, last, now);
    if !decision.allowed { RefusalNamesLeastWait(admitted', listed', now, decision.retryAfterMs); }
  }

  lemma RefusalNamesLeastWait(admitted: seq<nat>, listed: seq<nat>, now: nat, wait: nat)
    requires HistoryOk(admitted, listed, now) && AllFresh(listed, now) && |listed| == MAX_REQUESTS
    requires listed[0] <= now && wait == WINDOW_MS - WrappedAge(now, listed[0])
    ensures forall later :: now <= later <= now + wait ==> (Allows(admitted, later) <==> later == now + wait)
  {
    AgeFacts(now, listed[0]);
    hide HistoryOk, Allows, WrappedAge;
    forall later | now <= later <= now + wait ensures Allows(admitted, later) <==> later == now + wait {
      LeastWait(admitted, listed, now, later);
    }
  }

  /** Where a limiter stands after these calls and decisions. */
  ghost predicate Tracks(calls: seq<nat>, decisions: seq<Decision>, admitted: seq<nat>, listed: seq<nat>, last: nat) {
    && Ordered(calls) && |calls| == |decisions|
    && listed == Ring(calls) && (calls != [] ==> last == calls[|calls| - 1])
    && admitted == LetThrough(calls, decisions)
    && (SafeGaps(calls) ==> AllFresh(listed, last) && admitted == Admissions(calls))
    && AllDecidedWell(calls, decisions)
  }

  /** The last call was decided as the code does, and as the limit is meant if all gaps were safe. */
  ghost predicate DecidedWell(calls: seq<nat>, decision: Decision)
    requires Ordered(calls)
  {
    && (calls != [] ==>
          var past, now := calls[..|calls| - 1], calls[|calls| - 1];
          assert past + [now] == calls;
          decision.allowed <==> RingAllows(past, now))
    && (SafeGaps(calls) ==> MeetsLimit(calls, decision))
  }

  ghost predicate AllDecidedWell(calls: seq<nat>, decisions: seq<Decision>)
    requires Ordered(calls) && |calls| == |decisions|
  {
    forall i :: 0 <= i < |calls| ==> DecidedWell(calls[..i + 1], decisions[i])
  }

  lemma MoreDecidedWell(calls: seq<nat>, decisions: seq<Decision>, now: nat, decision: Decision)
    requires Ordered(calls) && Ordered(calls + [now]) && |calls| == |decisions| && AllDecidedWell(calls, decisions)
    requires DecidedWell(calls + [now], decision)
    ensures AllDecidedWell(calls + [now], decisions + [decision])
  {
    hide DecidedWell;
    var calls', decisions' := calls + [now], decisions + [decision];
    forall i | 0 <= i < |calls'| ensures DecidedWell(calls'[..i + 1], decisions'[i]) {
      if i < |calls| {
        assert calls'[..i + 1] == calls[..i + 1];
      } else {
        assert calls'[..i + 1] == calls';
      }
    }
  }

  lemma LetThroughStep(calls: seq<nat>, decisions: seq<Decision>, now: nat, decision: Decision)
    requires |calls| == |decisions|
    ensures LetThrough(calls + [now], decisions + [decision]) ==
            LetThrough(calls, decisions) + if decision.allowed then [now] else []
  {
    assert (calls + [now])[..|calls|] == calls && (decisions + [decision])[..|calls|] == decisions;
  }

  lemma TracksStep(calls: seq<nat>, decisions: seq<Decision>, admitted: seq<nat>, listed: seq<nat>, last: nat,
                   now: nat, admitted': seq<nat>, listed': seq<nat>, decision: Decision)
    requires Tracks(calls, decisions, admitted, listed, last) && Ordered(calls + [now])
    requires Evaluated(admitted, listed, last, now, admitted', listed', decision)
    ensures Tracks(calls + [now], decisions + [decision], admitted', listed', now)
  {
    hide SafeGaps, MeetsLimit, AllDecidedWell, AllFresh, Admissions, Ordered, HistoryOk, NotAfter, Decide, SafeGap,
         WrappedAge, LetThrough, Ring;
    var calls' := calls + [now];
    assert calls'[..|calls'| - 1] == calls && calls'[|calls'| - 1] == now;
    assert |calls| > 0 ==> calls'[|calls'| - 2] == last;
    NothingListed();
    RingLater(calls, now);
    if SafeGaps(calls') { ServeStep(calls', admitted, listed, last, admitted', listed', decision); }
    LetThroughStep(calls, decisions, now, decision);
    MoreDecidedWell(calls, decisions, now, decision);
  }

  lemma NothingListed()
    ensures Ring([]) == [] && Admissions([]) == []
  {}

  lemma TracksNothing()
    ensures Tracks([], [], [], [], 0)
  {}

  lemma OrderedPrefix(calls: seq<nat>, i: nat)
    requires Ordered(calls) && i < |calls|
    ensures Ordered(calls[..i + 1]) && calls[..i + 1] == calls[..i] + [calls[i]]
    ensures i > 0 ==> calls[..i][i - 1] <= calls[i]
  {}

  /**
   A new limiter over any run of calls at non-decreasing real times. It decides as
   its list does, and whatever the gaps no window lets more than 120 through. As
   long as the gaps were safe, each decision is that of the limit on real time, and
   a refusal names the least wait.
   */
  method Serve(calls: seq<nat>) returns (decisions: seq<Decision>)
    requires Ordered(calls)
    ensures |decisions| == |calls|
    ensures forall lo :: CountIn(LetThrough(calls, decisions), lo) <= 120
    ensures AllDecidedWell(calls, decisions)
  {
    hide AllDecidedWell, Ring, SafeGaps, SafeGap, AllFresh, CountIn, Admissions, LetThrough, Ordered, Decide;
    hide HistoryOk, WrappedAge;
    var limiter := new SlidingWindowRateLimiter();
    decisions := [];
    TracksNothing();
    assert calls[..0] == [];
    for i := 0 to |calls|
      invariant limiter.Valid() && fresh(limiter) && fresh(limiter.timestamps)
      invariant Tracks(calls[..i], decisions, limiter.admitted, limiter.listed, limiter.last)
      invariant i == 0 ==> limiter.last == 0
    {
      OrderedPrefix(calls, i);
      ghost var admitted, listed, last := limiter.admitted, limiter.listed, limiter.last;
      var decision := limiter.Evaluate(calls[i] % TWO_32, calls[i]);
      TracksStep(calls[..i], decisions, admitted, listed, last, calls[i], limiter.admitted, limiter.listed, decision);
      decisions := decisions + [decision];
    }
    assert calls[..|calls|] == calls;
    forall lo ensures CountIn(LetThrough(calls, decisions), lo) <= 120 { LimitHolds(limiter, lo); }
  }

  /** Whatever the clock and the callers do, no window is ever overfull. */
  lemma LimitHolds(limiter: SlidingWindowRateLimiter, lo: nat)
    requires limiter.Valid()
    ensures CountIn(limiter.admitted, lo) <= 120
  {
    WindowNeverOverfull(limiter.admitted, lo);
  }

  // ------------------------------------------------ exactly which gaps are safe

  /** After a run of safe gaps the ring is an exact list of the admissions as meant. */
  lemma {:induction false} SafeRunIsExact(calls: seq<nat>)
    requires calls != [] && Ordered(calls) && SafeGaps(calls)
    ensures HistoryOk(Admissions(calls), Ring(calls), calls[|calls| - 1])
    ensures AllFresh(Ring(calls), calls[|calls| - 1])
    decreases |calls|
  {
    hide SafeGaps, SafeGap, HistoryOk, Allows, AllFresh, NotAfter, Ordered, RecentCount, Ring, Admissions, Decide,
         Evict, WrappedAge;
    var past, now := calls[..|calls| - 1], calls[|calls| - 1];
    assert past + [now] == calls;
    RingLater(past, now);
    AdmissionsLater(past, now);
    LastGap(calls);
    if past == [] {
      NothingListed();
      NoHistory();
      ExactStep([], [], 0, now);
    } else {
      SafeRunIsExact(past);
      ExactStep(Admissions(past), Ring(past), past[|past| - 1], now);
    }
  }

  lemma AdmissionsLater(calls: seq<nat>, now: nat)
    ensures var before := Admissions(calls);
            Admissions(calls + [now]) == if Allows(before, now) then before + [now] else before
  {
    assert (calls + [now])[..|calls|] == calls;
  }

  lemma NoHistory()
    ensures HistoryOk([], [], 0) && AllFresh([], 0)
  {}

  /** One call after a safe gap leaves exact what was exact. */
  lemma ExactStep(admitted: seq<nat>, listed: seq<nat>, last: nat, now: nat)
    requires HistoryOk(admitted, listed, last) && AllFresh(listed, last) && last <= now
    requires SafeGap(now - last) || listed == []
    ensures NotAfter(listed, now) && (Decide(listed, now).1 <==> Allows(admitted, now))
    ensures var admitted' := if Allows(admitted, now) then admitted + [now] else admitted;
            HistoryOk(admitted', Decide(listed, now).0, now) && AllFresh(Decide(listed, now).0, now)
  {
    hide SafeGap, HistoryOk, Allows, AllFresh, NotAfter, Ordered, Evict, WrappedAge;
    ExactDecision(admitted, listed, last, now);
    EvictionKeepsHistory(admitted, listed, last, now);
    EvictIsExact(listed, last, now);
    var left := Evict(listed, now);
    FreshPlusNow(left, now);
    if |left| < MAX_REQUESTS { AdmissionKeepsHistory(admitted, left, now); }
  }

  lemma YoungGaps(calls: seq<nat>)
    requires Ordered(calls) && NotAfter(calls, WINDOW_MS - 1)
    ensures SafeGaps(calls)
  {}

  lemma YoungPast(calls: seq<nat>)
    requires calls != [] && Ordered(calls) && NotAfter(calls, WINDOW_MS - 1)
    ensures var past, now := calls[..|calls| - 1], calls[|calls| - 1];
            && past + [now] == calls && Ordered(past) && NotAfter(past, WINDOW_MS - 1) && NotAfter(past, now)
            && (past != [] ==> past[0] <= now < past[0] + WINDOW_MS)
  {}

  lemma YoungStep(past: seq<nat>, now: nat)
    requires NotAfter(past, now) && |past| < MAX_REQUESTS && (past != [] ==> past[0] <= now < past[0] + WINDOW_MS)
    ensures Decide(past, now) == (past + [now], true) && Allows(past, now)
  {
    if past != [] { AgeFacts(now, past[0]); }
    hide WrappedAge, RecentCount, NotAfter;
    EvictStops(past, now);
    hide Evict;
    RecentSplit([], past, now);
    assert [] + past == past;
  }

  /** A run no longer than the limit and within one window is admitted whole and stays listed. */
  lemma {:induction false} YoungRun(calls: seq<nat>)
    requires Ordered(calls) && |calls| <= MAX_REQUESTS && NotAfter(calls, WINDOW_MS - 1)
    ensures Ring(calls) == calls && Admissions(calls) == calls
    decreases |calls|
  {
    if calls != [] {
      hide Ordered, NotAfter, Ring, Decide, Allows;
      var past, now := calls[..|calls| - 1], calls[|calls| - 1];
      YoungPast(calls);
      YoungRun(past);
      YoungStep(past, now);
      RingLater(past, now);
    }
  }

  /** Every call but the last at once, and the last somewhat later. */
  function Burst(n: nat, last: nat): (calls: seq<nat>)
    ensures |calls| == n + 1 && calls[n] == last && calls == calls[..n] + [last]
    ensures forall i :: 0 <= i < n ==> calls[i] == 0
  {
    seq(n, _ => 0) + [last]
  }

  lemma BurstFacts(n: nat, last: nat, later: nat)
    requires 0 < n && last < WINDOW_MS <= later && last <= later
    ensures var calls := Burst(n, last);
            && Ordered(calls) && NotAfter(calls, WINDOW_MS - 1) && NotAfter(calls, later)
            && Ordered(calls + [later]) && !AllFresh(calls, later)
  {
    var calls := Burst(n, last);
    assert !(later < calls[0] + WINDOW_MS);
  }

  /** After an unsafe gap, such a run leaves its expired first request listed. */
  lemma BurstSurvives(n: nat, gap: nat, last: nat)
    requires 0 < n < MAX_REQUESTS && last < WINDOW_MS <= last + gap && WrappedAge(last + gap, 0) < WINDOW_MS
    ensures var calls := Burst(n, last);
            && Ordered(calls) && SafeGaps(calls) && Ring(calls) == calls == Admissions(calls)
            && Ordered(calls + [last + gap]) && NotAfter(calls, last + gap) && Evict(calls, last + gap) == calls
            && !AllFresh(calls, last + gap)
  {
    hide Burst, SafeGaps, WrappedAge, Evict, Ordered, NotAfter, AllFresh, Ring, Admissions;
    var calls := Burst(n, last);
    BurstFacts(n, last, last + gap);
    YoungGaps(calls);
    YoungRun(calls);
    EvictStops(calls, last + gap);
  }

  /** What follows a run after a gap. */
  function After(calls: seq<nat>, gap: nat): nat
    requires calls != []
  {
    calls[|calls| - 1] + gap
  }

  lemma AfterIsLater(calls: seq<nat>, gap: nat)
    requires calls != [] && Ordered(calls)
    ensures Ordered(calls + [After(calls, gap)]) && NotAfter(Ring(calls), After(calls, gap))
  {
    assert Ordered(calls + [After(calls, gap)]);
    RingLater(calls, After(calls, gap));
  }

  /** A run of calls that was decided well so far. */
  predicate SafeRun(calls: seq<nat>) {
    calls != [] && Ordered(calls) && SafeGaps(calls)
  }

  /** Eviction after this gap leaves only requests of the last window, whatever safe run came before. */
  ghost predicate EvictsExactlyAfter(gap: nat) {
    forall calls :: SafeRun(calls) ==>
      (AfterIsLater(calls, gap); AllFresh(Evict(Ring(calls), After(calls, gap)), After(calls, gap)))
  }

  /** The call after this gap is decided as the limit is meant, whatever safe run came before. */
  ghost predicate DecidesRightAfter(gap: nat) {
    forall calls :: SafeRun(calls) ==>
      (AfterIsLater(calls, gap); RingAllows(calls, After(calls, gap)) <==> Allows(Admissions(calls), After(calls, gap)))
  }

  /** After every unsafe gap some run finds an expired request still listed, */
  lemma UnsafeGapKeepsExpired(gap: nat) returns (calls: seq<nat>)
    requires !SafeGap(gap)
    ensures SafeRun(calls) && Ordered(calls + [After(calls, gap)]) && NotAfter(Ring(calls), After(calls, gap))
    ensures !AllFresh(Evict(Ring(calls), After(calls, gap)), After(calls, gap))
  {
    hide SafeGap, WrappedAge, Evict, AllFresh, Ordered, NotAfter, SafeGaps;
    var last := UnsafeGapHidesAge(gap);
    BurstSurvives(1, gap, last);
    calls := Burst(1, last);
  }

  /** and some run is refused although the limit as meant would admit it. */
  lemma UnsafeGapRefusesWrongly(gap: nat) returns (calls: seq<nat>)
    requires !SafeGap(gap)
    ensures SafeRun(calls) && Ordered(calls + [After(calls, gap)])
    ensures !RingAllows(calls, After(calls, gap)) && Allows(Admissions(calls), After(calls, gap))
  {
    hide SafeGap, WrappedAge, Evict, AllFresh, Ordered, NotAfter, SafeGaps, RecentCount;
    var n := MAX_REQUESTS - 1;
    var last := UnsafeGapHidesAge(gap);
    BurstSurvives(n, gap, last);
    calls := Burst(n, last);
    RecentSplit(calls[..n], [last], last + gap);
  }

  lemma SafeGapEvictsExactly(calls: seq<nat>, gap: nat)
    requires SafeRun(calls) && SafeGap(gap)
    ensures NotAfter(Ring(calls), After(calls, gap))
    ensures AllFresh(Evict(Ring(calls), After(calls, gap)), After(calls, gap))
  {
    hide SafeGap, Evict, AllFresh, Ordered, NotAfter, SafeGaps, Ring, HistoryOk, Admissions, WrappedAge;
    var last := calls[|calls| - 1];
    SafeRunIsExact(calls);
    EvictionKeepsHistory(Admissions(calls), Ring(calls), last, last);
    AfterIsLater(calls, gap);
    EvictIsExact(Ring(calls), last, last + gap);
  }

  /** Eviction after a gap is exact for every run before it exactly if the gap is safe. */
  lemma ExactGaps(gap: nat)
    ensures EvictsExactlyAfter(gap) <==> SafeGap(gap)
  {
    hide SafeGap, Evict, AllFresh, Ordered, NotAfter, Ring, After, WrappedAge, SafeGaps;
    if SafeGap(gap) {
      forall calls | SafeRun(calls)
        ensures calls != [] && NotAfter(Ring(calls), After(calls, gap))
        ensures AllFresh(Evict(Ring(calls), After(calls, gap)), After(calls, gap))
      {
        SafeGapEvictsExactly(calls, gap);
      }
    } else {
      var calls := UnsafeGapKeepsExpired(gap);
    }
  }

  /** And so is the decision on the call that ends the gap. */
  lemma ExactDecisionGaps(gap: nat)
    ensures DecidesRightAfter(gap) <==> SafeGap(gap)
  {
    hide SafeGap, Evict, AllFresh, Ordered, NotAfter, SafeGaps, Ring, HistoryOk, Allows;
    if SafeGap(gap) {
      forall calls | SafeRun(calls)
        ensures Ordered(calls + [After(calls, gap)])
        ensures RingAllows(calls, After(calls, gap)) <==> Allows(Admissions(calls), After(calls, gap))
      {
        SafeRunIsExact(calls);
        AfterIsLater(calls, gap);
        ExactDecision(Admissions(calls), Ring(calls), calls[|calls| - 1], After(calls, gap));
      }
    } else {
      var calls := UnsafeGapRefusesWrongly(gap);
    }
  }
}
