/** The per-user rate limiter of `isRateLimited`: each user owns a fixed
    number of slots, each holding the Unix second at which it expires. A
    message is admitted when some slot has expired strictly before `now`; the
    lowest such slot is then renewed to `now + window`. */
module RateLimit {
  import opened Wrappers

  /** The lowest slot at or after `from` that is free at `now` (its expiry
      strictly before `now`), if any. */
  function FirstFreeFrom(slots: seq<int>, now: int, from: nat): (r: Option<nat>)
    requires from <= |slots|
    ensures r.Some? ==> from <= r.value < |slots| && slots[r.value] < now
    ensures r.Some? ==> forall j :: from <= j < r.value ==> slots[j] >= now
    ensures r.None? ==> forall j :: from <= j < |slots| ==> slots[j] >= now
    decreases |slots| - from
  {
    if from == |slots| then None
    else if slots[from] < now then Some(from)
    else FirstFreeFrom(slots, now, from + 1)
  }

  /** The outcome of one admission check: whether the message is refused,
      and the user's slots afterwards. */
  datatype Verdict = Verdict(limited: bool, slots: seq<int>)

  /** One admission check for a user whose slots are `entry` (None for a
      user never seen). A new user gets `maxRequests` slots, all zero but
      the first, and is admitted. */
  function Check(entry: Option<seq<int>>, now: int, window: int, maxRequests: int): (v: Verdict)
    requires entry.None? ==> maxRequests >= 1
    ensures entry.None? ==> !v.limited && |v.slots| == maxRequests && v.slots[0] == now + window
    ensures entry.None? ==> forall j :: 1 <= j < |v.slots| ==> v.slots[j] == 0
    ensures entry.Some? ==> |v.slots| == |entry.value|
    ensures entry.Some? ==> (v.limited <==> forall j :: 0 <= j < |entry.value| ==> entry.value[j] >= now)
    ensures entry.Some? && v.limited ==> v.slots == entry.value
    ensures entry.Some? && !v.limited ==>
              exists i :: && 0 <= i < |entry.value|
                          && entry.value[i] < now
                          && (forall j :: 0 <= j < i ==> entry.value[j] >= now)
                          && v.slots == entry.value[i := now + window]
  {
    match entry
    case None => Verdict(false, [now + window] + seq(maxRequests - 1, _ => 0))
    case Some(slots) =>
      match FirstFreeFrom(slots, now, 0)
      case None => Verdict(true, slots)
      case Some(i) => Verdict(false, slots[i := now + window])
  }

  /** When slot `i` is the lowest free one, a check admits the message and
      renews exactly that slot. */
  lemma CheckAdmitsAt(slots: seq<int>, now: int, window: int, maxRequests: int, i: nat)
    requires i < |slots| && slots[i] < now
    requires forall j :: 0 <= j < i ==> slots[j] >= now
    ensures Check(Some(slots), now, window, maxRequests) == Verdict(false, slots[i := now + window])
  {
    var v := Check(Some(slots), now, window, maxRequests);
    assert !v.limited;
    var k :| && 0 <= k < |slots| && slots[k] < now
             && (forall j :: 0 <= j < k ==> slots[j] >= now)
             && v.slots == slots[k := now + window];
    assert k == i;
  }

  /** Number of slots whose expiry is at or after `bound`: slots that cannot
      be free at any time up to `bound`. */
  function Held(slots: seq<int>, bound: int): (n: nat)
    ensures n <= |slots|
    decreases |slots|
  {
    if |slots| == 0 then 0 else (if slots[0] >= bound then 1 else 0) + Held(slots[1..], bound)
  }

  /** Renewing a slot that was not held to a value at or after the bound
      holds one more slot; setting any slot to a held value never holds fewer. */
  lemma {:induction false} HeldUpdate(slots: seq<int>, i: nat, x: int, bound: int)
    requires i < |slots| && x >= bound
    ensures slots[i] < bound ==> Held(slots[i := x], bound) == Held(slots, bound) + 1
    ensures Held(slots[i := x], bound) >= Held(slots, bound)
    decreases |slots|
  {
    if i > 0 {
      HeldUpdate(slots[1..], i - 1, x, bound);
      assert slots[i := x][1..] == slots[1..][i - 1 := x];
    }
  }

  /** The slots of a new user that are held at `bound`. */
  lemma {:induction false} HeldFresh(n: nat, x: int, bound: int)
    requires n >= 1 && x >= bound
    ensures Held([x] + seq(n - 1, _ => 0), bound) >= 1
  {
    assert ([x] + seq(n - 1, _ => 0))[1..] == seq(n - 1, _ => 0);
  }

  /** Number of admissions at times `>= from` when the user's messages
      arrive at the given times, in order, starting from `entry`. */
  function Admissions(entry: Option<seq<int>>, times: seq<int>, window: int, maxRequests: int, from: int): nat
    requires maxRequests >= 1
    decreases |times|
  {
    if |times| == 0 then 0
    else
      var v := Check(entry, times[0], window, maxRequests);
      (if !v.limited && times[0] >= from then 1 else 0)
      + Admissions(Some(v.slots), times[1..], window, maxRequests, from)
  }

  /** The invariant behind the window bound: admissions counted from `from`
      never exceed the slots not yet held at `from + window`. */
  lemma {:induction false} AdmissionsWithinHeadroom(slots: seq<int>, times: seq<int>, window: int, maxRequests: int, from: int)
    requires maxRequests >= 1
    requires forall k :: 0 <= k < |times| ==> times[k] <= from + window
    ensures Admissions(Some(slots), times, window, maxRequests, from) + Held(slots, from + window) <= |slots|
    decreases |times|
  {
    if |times| > 0 {
      var now := times[0];
      var v := Check(Some(slots), now, window, maxRequests);
      assert Admissions(Some(slots), times, window, maxRequests, from)
          == (if !v.limited && now >= from then 1 else 0) + Admissions(Some(v.slots), times[1..], window, maxRequests, from);
      AdmissionsWithinHeadroom(v.slots, times[1..], window, maxRequests, from);
      match FirstFreeFrom(slots, now, 0)
      case None =>
        assert v.slots == slots;
      case Some(i) =>
        assert v.slots == slots[i := now + window];
        if now >= from {
          HeldUpdate(slots, i, now + window, from + window);
        } else {
          HeldUpdateAny(slots, i, now + window, from + window);
        }
    }
  }

  /** Overwriting a slot that was not held never holds fewer slots. */
  lemma {:induction false} HeldUpdateAny(slots: seq<int>, i: nat, x: int, bound: int)
    requires i < |slots| && slots[i] < bound
    ensures Held(slots[i := x], bound) >= Held(slots, bound)
    decreases |slots|
  {
    if i > 0 {
      HeldUpdateAny(slots[1..], i - 1, x, bound);
      assert slots[i := x][1..] == slots[1..][i - 1 := x];
    }
  }

  /** At most `maxRequests` messages of one user are admitted at times in
      any interval [from, from + window], whatever the user's slots were
      before (a known user's slot array has `maxRequests` entries). */
  lemma AtMostMaxRequestsPerWindow(entry: Option<seq<int>>, times: seq<int>, window: int, maxRequests: int, from: int)
    requires maxRequests >= 1
    requires entry.Some? ==> |entry.value| == maxRequests
    requires forall k :: 0 <= k < |times| ==> from <= times[k] <= from + window
    ensures Admissions(entry, times, window, maxRequests, from) <= maxRequests
  {
    match entry {
      case Some(slots) =>
        AdmissionsWithinHeadroom(slots, times, window, maxRequests, from);
      case None =>
        if |times| > 0 {
          var v := Check(None, times[0], window, maxRequests);
          HeldFresh(maxRequests, times[0] + window, from + window);
          AdmissionsWithinHeadroom(v.slots, times[1..], window, maxRequests, from);
        }
    }
  }

  /** Once every slot has expired by `t + window`, a message after that
      instant is admitted again. */
  lemma ReadmittedAfterWindow(slots: seq<int>, t: int, window: int, maxRequests: int, now: int)
    requires |slots| >= 1
    requires forall j :: 0 <= j < |slots| ==> slots[j] <= t + window
    requires now > t + window
    ensures !Check(Some(slots), now, window, maxRequests).limited
  {
    assert slots[0] < now;
  }

  /** Two requests per 60 seconds: messages at t, t+5 and t+10 are admitted,
      admitted and refused; one at t+71, 61 seconds after the refusal, is
      admitted again. */
  lemma TwoPerMinuteScenario(t: int)
    requires t > 0
    ensures var v1 := Check(None, t, 60, 2);
            var v2 := Check(Some(v1.slots), t + 5, 60, 2);
            var v3 := Check(Some(v2.slots), t + 10, 60, 2);
            var v4 := Check(Some(v3.slots), t + 71, 60, 2);
            !v1.limited && !v2.limited && v3.limited && !v4.limited
  {
    var v1 := Check(None, t, 60, 2);
    assert v1.slots == [t + 60, 0];
    var v2 := Check(Some(v1.slots), t + 5, 60, 2);
    assert v2.slots == [t + 60, t + 65];
  }
}
