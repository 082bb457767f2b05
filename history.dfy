/** The per-channel conversation window of `storeMessageForContext`: a log
    that appends each message and then keeps only the most recent `max`
    entries (oldest evicted first). */
module ContextWindow {

  function Min(a: int, b: int): int {
    if a <= b then a else b
  }

  /** The last `n` entries of `s` (all of `s` when it is shorter). */
  function Last<T>(s: seq<T>, n: nat): (r: seq<T>)
    ensures |r| == Min(|s|, n)
    ensures forall k :: 0 <= k < |r| ==> r[k] == s[|s| - |r| + k]
  {
    if |s| <= n then s else s[|s| - n..]
  }

  /** Append one message, then keep the last `max` entries. */
  function Append<T>(history: seq<T>, msg: T, max: nat): (r: seq<T>)
    ensures |r| == Min(|history| + 1, max)
    ensures |r| > 0 ==> r[|r| - 1] == msg
    ensures forall k :: 0 <= k < |r| - 1 ==> r[k] == history[|history| + 1 - |r| + k]
  {
    var h := history + [msg];
    if |h| > max then h[|h| - max..] else h
  }

  /** The window after appending `msgs` one by one, in arrival order. */
  function AppendAll<T>(history: seq<T>, msgs: seq<T>, max: nat): seq<T>
    decreases |msgs|
  {
    if |msgs| == 0 then history
    else Append(AppendAll(history, msgs[..|msgs| - 1], max), msgs[|msgs| - 1], max)
  }

  /** Appending one message to the last `max` entries of a log keeps the last
      `max` entries of the longer log. */
  lemma AppendLast<T>(s: seq<T>, msg: T, max: nat)
    ensures Append(Last(s, max), msg, max) == Last(s + [msg], max)
  {
    var a := Append(Last(s, max), msg, max);
    var b := Last(s + [msg], max);
    assert |a| == |b|;
    forall k | 0 <= k < |a| ensures a[k] == b[k] {
      if k < |a| - 1 {
        assert a[k] == Last(s, max)[|Last(s, max)| + 1 - |a| + k];
      }
    }
  }

  /** Whatever arrived, the window holds exactly the most recent `max`
      messages of the whole arrival history, oldest first; a window that
      starts within the cap only ever loses messages from the front. */
  lemma {:induction false} AppendAllKeepsMostRecent<T>(history: seq<T>, msgs: seq<T>, max: nat)
    requires |history| <= max
    ensures AppendAll(history, msgs, max) == Last(history + msgs, max)
    decreases |msgs|
  {
    if |msgs| == 0 {
      assert history + msgs == history;
    } else {
      var init, msg := msgs[..|msgs| - 1], msgs[|msgs| - 1];
      calc {
        AppendAll(history, msgs, max);
        Append(AppendAll(history, init, max), msg, max);
        { AppendAllKeepsMostRecent(history, init, max); }
        Append(Last(history + init, max), msg, max);
        { AppendLast(history + init, msg, max); }
        Last(history + init + [msg], max);
        { assert history + init + [msg] == history + msgs; }
        Last(history + msgs, max);
      }
    }
  }

  /** After more than `max` messages reach an empty channel, the window holds
      exactly `max` of them: the most recent, in arrival order. */
  lemma OverflowKeepsNewest<T>(msgs: seq<T>, max: nat)
    requires |msgs| > max
    ensures AppendAll([], msgs, max) == msgs[|msgs| - max..]
  {
    AppendAllKeepsMostRecent([], msgs, max);
    assert [] + msgs == msgs;
  }
}
