/** Reminders: the record, the text sent when one fires, the periodic sweep
    that fires every due reminder, and removal by ID. */
module Reminders {
  import Text

  datatype Reminder = Reminder(id: string, channelId: string, userId: string, message: string, time: int)

  /** A message the bot sends to a channel. */
  datatype Outgoing = Outgoing(channelId: string, content: string)

  /** What a fired reminder says: it tags its user and ends with its message. */
  function ReminderText(r: Reminder): (s: string)
    ensures Text.HasPrefix(s, "<@" + r.userId + ">")
    ensures Text.HasSuffix(s, r.message)
  {
    var tag := "<@" + r.userId + ">";
    var s := tag + (" You asked me to remind you about this: " + r.message);
    assert s[..|tag|] == tag;
    assert s[|s| - |r.message|..] == r.message;
    s
  }

  /** The message a fired reminder sends, to its own channel. */
  function Notice(r: Reminder): Outgoing {
    Outgoing(r.channelId, ReminderText(r))
  }

  /** The reminders still in the future at `now`, in their original order. */
  function Pending(rs: seq<Reminder>, now: int): (p: seq<Reminder>)
    ensures |p| <= |rs|
    decreases |rs|
  {
    if |rs| == 0 then []
    else (if rs[0].time > now then [rs[0]] else []) + Pending(rs[1..], now)
  }

  /** A reminder survives a sweep at `now` exactly when it is still in the
      future. */
  lemma {:induction false} PendingMembers(rs: seq<Reminder>, now: int)
    ensures forall x :: x in Pending(rs, now) <==> x in rs && x.time > now
    decreases |rs|
  {
    if |rs| > 0 {
      PendingMembers(rs[1..], now);
      assert rs == [rs[0]] + rs[1..];
    }
  }

  /** The sends of a sweep at `now`, in the order a back-to-front scan makes
      them: one per due reminder, and nothing else. */
  function SweepNotices(rs: seq<Reminder>, now: int): seq<Outgoing>
    decreases |rs|
  {
    if |rs| == 0 then []
    else SweepNotices(rs[1..], now) + (if rs[0].time <= now then [Notice(rs[0])] else [])
  }

  /** Every due reminder is sent, and nothing but due reminders is. */
  lemma {:induction false} SweepNoticesMembers(rs: seq<Reminder>, now: int)
    ensures forall x :: x in rs && x.time <= now ==> Notice(x) in SweepNotices(rs, now)
    ensures forall o :: o in SweepNotices(rs, now) ==> exists x :: x in rs && x.time <= now && o == Notice(x)
    decreases |rs|
  {
    if |rs| > 0 {
      SweepNoticesMembers(rs[1..], now);
      assert rs == [rs[0]] + rs[1..];
    }
  }

  /** One step of a back-to-front sweep over the suffix starting at `i`:
      reminder `i` is kept when it is pending and sent when it is due. */
  lemma SweepStep(rs: seq<Reminder>, i: nat, now: int)
    requires i < |rs|
    ensures Pending(rs[i..], now) == (if rs[i].time > now then [rs[i]] else []) + Pending(rs[i + 1..], now)
    ensures SweepNotices(rs[i..], now) == SweepNotices(rs[i + 1..], now) + (if rs[i].time <= now then [Notice(rs[i])] else [])
  {
    assert rs[i..][0] == rs[i];
    assert rs[i..][1..] == rs[i + 1..];
  }

  /** The splice of the back-to-front sweep: with the reminders before `i`
      untouched and the suffix after `i` already filtered, removing reminder
      `i` when it is due (keeping it otherwise) leaves the suffix from `i`
      filtered. */
  lemma SweepSplice(rs: seq<Reminder>, cur: seq<Reminder>, i: nat, now: int)
    requires i < |rs|
    requires cur == rs[..i + 1] + Pending(rs[i + 1..], now)
    ensures i < |cur| && cur[i] == rs[i]
    ensures rs[i].time <= now ==> cur[..i] + cur[i + 1..] == rs[..i] + Pending(rs[i..], now)
    ensures rs[i].time > now ==> cur == rs[..i] + Pending(rs[i..], now)
  {
    SweepStep(rs, i, now);
    var kept := Pending(rs[i + 1..], now);
    assert rs[..i + 1] == rs[..i] + [rs[i]];
    Around(rs[..i], rs[i], kept);
  }

  /** The element between two parts of a sequence splits it back into them. */
  lemma Around<T>(a: seq<T>, x: T, b: seq<T>)
    ensures (a + [x] + b)[|a|] == x
    ensures (a + [x] + b)[..|a|] == a && (a + [x] + b)[|a| + 1..] == b
    ensures a + [x] + b == a + ([x] + b)
  {
  }

  /** Every reminder of the swept list is either kept or sent exactly once:
      the sends and the survivors together number the original reminders. */
  lemma {:induction false} SweepAccounting(rs: seq<Reminder>, now: int)
    ensures |SweepNotices(rs, now)| + |Pending(rs, now)| == |rs|
    decreases |rs|
  {
    if |rs| > 0 {
      SweepAccounting(rs[1..], now);
    }
  }

  /** Filtering distributes over concatenation, so the survivors keep their
      relative order. */
  lemma {:induction false} PendingAppend(a: seq<Reminder>, b: seq<Reminder>, now: int)
    ensures Pending(a + b, now) == Pending(a, now) + Pending(b, now)
    decreases |a|
  {
    if |a| == 0 {
      assert a + b == b;
    } else {
      var head := if a[0].time > now then [a[0]] else [];
      calc {
        Pending(a + b, now);
        { assert (a + b)[0] == a[0]; assert (a + b)[1..] == a[1..] + b; }
        head + Pending(a[1..] + b, now);
        { PendingAppend(a[1..], b, now); }
        head + (Pending(a[1..], now) + Pending(b, now));
        Pending(a, now) + Pending(b, now);
      }
    }
  }

  /** No two reminders share an ID. */
  predicate UniqueIds(rs: seq<Reminder>) {
    forall i, j :: 0 <= i < j < |rs| ==> rs[i].id != rs[j].id
  }

  /** removeReminder's splice: the first reminder with the ID goes, the rest
      stay in order; with no such reminder the list is unchanged. */
  function RemoveFirst(rs: seq<Reminder>, id: string): (r: seq<Reminder>)
    ensures (forall k :: 0 <= k < |rs| ==> rs[k].id != id) ==> r == rs
    ensures forall x :: x in r ==> x in rs
    ensures (exists k :: 0 <= k < |rs| && rs[k].id == id) ==> |r| == |rs| - 1
    decreases |rs|
  {
    if |rs| == 0 then []
    else if rs[0].id == id then rs[1..]
    else [rs[0]] + RemoveFirst(rs[1..], id)
  }

  /** The removal takes out exactly the first reminder carrying the ID. */
  lemma {:induction false} RemoveFirstAt(rs: seq<Reminder>, id: string, k: nat)
    requires k < |rs| && rs[k].id == id
    requires forall j :: 0 <= j < k ==> rs[j].id != id
    ensures RemoveFirst(rs, id) == rs[..k] + rs[k + 1..]
    decreases k
  {
    if k > 0 {
      RemoveFirstAt(rs[1..], id, k - 1);
      assert [rs[0]] + rs[1..][..k - 1] == rs[..k];
      assert rs[1..][k..] == rs[k + 1..];
    }
  }

  /** With unique IDs, removal by ID leaves no reminder with that ID, and the
      IDs stay unique. */
  lemma {:induction false} RemoveFirstUnique(rs: seq<Reminder>, id: string)
    requires UniqueIds(rs)
    ensures forall x :: x in RemoveFirst(rs, id) ==> x.id != id
    ensures UniqueIds(RemoveFirst(rs, id))
    decreases |rs|
  {
    if |rs| > 0 {
      assert UniqueIds(rs[1..]);
      RemoveFirstUnique(rs[1..], id);
      if rs[0].id != id {
        var r := [rs[0]] + RemoveFirst(rs[1..], id);
        forall i, j | 0 <= i < j < |r| ensures r[i].id != r[j].id {
          if i == 0 {
            assert r[j] in rs[1..];
          }
        }
      } else {
        forall x | x in rs[1..] ensures x.id != id {
          var j :| 0 <= j < |rs[1..]| && rs[1..][j] == x;
          assert rs[j + 1] == x;
        }
      }
    }
  }

  /** The ID the reminder counter issues for a counter value. */
  function IdFor(counter: int): string {
    Text.Itoa(counter)
  }

  /** Every reminder carries an ID issued for a counter value below `counter`. */
  ghost predicate IssuedBelow(rs: seq<Reminder>, counter: int) {
    forall x :: x in rs ==> exists k :: k < counter && x.id == IdFor(k)
  }

  /** Issuing the next ID keeps the IDs unique and issued, once the counter
      is bumped. */
  lemma IssueNext(rs: seq<Reminder>, counter: int, r: Reminder)
    requires UniqueIds(rs) && IssuedBelow(rs, counter)
    requires r.id == IdFor(counter)
    ensures UniqueIds(rs + [r]) && IssuedBelow(rs + [r], counter + 1)
  {
    forall i | 0 <= i < |rs| ensures rs[i].id != r.id {
      assert rs[i] in rs;
      var k :| k < counter && rs[i].id == IdFor(k);
      if rs[i].id == r.id {
        Text.ItoaInjective(k, counter);
      }
    }
  }
}
