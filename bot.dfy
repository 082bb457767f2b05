/** The bot's shared state and the operations that run under its lock: the
    per-user rate limiter, the per-channel context window, the member cache
    handlers, message admission, the reminder sweep and timers, `!remind`,
    and saving and loading the snapshot. Each locked region is one method;
    the clock is a parameter, timers are the set of reminder IDs that have
    one, and everything the bot posts is appended to `outbox`. */
module Bot {
  import opened Wrappers
  import Text
  import OpenRouter
  import RateLimit
  import ContextWindow
  import MemberCache
  import Reminders
  import Settings
  import Commands
  import Engage

  const NanosPerSecond: int := 1_000_000_000

  /** `time.Time.Unix()`: the whole seconds of an instant given in
      nanoseconds (rounded down, also before the epoch). */
  function UnixSeconds(nanos: int): int {
    nanos / NanosPerSecond
  }

  /** The settings the core reads. `maxRequests`, `window` (seconds) and
      `muteTime` come from the rate-limit section. */
  datatype Config = Config(
    prefix: string,
    maxRequests: int,
    window: int,
    muteTime: int,
    key: string,
    model: string,
    maxMessagesInContext: int)

  /** What the code needs of the configuration: a first message indexes slot
      0 of a `maxRequests`-slot array, and the window cut
      `history[len - max:]` needs a non-negative maximum. */
  predicate ConfigOk(c: Config) {
    c.maxRequests >= 1 && c.maxMessagesInContext >= 0
  }

  /** The message event, reduced to what `messageCreate` reads. */
  datatype MessageEvent = MessageEvent(
    channelId: string,
    guildId: string,
    authorId: string,
    authorName: string,
    authorIsBot: bool,
    content: string)

  /** How `messageCreate` ends. */
  datatype Action =
    | Ignored                                     // the author is a bot
    | Muted(until: int)                           // rate limited: reaction and timeout until this instant
    | Dispatched(command: Option<Commands.Command>) // the message starts with the prefix
    | Engaged                                     // the random engagement fired
    | Stored                                      // stored for context, nothing else

  /** The end of the timeout for a rate-limited user, as written:
      `time.Duration(MuteTime)` is a count of nanoseconds, so the configured
      number is taken as nanoseconds. */
  function MuteUntilAsWritten(nowNanos: int, muteTime: int): int {
    nowNanos + muteTime
  }

  /** The default mute of 60 lasts, as written, 60 nanoseconds: the timeout
      ends within the very second it starts. */
  lemma MuteIsNanoseconds(nowNanos: int)
    ensures MuteUntilAsWritten(nowNanos, 60) - nowNanos == 60
    ensures UnixSeconds(MuteUntilAsWritten(nowNanos, 60)) <= UnixSeconds(nowNanos) + 1
  {
  }

  /** The end of the timeout with `muteTime` read in seconds, like the rate
      limit's window. */
  function MuteUntil(nowNanos: int, muteTime: int): (until: int)
    ensures until - nowNanos == muteTime * NanosPerSecond
    ensures UnixSeconds(until) == UnixSeconds(nowNanos) + muteTime
  {
    nowNanos + muteTime * NanosPerSecond
  }

  /** The context entry stored for a message: a user message reading
      "NAME: CONTENT". */
  function ContextMessage(e: MessageEvent): OpenRouter.Message {
    OpenRouter.Plain("user", e.authorName + ": " + e.content)
  }

  class Bot {
    const config: Config
    var rateLimits: map<string, array<int>>
    var memberCache: MemberCache.Cache
    var messageHistory: map<string, seq<OpenRouter.Message>>
    var reminders: seq<Reminders.Reminder>
    var reminderCounter: int
    var reminderTimers: set<string>
    var outbox: seq<Reminders.Outgoing>

    /** Every user owns a slot array of the configured length, and no two
        users share one. */
    ghost predicate Valid()
      reads this
    {
      && ConfigOk(config)
      && (forall u :: u in rateLimits ==> rateLimits[u].Length == config.maxRequests)
      && (forall u, v :: u in rateLimits && v in rateLimits && u != v ==> rateLimits[u] != rateLimits[v])
    }

    /** A user's slots, if the user has been seen. */
    function Entry(user: string): Option<seq<int>>
      reads this, if user in rateLimits then {rateLimits[user]} else {}
    {
      if user in rateLimits then Some(rateLimits[user][..]) else None
    }

    /** A channel's context window (empty for a channel never seen). */
    function History(channelId: string): seq<OpenRouter.Message>
      reads this
    {
      if channelId in messageHistory then messageHistory[channelId] else []
    }

    /** Reminder IDs are unique and were all issued below the counter. */
    ghost predicate IdsIssued()
      reads this
    {
      Reminders.UniqueIds(reminders) && Reminders.IssuedBelow(reminders, reminderCounter)
    }

    /** `New`: empty maps, no reminders, no timers. */
    constructor (config: Config)
      requires ConfigOk(config)
      ensures Valid() && this.config == config
      ensures rateLimits == map[] && memberCache == map[] && messageHistory == map[]
      ensures reminders == [] && reminderCounter == 0 && reminderTimers == {} && outbox == []
    {
      this.config := config;
      rateLimits := map[];
      memberCache := map[];
      messageHistory := map[];
      reminders := [];
      reminderCounter := 0;
      reminderTimers := {};
      outbox := [];
    }

    // ------------------------------------------------------ rate limiting

    /** `isRateLimited` at Unix second `now`: the user's slots change as
        RateLimit.Check says (a first slot array for a new user, the lowest
        free slot renewed for a known one), and the answer is its verdict.
        No other user's slots change. */
    method IsRateLimited(user: string, now: int) returns (limited: bool)
      requires Valid()
      modifies this`rateLimits, if user in rateLimits then {rateLimits[user]} else {}
      ensures Valid()
      ensures var v := RateLimit.Check(old(Entry(user)), now, config.window, config.maxRequests);
              limited == v.limited && Entry(user) == Some(v.slots)
      ensures rateLimits.Keys == old(rateLimits.Keys) + {user}
      ensures forall u :: u != user ==> Entry(u) == old(Entry(u))
    {
      if user in rateLimits {
        var slots := rateLimits[user];
        ghost var before := slots[..];
        var i := 0;
        while i < slots.Length
          invariant 0 <= i <= slots.Length
          invariant forall j :: 0 <= j < i ==> slots[j] >= now
        {
          if slots[i] < now {
            slots[i] := now + config.window;
            RateLimit.CheckAdmitsAt(before, now, config.window, config.maxRequests, i);
            assert slots[..] == before[i := now + config.window];
            return false;
          }
          i := i + 1;
        }
        return true;
      } else {
        var slots := new int[config.maxRequests](_ => 0);
        slots[0] := now + config.window;
        rateLimits := rateLimits[user := slots];
        assert slots[..] == [now + config.window] + seq(config.maxRequests - 1, _ => 0);
        return false;
      }
    }

    // ----------------------------------------------------- context window

    /** `storeMessageForContext`: the channel's window becomes its old
        window with the message appended and the oldest entries beyond the
        maximum dropped; no other channel changes. */
    method StoreMessageForContext(channelId: string, message: OpenRouter.Message)
      requires Valid()
      modifies this`messageHistory
      ensures messageHistory ==
                old(messageHistory)[channelId := ContextWindow.Append(old(History(channelId)), message, config.maxMessagesInContext)]
    {
      var history := History(channelId);
      history := history + [message];
      if |history| > config.maxMessagesInContext {
        history := history[|history| - config.maxMessagesInContext..];
      }
      messageHistory := messageHistory[channelId := history];
    }

    // ------------------------------------------------------- member cache

    /** `guildCreate`: caches every member of the guild in the order listed. */
    method GuildCreate(members: seq<MemberCache.Member>)
      modifies this`memberCache
      ensures memberCache == MemberCache.AddAll(old(memberCache), members)
    {
      for i := 0 to |members|
        invariant memberCache == MemberCache.AddAll(old(memberCache), members[..i])
      {
        var m := members[i];
        memberCache := memberCache[m.user.username := m.user.id];
        if m.nick != "" {
          memberCache := memberCache[m.nick := m.user.id];
        }
        assert members[..i + 1][..i] == members[..i];
      }
      assert members[..|members|] == members;
    }

    /** `memberJoin`. */
    method MemberJoin(m: MemberCache.Member)
      modifies this`memberCache
      ensures memberCache == MemberCache.Add(old(memberCache), m)
    {
      memberCache := memberCache[m.user.username := m.user.id];
      if m.nick != "" {
        memberCache := memberCache[m.nick := m.user.id];
      }
    }

    /** `memberUpdate`; `before` is absent when the event carries no earlier
        state. */
    method MemberUpdate(before: Option<MemberCache.Member>, after: MemberCache.Member)
      modifies this`memberCache
      ensures memberCache == MemberCache.Update(old(memberCache), before, after)
    {
      if before.Some? {
        memberCache := memberCache - {before.value.user.username};
        if before.value.nick != "" {
          memberCache := memberCache - {before.value.nick};
        }
      }
      memberCache := memberCache[after.user.username := after.user.id];
      if after.nick != "" {
        memberCache := memberCache[after.nick := after.user.id];
      }
    }

    /** `memberLeave`; `member` is absent when the event carries none. */
    method MemberLeave(user: MemberCache.User, member: Option<MemberCache.Member>)
      modifies this`memberCache
      ensures memberCache == MemberCache.Leave(old(memberCache), user, member)
    {
      memberCache := memberCache - {user.username};
      if member.Some? && member.value.nick != "" {
        memberCache := memberCache - {member.value.nick};
      }
    }

    // -------------------------------------------------- message admission

    /** `messageCreate` at instant `nowNanos`; `engageRoll` is whether the
        10% draw came up. Messages from bots are ignored. Every other message
        first passes the rate limiter: a refused one is not stored and its
        author is muted; an admitted one is stored in its channel's window
        before anything else, then either dispatched as a command (when it
        starts with the prefix) or, when the draw came up, engaged with. */
    method MessageCreate(event: MessageEvent, nowNanos: int, engageRoll: bool) returns (a: Action)
      requires Valid()
      modifies this`rateLimits, this`messageHistory
      modifies if event.authorId in rateLimits then {rateLimits[event.authorId]} else {}
      ensures Valid()
      ensures a.Ignored? <==> event.authorIsBot
      ensures event.authorIsBot ==> rateLimits == old(rateLimits) && messageHistory == old(messageHistory)
      ensures !event.authorIsBot ==>
                var v := RateLimit.Check(old(Entry(event.authorId)), UnixSeconds(nowNanos), config.window, config.maxRequests);
                && Entry(event.authorId) == Some(v.slots)
                && (a.Muted? <==> v.limited)
      ensures forall u :: u != event.authorId ==> Entry(u) == old(Entry(u))
      ensures a.Muted? ==> a.until == MuteUntil(nowNanos, config.muteTime) && messageHistory == old(messageHistory)
      ensures !a.Ignored? && !a.Muted? ==>
                messageHistory == old(messageHistory)[event.channelId :=
                  ContextWindow.Append(old(History(event.channelId)), ContextMessage(event), config.maxMessagesInContext)]
      ensures a.Dispatched? <==> !a.Ignored? && !a.Muted? && Text.HasPrefix(event.content, config.prefix)
      ensures a.Dispatched? ==> a.command == Commands.Dispatch(event.content)
      ensures a.Engaged? <==> !a.Ignored? && !a.Muted? && !Text.HasPrefix(event.content, config.prefix) && engageRoll
    {
      if event.authorIsBot {
        return Ignored;
      }
      var limited := IsRateLimited(event.authorId, UnixSeconds(nowNanos));
      if limited {
        return Muted(MuteUntil(nowNanos, config.muteTime));
      }
      StoreMessageForContext(event.channelId, ContextMessage(event));
      if Text.HasPrefix(event.content, config.prefix) {
        return Dispatched(Commands.Dispatch(event.content));
      }
      if engageRoll {
        return Engaged;
      }
      return Stored;
    }

    // ----------------------------------------------------- conversations

    /** The client that `handleAsk` and `engageWithMessage` build: only the
        key, the window size and the model are set, so the system prompt is
        empty and the temperature and token limit are zero. */
    function Client(): OpenRouter.Client
      reads this
    {
      OpenRouter.Client(config.key, "", OpenRouter.Float64(0), 0, config.maxMessagesInContext, config.model)
    }

    /** `handleAsk`'s request: the system message and the channel window.
        The question itself is only there because the message was stored
        before being dispatched, so a non-empty window is what lets it past
        Send's guard. */
    method AskRequest(channelId: string) returns (req: OpenRouter.Request)
      ensures fresh(req)
      ensures req.messages == [OpenRouter.Plain("system", "")] + History(channelId)
      ensures OpenRouter.Sendable(req.messages, req.prompt) <==> |History(channelId)| >= 1
    {
      req := OpenRouter.NewRequest(Client());
      req.AddMessages(History(channelId));
    }

    /** `engageWithMessage`'s request: the system message, the channel
        window in order, and one user prompt. */
    method EngageRequest(channelId: string, prompt: string) returns (req: OpenRouter.Request)
      ensures fresh(req)
      ensures req.messages == [OpenRouter.Plain("system", "")] + History(channelId) + [OpenRouter.Plain("user", prompt)]
      ensures OpenRouter.Sendable(req.messages, req.prompt)
    {
      req := Engage.EngageRequest(Client(), History(channelId), prompt);
    }

    // ---------------------------------------------------------- reminders

    /** `sendReminder`: the reminder's text goes to its channel; a failed
        send is only logged, so the send is recorded either way. */
    method SendReminder(r: Reminders.Reminder)
      modifies this`outbox
      ensures outbox == old(outbox) + [Reminders.Notice(r)]
    {
      outbox := outbox + [Reminders.Notice(r)];
    }

    /** One tick of `reminderChecker` at Unix second `now`: scanning from
        the back, every due reminder (time at or before `now`) is sent and
        spliced out. What remains is exactly the pending reminders in their
        order, and each removed reminder was sent once. */
    method SweepReminders(now: int)
      modifies this`reminders, this`outbox
      ensures reminders == Reminders.Pending(old(reminders), now)
      ensures outbox == old(outbox) + Reminders.SweepNotices(old(reminders), now)
    {
      ghost var rs := reminders;
      ghost var sent := old(outbox);
      var i := |reminders| - 1;
      assert rs[i + 1..] == [];
      while i >= 0
        invariant -1 <= i < |rs|
        invariant reminders == rs[..i + 1] + Reminders.Pending(rs[i + 1..], now)
        invariant outbox == sent + Reminders.SweepNotices(rs[i + 1..], now)
        decreases i
      {
        ghost var notices := Reminders.SweepNotices(rs[i + 1..], now);
        Reminders.SweepStep(rs, i, now);
        Reminders.SweepSplice(rs, reminders, i, now);
        var r := reminders[i];
        if r.time <= now {
          SendReminder(r);
          assert outbox == sent + (notices + [Reminders.Notice(r)]);
          reminders := reminders[..i] + reminders[i + 1..];
        }
        i := i - 1;
      }
      assert rs[0..] == rs;
    }

    /** `scheduleReminder` at instant `nowNanos`: a reminder whose second
        has come is sent at once and gets no timer; a future one gets a
        timer under its ID and nothing is sent. The reminder list is not
        touched. */
    method ScheduleReminder(r: Reminders.Reminder, nowNanos: int)
      modifies this`reminderTimers, this`outbox
      ensures r.time * NanosPerSecond <= nowNanos ==>
                outbox == old(outbox) + [Reminders.Notice(r)] && reminderTimers == old(reminderTimers)
      ensures r.time * NanosPerSecond > nowNanos ==>
                outbox == old(outbox) && reminderTimers == old(reminderTimers) + {r.id}
    {
      if r.time * NanosPerSecond - nowNanos <= 0 {
        SendReminder(r);
        return;
      }
      reminderTimers := reminderTimers + {r.id};
    }

    /** `removeReminder`: the ID's timer entry goes, and so does the first
        reminder with that ID; the others keep their order. */
    method RemoveReminder(id: string)
      modifies this`reminderTimers, this`reminders
      ensures reminderTimers == old(reminderTimers) - {id}
      ensures reminders == Reminders.RemoveFirst(old(reminders), id)
      ensures old(IdsIssued()) ==> IdsIssued() && forall x :: x in reminders ==> x.id != id
    {
      reminderTimers := reminderTimers - {id};
      ghost var rs := reminders;
      if old(IdsIssued()) {
        Reminders.RemoveFirstUnique(rs, id);
      }
      var i := 0;
      while i < |reminders|
        invariant 0 <= i <= |reminders| && reminders == rs
        invariant forall j :: 0 <= j < i ==> rs[j].id != id
      {
        if reminders[i].id == id {
          Reminders.RemoveFirstAt(rs, id, i);
          reminders := reminders[..i] + reminders[i + 1..];
          return;
        }
        i := i + 1;
      }
    }

    /** The timer callback: the reminder is sent, then removed by ID. With
        unique IDs it is gone afterwards. */
    method FireReminder(r: Reminders.Reminder)
      modifies this`outbox, this`reminderTimers, this`reminders
      ensures outbox == old(outbox) + [Reminders.Notice(r)]
      ensures reminderTimers == old(reminderTimers) - {r.id}
      ensures reminders == Reminders.RemoveFirst(old(reminders), r.id)
      ensures old(IdsIssued()) ==> IdsIssued() && forall x :: x in reminders ==> x.id != r.id
    {
      SendReminder(r);
      RemoveReminder(r.id);
    }

    /** `initializeReminders` at instant `nowNanos`: a timer for exactly the
        reminders later than the current Unix second; overdue ones are
        neither sent nor removed. */
    method InitializeReminders(nowNanos: int)
      modifies this`reminderTimers, this`outbox
      ensures reminderTimers == old(reminderTimers) +
                (set j | 0 <= j < |reminders| && reminders[j].time > UnixSeconds(nowNanos) :: reminders[j].id)
      ensures outbox == old(outbox)
    {
      var now := UnixSeconds(nowNanos);
      for i := 0 to |reminders|
        invariant reminderTimers == old(reminderTimers) +
                    (set j | 0 <= j < i && reminders[j].time > now :: reminders[j].id)
        invariant outbox == old(outbox)
      {
        if reminders[i].time > now {
          ScheduleReminder(reminders[i], nowNanos);
        }
        assert (set j | 0 <= j < i + 1 && reminders[j].time > now :: reminders[j].id) ==
               (set j | 0 <= j < i && reminders[j].time > now :: reminders[j].id) +
               (if reminders[i].time > now then {reminders[i].id} else {});
      }
    }

    /** `shutdownReminders`: every timer is stopped; the reminders stay. */
    method ShutdownReminders()
      modifies this`reminderTimers
      ensures reminderTimers == {}
    {
      reminderTimers := {};
    }

    /** `handleRemind` at instant `nowNanos`, with the ID the counter issues:
        a valid request appends one reminder at the end and bumps the
        counter; an invalid one changes nothing. IDs stay unique. */
    method HandleRemind(content: string, channelId: string, userId: string, nowNanos: int,
                        parseDuration: string -> Option<int>)
      returns (r: Result<Reminders.Reminder, Commands.RemindError>)
      modifies this`reminders, this`reminderCounter
      ensures var p := Commands.ParseRemind(content, parseDuration);
              && (p.Failure? ==> r == Failure(p.error) && reminders == old(reminders) && reminderCounter == old(reminderCounter))
              && (p.Success? ==> && r == Success(Commands.NewReminder(p.value, channelId, userId, nowNanos, old(reminderCounter)))
                                 && reminders == old(reminders) + [r.value]
                                 && reminderCounter == old(reminderCounter) + 1)
      ensures old(IdsIssued()) ==> IdsIssued()
    {
      var p := Commands.ParseRemind(content, parseDuration);
      if p.Failure? {
        return Failure(p.error);
      }
      var reminder := Commands.NewReminder(p.value, channelId, userId, nowNanos, reminderCounter);
      if IdsIssued() {
        Reminders.IssueNext(reminders, reminderCounter, reminder);
      }
      reminders := reminders + [reminder];
      reminderCounter := reminderCounter + 1;
      return Success(reminder);
    }

    // -------------------------------------------------------- persistence

    /** `saveSettings` at Unix second `now`: the snapshot of the reminders
        and counter, with the data version and `now` as its timestamp, goes
        through the temp-then-rename protocol. After a success, any load in
        the next seven days restores exactly these reminders and counter. */
    method SaveSettings(store: Settings.FileStore, now: int, writeOk: bool, renameOk: bool) returns (ok: bool)
      modifies store`files
      ensures var s := Settings.Take(now, reminders, reminderCounter);
              && s.version == Settings.DataVersion && s.timestamp == now
              && (ok <==> writeOk && renameOk)
              && (!writeOk ==> store.files == old(store.files))
              && (writeOk && !renameOk ==> store.files == old(store.files) - {Settings.TempFile})
              && (ok ==> store.files == (old(store.files) - {Settings.TempFile})[Settings.DataFile := Settings.Encoded(s)])
      ensures ok ==> forall later :: later <= now + Settings.MaxAge ==>
                Settings.Load(store.Read(Settings.DataFile), later) == Settings.Accepted(reminders, reminderCounter)
    {
      ok := store.Save(Settings.Take(now, reminders, reminderCounter), writeOk, renameOk);
      if ok {
        forall later | later <= now + Settings.MaxAge
          ensures Settings.Load(store.Read(Settings.DataFile), later) == Settings.Accepted(reminders, reminderCounter)
        {
          Settings.SaveLoadRoundTrip(now, reminders, reminderCounter, later);
        }
      }
    }

    /** `loadSettings` at Unix second `now`: an unreadable or undecodable
        file is an error; a stale snapshot or one of another version is
        ignored without error; an accepted one replaces the reminders and
        counter. Nothing else changes, and a rejected load changes nothing. */
    method LoadSettings(store: Settings.FileStore, now: int) returns (err: Option<Settings.LoadError>)
      modifies this`reminders, this`reminderCounter
      ensures var o := Settings.Load(store.Read(Settings.DataFile), now);
              && (err.Some? <==> o.Failed?)
              && (err.Some? ==> err.value == o.error)
              && (o.Accepted? ==> reminders == o.reminders && reminderCounter == o.reminderCounter)
              && (!o.Accepted? ==> reminders == old(reminders) && reminderCounter == old(reminderCounter))
    {
      var o := Settings.Load(store.Read(Settings.DataFile), now);
      match o {
        case Failed(e) => return Some(e);
        case Stale => return None;
        case VersionMismatch => return None;
        case Accepted(rs, counter) =>
          reminders := rs;
          reminderCounter := counter;
          return None;
      }
    }
  }
}
