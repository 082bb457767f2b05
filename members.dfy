/** The member directory: a map from username or nickname to user ID, kept
    in step with the guild-create, join, update and leave events. */
module MemberCache {
  import opened Wrappers

  datatype User = User(id: string, username: string)

  /** A guild member; an empty `nick` means the member has no nickname. */
  datatype Member = Member(user: User, nick: string)

  type Cache = map<string, string>

  /** The names under which a member is cached: the username, and the
      nickname when there is one. */
  function Names(m: Member): set<string> {
    {m.user.username} + (if m.nick != "" then {m.nick} else {})
  }

  /** Caches a member (join, and each member of a new guild): both of its
      names now resolve to its ID; every other name is untouched. */
  function Add(cache: Cache, m: Member): (r: Cache)
    ensures r.Keys == cache.Keys + Names(m)
    ensures forall name :: name in Names(m) ==> r[name] == m.user.id
    ensures forall name :: name in cache && name !in Names(m) ==> r[name] == cache[name]
  {
    var c := cache[m.user.username := m.user.id];
    if m.nick != "" then c[m.nick := m.user.id] else c
  }

  /** Drops a username and, when non-empty, a nickname; nothing else changes. */
  function Drop(cache: Cache, username: string, nick: string): (r: Cache)
    ensures r.Keys == cache.Keys - {username} - (if nick != "" then {nick} else {})
    ensures forall name :: name in r ==> r[name] == cache[name]
  {
    var c := cache - {username};
    if nick != "" then c - {nick} else c
  }

  /** memberUpdate: the names known before the update (if the event carries
      them) stop resolving, then the new names resolve to the member's ID,
      even where a new name equals an old one. */
  function Update(cache: Cache, before: Option<Member>, after: Member): (r: Cache)
    ensures forall name :: name in Names(after) ==> name in r && r[name] == after.user.id
    ensures before.Some? ==> forall name :: name in Names(before.value) && name !in Names(after) ==> name !in r
    ensures forall name :: name in r && name !in Names(after) ==> name in cache && r[name] == cache[name]
    ensures forall name ::
              (name in cache && name !in Names(after) && (before.None? || name !in Names(before.value))) ==> name in r
  {
    var c := match before
             case Some(b) => Drop(cache, b.user.username, b.nick)
             case None => cache;
    Add(c, after)
  }

  /** memberLeave: the username stops resolving; the nickname does only when
      the event carries the member and the nickname is non-empty. */
  function Leave(cache: Cache, user: User, member: Option<Member>): (r: Cache)
    ensures user.username !in r
    ensures member.Some? && member.value.nick != "" ==> member.value.nick !in r
    ensures forall name :: name in r ==> name in cache && r[name] == cache[name]
    ensures forall name ::
              (name in cache && name != user.username
               && (member.None? || member.value.nick == "" || name != member.value.nick)) ==> name in r
  {
    Drop(cache, user.username, if member.Some? then member.value.nick else "")
  }

  /** guildCreate: every member of the guild, in the order listed. */
  function AddAll(cache: Cache, members: seq<Member>): Cache
    decreases |members|
  {
    if |members| == 0 then cache
    else Add(AddAll(cache, members[..|members| - 1]), members[|members| - 1])
  }

  /** After a guild is cached, a name resolves to the ID of the last listed
      member carrying it. */
  lemma {:induction false} AddAllResolvesLast(cache: Cache, members: seq<Member>, i: nat, name: string)
    requires i < |members| && name in Names(members[i])
    requires forall j :: i < j < |members| ==> name !in Names(members[j])
    ensures name in AddAll(cache, members) && AddAll(cache, members)[name] == members[i].user.id
    decreases |members|
  {
    if i < |members| - 1 {
      AddAllResolvesLast(cache, members[..|members| - 1], i, name);
    }
  }

  /** Names no listed member carries keep their old entry, or stay absent. */
  lemma {:induction false} AddAllUntouched(cache: Cache, members: seq<Member>, name: string)
    requires forall j :: 0 <= j < |members| ==> name !in Names(members[j])
    ensures name in AddAll(cache, members) <==> name in cache
    ensures name in cache ==> AddAll(cache, members)[name] == cache[name]
    decreases |members|
  {
    if |members| > 0 {
      AddAllUntouched(cache, members[..|members| - 1], name);
    }
  }

  /** A member who joins and then leaves (the leave event carrying the same
      member) no longer resolves under any of its names. */
  lemma JoinThenLeave(cache: Cache, m: Member)
    ensures forall name :: name in Names(m) ==> name !in Leave(Add(cache, m), m.user, Some(m))
  {
  }
}
