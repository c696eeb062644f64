/** The in-process registries of the slash-command handler and its pure helpers.
    Sets become `set` (or a duplicate-free `seq` where `Array.from` order is
    used), Maps become `map`. The clock is the argument `now`; `Math.random()`
    is a caller-supplied sequence of picks. */
module SlashCommands {
  import opened Common

  // ---------------------------------------------------------------------
  // Pure helpers

  /** Bot owner anywhere, or the server owner inside the owner channel. */
  predicate IsAuthorized(env: Option<string>, userId: string, guildOwnerId: string, channelId: string)
    ensures IsAuthorized(env, userId, guildOwnerId, channelId) && channelId != OWNER_CHANNEL_ID ==> userId == BotOwnerId(env)
  {
    userId == BotOwnerId(env) || (userId == guildOwnerId && channelId == OWNER_CHANNEL_ID)
  }

  /** Unlike the text-command managers, the server owner is admitted only in
      the owner channel, and nobody else but the bot owner is admitted at all. */
  lemma SlashAuthorization(env: Option<string>, userId: string, guildOwnerId: string, channelId: string)
    requires userId != BotOwnerId(env)
    ensures IsAuthorized(env, userId, guildOwnerId, channelId) <==> userId == guildOwnerId && channelId == OWNER_CHANNEL_ID
    ensures IsAuthorized(env, BotOwnerId(env), guildOwnerId, channelId)
  {
  }

  datatype RoleOrder = Higher | Equal | Lower

  function CompareRoles(executorPosition: int, targetPosition: int): (r: RoleOrder)
    ensures r == Higher <==> executorPosition > targetPosition
    ensures r == Equal <==> executorPosition == targetPosition
    ensures r == Lower <==> executorPosition < targetPosition
  {
    if executorPosition > targetPosition then Higher
    else if executorPosition == targetPosition then Equal
    else Lower
  }

  /** Swapping executor and target swaps `higher` and `lower`. */
  lemma CompareRolesAntisymmetric(a: int, b: int)
    ensures CompareRoles(a, b) == Higher <==> CompareRoles(b, a) == Lower
    ensures CompareRoles(a, b) == Equal <==> CompareRoles(b, a) == Equal
  {
  }

  /** The bar of a percentage: `'|' + '='.repeat(ceil(p/5)) + '-'.repeat(max(0, 20 - ceil(p/5))) + '|'`. */
  function CreateGraph(percent: nat): (g: string)
    ensures var bar := (percent + 4) / 5;
            && 5 * bar >= percent && 5 * (bar - 1) < percent
            && |g| == 2 + Max(20, bar)
            && g[0] == '|' && g[|g| - 1] == '|'
            && (forall i :: 1 <= i <= bar ==> g[i] == '=')
            && (forall i :: bar < i < |g| - 1 ==> g[i] == '-')
  {
    var bar := (percent + 4) / 5;
    "|" + Repeat('=', bar) + Repeat('-', Max(0, 20 - bar)) + "|"
  }

  /** For a percentage in 0..100 the graph is always 22 characters wide. */
  lemma GraphWidth(percent: nat)
    requires percent <= 100
    ensures |CreateGraph(percent)| == 22
  {
  }

  // ---------------------------------------------------------------------
  // Join bucketing over the last 30 days (integer milliseconds)

  const DAY_MS: int := 24 * 60 * 60 * 1000

  function WindowStart(now: int): int { now - 30 * DAY_MS }

  function DayIndex(t: int, now: int): int { (t - WindowStart(now)) / DAY_MS }

  /** A member is counted when `joinedTimestamp` is truthy, not before the
      window start, and its day index is below 30. */
  predicate Counted(joined: Option<int>, now: int) {
    joined.Some? && joined.value != 0 && joined.value >= WindowStart(now) && DayIndex(joined.value, now) < 30
  }

  /** The counted members are exactly those who joined in `[now - 30 days, now)`. */
  lemma CountedIffInWindow(t: int, now: int)
    ensures Counted(Some(t), now) <==> t != 0 && WindowStart(now) <= t < now
  {
    if t >= WindowStart(now) {
      var x := t - WindowStart(now);
      assert DayIndex(t, now) == x / DAY_MS;
      assert x / DAY_MS < 30 <==> x < 30 * DAY_MS;
    }
  }

  /** The counted joins whose day index is `d`. */
  function CountDay(joins: seq<Option<int>>, now: int, d: int): nat {
    if joins == [] then 0
    else
      var j := joins[|joins| - 1];
      CountDay(joins[..|joins| - 1], now, d) + (if Counted(j, now) && DayIndex(j.value, now) == d then 1 else 0)
  }

  /** The thirty daily counts after visiting `joins` in order: bucket `d`
      holds exactly the counted joins of day `d`. */
  function Buckets(joins: seq<Option<int>>, now: int): (c: seq<nat>)
    ensures |c| == 30
    ensures forall d :: 0 <= d < 30 ==> c[d] == CountDay(joins, now, d)
  {
    if joins == [] then seq(30, _ => 0)
    else
      var c := Buckets(joins[..|joins| - 1], now);
      var j := joins[|joins| - 1];
      if Counted(j, now) then
        var d := DayIndex(j.value, now);
        c[d := c[d] + 1]
      else c
  }

  function CountedCount(joins: seq<Option<int>>, now: int): nat {
    if joins == [] then 0
    else CountedCount(joins[..|joins| - 1], now) + (if Counted(joins[|joins| - 1], now) then 1 else 0)
  }

  function Sum(s: seq<nat>): nat {
    if s == [] then 0 else s[0] + Sum(s[1..])
  }

  lemma {:induction false} SumUpdate(s: seq<nat>, i: nat, v: nat)
    requires i < |s|
    ensures Sum(s[i := v]) == Sum(s) - s[i] + v
  {
    if i == 0 {
      assert s[i := v][1..] == s[1..];
    } else {
      SumUpdate(s[1..], i - 1, v);
      assert s[i := v][1..] == s[1..][i - 1 := v];
    }
  }

  lemma {:induction false} SumZeros(n: nat)
    ensures Sum(seq(n, _ => 0)) == 0
  {
    if n > 0 {
      assert seq(n, _ => 0)[1..] == seq(n - 1, _ => 0);
      SumZeros(n - 1);
    }
  }

  /** The buckets add up to the counted members, so no counted member is
      lost and none is counted twice. */
  lemma {:induction false} BucketsTotal(joins: seq<Option<int>>, now: int)
    ensures Sum(Buckets(joins, now)) == CountedCount(joins, now)
  {
    if joins == [] {
      SumZeros(30);
    } else {
      var init := joins[..|joins| - 1];
      BucketsTotal(init, now);
      var j := joins[|joins| - 1];
      if Counted(j, now) {
        var c := Buckets(init, now);
        var d := DayIndex(j.value, now);
        SumUpdate(c, d, c[d] + 1);
      }
    }
  }

  /** The `dailyJoins[dayIndex].count++` loop over the member cache. */
  method BucketJoins(joins: seq<Option<int>>, now: int) returns (counts: seq<nat>)
    ensures counts == Buckets(joins, now)
    ensures |counts| == 30 && Sum(counts) == CountedCount(joins, now)
  {
    var daily := new nat[30](_ => 0);
    assert daily[..] == seq(30, _ => 0);
    var i := 0;
    while i < |joins|
      invariant 0 <= i <= |joins|
      invariant daily[..] == Buckets(joins[..i], now)
    {
      assert joins[..i + 1][..i] == joins[..i];
      var j := joins[i];
      if j.Some? && j.value != 0 && j.value >= WindowStart(now) {
        var dayIndex := (j.value - WindowStart(now)) / DAY_MS;
        if 0 <= dayIndex < 30 {
          daily[dayIndex] := daily[dayIndex] + 1;
        }
      }
      i := i + 1;
    }
    assert joins[..i] == joins;
    counts := daily[..];
    BucketsTotal(joins, now);
  }

  // ---------------------------------------------------------------------
  // Giveaway draw

  /** `participantArray.splice(idx, 1)`. */
  function RemoveAt(s: seq<string>, idx: nat): (r: seq<string>)
    requires idx < |s|
    ensures |r| == |s| - 1
    ensures NoDup(s) ==> NoDup(r) && forall y :: y in r <==> y in s && y != s[idx]
  {
    var r := s[..idx] + s[idx + 1..];
    assert forall k :: 0 <= k < |r| ==> r[k] == if k < idx then s[k] else s[k + 1];
    assert NoDup(s) ==> forall y :: y in s && y != s[idx] ==> y in r by {
      if NoDup(s) {
        forall y | y in s && y != s[idx] ensures y in r {
          var k :| 0 <= k < |s| && s[k] == y;
          if k < idx { assert r[k] == y; } else { assert r[k - 1] == y; }
        }
      }
    }
    r
  }

  lemma NoDupAppend(s: seq<string>, x: string)
    requires NoDup(s) && x !in s
    ensures NoDup(s + [x])
  {
    var r := s + [x];
    forall i, j | 0 <= i < j < |r| ensures r[i] != r[j] {
      if j == |s| { assert r[i] == s[i]; }
    }
  }

  /** The index `Math.floor(Math.random() * len)` of draw number `i`, from the caller's picks. */
  function PickIndex(picks: seq<nat>, i: nat, len: nat): (idx: nat)
    requires len > 0
    ensures idx < len
  {
    if i < |picks| then picks[i] % len else 0
  }

  /** How many winners the draw should select. */
  function DrawCount(winners: int, n: nat): nat {
    Min(Max(winners, 0), n)
  }

  /** How many the loop as written selects: its bound shrinks with each splice. */
  function AsWrittenDrawCount(winners: int, n: nat): nat {
    Min(Max(winners, 0), (n + 1) / 2)
  }

  /** The intended draw: the bound `min(winners, |participants|)` is taken once. */
  method DrawWinners(participants: seq<string>, winners: int, picks: seq<nat>) returns (selected: seq<string>)
    requires NoDup(participants)
    ensures |selected| == DrawCount(winners, |participants|)
    ensures NoDup(selected)
    ensures forall w :: w in selected ==> w in participants
  {
    var remaining := participants;
    selected := [];
    var count := Min(winners, |remaining|);
    var i := 0;
    while i < count
      invariant 0 <= i == |selected| && i <= Max(count, 0)
      invariant |remaining| == |participants| - i
      invariant NoDup(remaining) && NoDup(selected)
      invariant forall w :: w in selected ==> w in participants && w !in remaining
      invariant forall w :: w in remaining ==> w in participants
    {
      var idx := PickIndex(picks, i, |remaining|);
      var w := remaining[idx];
      NoDupAppend(selected, w);
      selected := selected + [w];
      remaining := RemoveAt(remaining, idx);
      i := i + 1;
    }
  }

  /** The draw loop exactly as written: `i < Math.min(winners, participantArray.length)`
      is re-evaluated after every splice. */
  method DrawWinnersAsWritten(participants: seq<string>, winners: int, picks: seq<nat>) returns (selected: seq<string>)
    requires NoDup(participants)
    ensures |selected| == AsWrittenDrawCount(winners, |participants|)
    ensures NoDup(selected)
    ensures forall w :: w in selected ==> w in participants
  {
    var remaining := participants;
    selected := [];
    var i := 0;
    while i < Min(winners, |remaining|)
      invariant 0 <= i == |selected| && i <= Max(winners, 0) && 2 * i <= |participants| + 1
      invariant |remaining| == |participants| - i
      invariant NoDup(remaining) && NoDup(selected)
      invariant forall w :: w in selected ==> w in participants && w !in remaining
      invariant forall w :: w in remaining ==> w in participants
      decreases |remaining|
    {
      var idx := PickIndex(picks, i, |remaining|);
      var w := remaining[idx];
      NoDupAppend(selected, w);
      selected := selected + [w];
      remaining := RemoveAt(remaining, idx);
      i := i + 1;
    }
  }

  /** The loop as written selects the intended number of winners exactly when
      at most half (rounded up) of the participants are to win, or there is at
      most one participant. */
  lemma AsWrittenShortfall(winners: int, n: nat)
    ensures AsWrittenDrawCount(winners, n) <= DrawCount(winners, n)
    ensures AsWrittenDrawCount(winners, n) == DrawCount(winners, n) <==> Max(winners, 0) <= (n + 1) / 2 || n <= 1
  {
  }

  /** Three participants and five winners: two are drawn instead of three. */
  lemma AsWrittenShortfallExample()
    ensures AsWrittenDrawCount(5, 3) == 2 && DrawCount(5, 3) == 3
  {
  }

  // ---------------------------------------------------------------------
  // Membercount buttons

  /** `realSessionKey.split(':')[0]`. */
  function KeyOwner(key: string): (owner: string)
    ensures |owner| <= |key| && owner == key[..|owner|] && ':' !in owner
    ensures |owner| < |key| ==> key[|owner|] == ':'
  {
    if key == [] then []
    else if key[0] == ':' then []
    else [key[0]] + KeyOwner(key[1..])
  }

  /** The button id `mc_<action>_<sessionKey>` parsed as the handler does:
      `back` when the id contains "back" anywhere, else `forward`. */
  datatype McButton = McButton(back: bool, sessionKey: string)

  function ParseMcButton(customId: string): (r: Option<McButton>)
    ensures r.None? <==> !StartsWith(customId, "mc_")
  {
    if !StartsWith(customId, "mc_") then None
    else
      var back := Contains(customId, "back");
      var action := if back then "back" else "forward";
      Some(McButton(back, ReplaceFirst(customId, "mc_" + action + "_", "")))
  }

  /** `currentPage--` only above 0, `currentPage++` only below the last page. */
  function PageStep(page: int, pages: nat, back: bool): (r: int)
    ensures back ==> page - 1 <= r <= page && (r == page <==> page <= 0)
    ensures !back ==> page <= r <= page + 1 && (r == page <==> page >= pages - 1)
  {
    if back && page > 0 then page - 1
    else if !back && page < pages - 1 then page + 1
    else page
  }

  /** The page stays in `[0, max(0, |dates| - 1)]` and moves by at most one. */
  lemma PageStepInBounds(page: int, pages: nat, back: bool)
    requires 0 <= page <= Max(0, pages - 1)
    ensures 0 <= PageStep(page, pages, back) <= Max(0, pages - 1)
    ensures back ==> PageStep(page, pages, back) == Max(0, page - 1)
    ensures !back ==> PageStep(page, pages, back) == Min(page + 1, Max(0, pages - 1))
  {
  }

  lemma ReplaceFirstPrefix(s: string, pat: string)
    requires StartsWith(s, pat)
    ensures ReplaceFirst(s, pat, "") == s[|pat|..]
  {
    assert OccursAt(s, pat, 0);
  }

  lemma NoLetterNoMatch(s: string, pat: string)
    requires pat != [] && pat[0] !in s
    ensures !Contains(s, pat)
  {
    forall k: nat ensures !OccursAt(s, pat, k) {
      if k + |pat| <= |s| {
        assert s[k..k + |pat|][0] == s[k];
      }
    }
  }

  lemma KeyOwnerOf(u: string, rest: string)
    requires ':' !in u
    ensures KeyOwner(u + ":" + rest) == u
    decreases |u|
  {
    if u != [] {
      assert (u + ":" + rest)[1..] == u[1..] + ":" + rest;
      KeyOwnerOf(u[1..], rest);
    }
  }

  lemma DigitsHaveNo(s: string, c: char)
    requires AllDigits(s) && !IsDigit(c)
    ensures c !in s
  {
    assert forall k :: 0 <= k < |s| ==> s[k] != c;
  }

  /** The session key a `back`/`forward` id built from `key` parses to. */
  lemma McKeyOfId(key: string, back: bool)
    requires !back ==> !Contains("mc_forward_" + key, "back")
    ensures var id := (if back then "mc_back_" else "mc_forward_") + key;
            ParseMcButton(id) == Some(McButton(back, key))
  {
    var action := if back then "back" else "forward";
    var prefix := "mc_" + action + "_";
    assert prefix == if back then "mc_back_" else "mc_forward_";
    var id := prefix + key;
    assert StartsWith(id, "mc_");
    if back {
      assert OccursAt(id, "back", 3);
    }
    assert Contains(id, "back") == back;
    ReplaceFirstPrefix(id, prefix);
    assert id[|prefix|..] == key;
  }

  /** Ids of the form `mc_back_<u>:<g>` and `mc_forward_<u>:<g>` parse back
      to their action and session key, whose owner is `u`. */
  lemma McButtonRoundTrip(userId: string, guildId: string, back: bool)
    requires AllDigits(userId) && AllDigits(guildId)
    ensures var key := userId + ":" + guildId;
            && ParseMcButton((if back then "mc_back_" else "mc_forward_") + key) == Some(McButton(back, key))
            && KeyOwner(key) == userId
  {
    var key := userId + ":" + guildId;
    DigitsHaveNo(userId, ':');
    KeyOwnerOf(userId, guildId);
    if !back {
      var id := "mc_forward_" + key;
      DigitsHaveNo(userId, 'b');
      DigitsHaveNo(guildId, 'b');
      assert 'b' !in id by {
        assert forall k :: 0 <= k < |id| ==> id[k] == if k < 11 then "mc_forward_"[k] else key[k - 11];
        assert forall k :: 0 <= k < |key| ==> key[k] == if k < |userId| then userId[k] else if k == |userId| then ':' else guildId[k - |userId| - 1];
      }
      NoLetterNoMatch(id, "back");
    }
    McKeyOfId(key, back);
  }

  // ---------------------------------------------------------------------
  // Registries

  /** The member passed to `canUseNp`, possibly missing, possibly without a guild. */
  datatype Member = Member(guildId: Option<string>, roleIds: seq<string>)

  datatype AfkStatus = AfkStatus(reason: string, timestamp: int)

  datatype Giveaway = Giveaway(
    messageId: string, participants: seq<string>, winners: int, price: string,
    title: string, endTime: int, channelId: string)

  datatype McSession = McSession(currentPage: int, dates: seq<string>)

  datatype JoinResult = GiveawayEnded | AlreadyParticipating(total: nat) | Joined(total: nat)

  datatype McResult = NotMembercount | SessionExpired | NotSessionOwner | PageShown(page: int)

  /** `${guildId}:${userId}`: AFK status is per guild. */
  function AfkKey(guildId: string, userId: string): string { guildId + ":" + userId }

  /** `${userId}:${guildId}`: a membercount session belongs to its user. */
  function SessionKey(userId: string, guildId: string): string { userId + ":" + guildId }

  /** `map.get(guildId) || new Set()`. */
  function RolesOf(m: map<string, set<string>>, guildId: string): set<string> {
    if guildId in m then m[guildId] else {}
  }

  /** `addNpRole`: create the guild's set on first use, then add. */
  function NpAdd(m: map<string, set<string>>, guildId: string, roleId: string): (m': map<string, set<string>>)
    ensures guildId in m' && RolesOf(m', guildId) == RolesOf(m, guildId) + {roleId}
    ensures forall g :: g != guildId ==> (g in m' <==> g in m) && RolesOf(m', g) == RolesOf(m, g)
  {
    m[guildId := RolesOf(m, guildId) + {roleId}]
  }

  /** `removeNpRole`: delete from the guild's set when there is one. */
  function NpRemove(m: map<string, set<string>>, guildId: string, roleId: string): (m': map<string, set<string>>)
    ensures guildId !in m ==> m' == m
    ensures RolesOf(m', guildId) == RolesOf(m, guildId) - {roleId}
    ensures forall g :: g != guildId ==> (g in m' <==> g in m) && RolesOf(m', g) == RolesOf(m, g)
  {
    if guildId in m then m[guildId := m[guildId] - {roleId}] else m
  }

  /** `handleQuarantineBypass`: the guild's set is created for every action;
      only `add` and `remove` change its contents. */
  function BypassUpdate(m: map<string, set<string>>, guildId: string, action: string, roleId: string): (m': map<string, set<string>>)
    ensures guildId in m'
    ensures action == "add" ==> RolesOf(m', guildId) == RolesOf(m, guildId) + {roleId}
    ensures action == "remove" ==> RolesOf(m', guildId) == RolesOf(m, guildId) - {roleId}
    ensures action != "add" && action != "remove" ==> RolesOf(m', guildId) == RolesOf(m, guildId)
    ensures forall g :: g != guildId ==> (g in m' <==> g in m) && RolesOf(m', g) == RolesOf(m, g)
  {
    var current := RolesOf(m, guildId);
    m[guildId := if action == "add" then current + {roleId}
                 else if action == "remove" then current - {roleId}
                 else current]
  }

  /** `canUseNp`: some role of the member is in its guild's set. */
  predicate NpAllows(m: map<string, set<string>>, member: Option<Member>)
    ensures NpAllows(m, member) ==> member.Some? && member.value.guildId.Some? && member.value.guildId.value in m
                                    && member.value.roleIds != [] && m[member.value.guildId.value] != {}
  {
    member.Some? && member.value.guildId.Some?
    && exists i :: 0 <= i < |member.value.roleIds| && member.value.roleIds[i] in RolesOf(m, member.value.guildId.value)
  }

  /** Adding twice is adding once. */
  lemma NpAddIdempotent(m: map<string, set<string>>, guildId: string, roleId: string)
    ensures NpAdd(NpAdd(m, guildId, roleId), guildId, roleId) == NpAdd(m, guildId, roleId)
  {
    var once := NpAdd(m, guildId, roleId);
    assert RolesOf(once, guildId) + {roleId} == RolesOf(once, guildId);
  }

  /** After `addNpRole(g, r)` every member of `g` holding `r` may use np;
      after `removeNpRole(g, r)` a member whose only role is `r` may not. */
  lemma NpAddGrants(m: map<string, set<string>>, guildId: string, roleId: string, roles: seq<string>)
    requires roleId in roles
    ensures NpAllows(NpAdd(m, guildId, roleId), Some(Member(Some(guildId), roles)))
    ensures !NpAllows(NpRemove(m, guildId, roleId), Some(Member(Some(guildId), [roleId])))
  {
    var k :| 0 <= k < |roles| && roles[k] == roleId;
    assert roles[k] in RolesOf(NpAdd(m, guildId, roleId), guildId);
  }

  /** Without a member or a guild, np is refused whatever the configuration. */
  lemma NpNeedsMemberAndGuild(m: map<string, set<string>>, roles: seq<string>)
    ensures !NpAllows(m, None) && !NpAllows(m, Some(Member(None, roles)))
  {
  }

  /** The ids the loop reports as AFK: mentioned users with an entry in this guild. */
  function AfkMentioned(afk: map<string, AfkStatus>, guildId: string, mentions: seq<string>): (r: seq<string>)
    ensures forall u :: u in r <==> u in mentions && AfkKey(guildId, u) in afk
  {
    if mentions == [] then []
    else
      var rest := AfkMentioned(afk, guildId, mentions[..|mentions| - 1]);
      var u := mentions[|mentions| - 1];
      assert forall v :: v in mentions <==> v in mentions[..|mentions| - 1] || v == u;
      rest + (if AfkKey(guildId, u) in afk then [u] else [])
  }

  class SlashCommandHandler {
    var permanentExtraOwners: set<string>
    /** Declared and listed, but never written by any handler. */
    var temporaryExtraOwners: map<string, int>
    var bypassRoles: map<string, set<string>>
    var afkUsers: map<string, AfkStatus>
    var giveaways: map<string, Giveaway>
    var membercountSessions: map<string, McSession>
    var npAllowedRoles: map<string, set<string>>

    ghost predicate Valid()
      reads this
    {
      && (forall id :: id in giveaways ==> NoDup(giveaways[id].participants))
      && (forall k :: k in membercountSessions ==>
            0 <= membercountSessions[k].currentPage <= Max(0, |membercountSessions[k].dates| - 1))
    }

    constructor ()
      ensures Valid()
      ensures permanentExtraOwners == {} && temporaryExtraOwners == map[] && bypassRoles == map[]
      ensures afkUsers == map[] && giveaways == map[] && membercountSessions == map[] && npAllowedRoles == map[]
    {
      permanentExtraOwners, temporaryExtraOwners, bypassRoles := {}, map[], map[];
      afkUsers, giveaways, membercountSessions, npAllowedRoles := map[], map[], map[], map[];
    }

    // --- np roles and quarantine bypass

    /** Only a member of a guild that registered np roles, holding one of them, may use np. */
    predicate CanUseNp(member: Option<Member>)
      reads this
      ensures CanUseNp(member) ==> member.Some? && member.value.guildId.Some? && member.value.guildId.value in npAllowedRoles
                                   && exists i :: 0 <= i < |member.value.roleIds|
                                        && member.value.roleIds[i] in npAllowedRoles[member.value.guildId.value]
    {
      NpAllows(npAllowedRoles, member)
    }

    method AddNpRole(guildId: string, roleId: string)
      modifies this`npAllowedRoles
      ensures npAllowedRoles == NpAdd(old(npAllowedRoles), guildId, roleId)
    {
      if guildId !in npAllowedRoles {
        npAllowedRoles := npAllowedRoles[guildId := {}];
      }
      npAllowedRoles := npAllowedRoles[guildId := npAllowedRoles[guildId] + {roleId}];
    }

    method RemoveNpRole(guildId: string, roleId: string)
      modifies this`npAllowedRoles
      ensures npAllowedRoles == NpRemove(old(npAllowedRoles), guildId, roleId)
    {
      if guildId in npAllowedRoles {
        npAllowedRoles := npAllowedRoles[guildId := npAllowedRoles[guildId] - {roleId}];
      }
    }

    function GetNpRoles(guildId: string): (r: set<string>)
      reads this
      ensures guildId !in npAllowedRoles ==> r == {}
      ensures guildId in npAllowedRoles ==> r == npAllowedRoles[guildId]
    {
      RolesOf(npAllowedRoles, guildId)
    }

    method HandleQuarantineBypass(guildId: string, action: string, roleId: string)
      modifies this`bypassRoles
      ensures bypassRoles == BypassUpdate(old(bypassRoles), guildId, action, roleId)
    {
      if guildId !in bypassRoles {
        bypassRoles := bypassRoles[guildId := {}];
      }
      var bypassSet := bypassRoles[guildId];
      if action == "add" {
        bypassRoles := bypassRoles[guildId := bypassSet + {roleId}];
      } else if action == "remove" {
        bypassRoles := bypassRoles[guildId := bypassSet - {roleId}];
      }
    }

    // --- extra owners

    /** `handleExtraOwner`: bot owner only; returns whether it was allowed. */
    method HandleExtraOwner(env: Option<string>, callerId: string, userId: string) returns (allowed: bool)
      modifies this`permanentExtraOwners
      ensures allowed <==> callerId == BotOwnerId(env)
      ensures permanentExtraOwners == if allowed then old(permanentExtraOwners) + {userId} else old(permanentExtraOwners)
    {
      allowed := callerId == BotOwnerId(env);
      if allowed {
        permanentExtraOwners := permanentExtraOwners + {userId};
      }
    }

    /** `handleRemoveOwner`: bot owner only. */
    method HandleRemoveOwner(env: Option<string>, callerId: string, userId: string) returns (allowed: bool)
      modifies this`permanentExtraOwners
      ensures allowed <==> callerId == BotOwnerId(env)
      ensures permanentExtraOwners == if allowed then old(permanentExtraOwners) - {userId} else old(permanentExtraOwners)
    {
      allowed := callerId == BotOwnerId(env);
      if allowed {
        permanentExtraOwners := permanentExtraOwners - {userId};
      }
    }

    /** `handleTempOwner`: bot owner only, and it acknowledges without storing anything. */
    method HandleTempOwner(env: Option<string>, callerId: string, userId: string) returns (allowed: bool)
      ensures allowed <==> callerId == BotOwnerId(env)
    {
      allowed := callerId == BotOwnerId(env);
    }

    /** `handleListOwners`: the two sizes it reports. */
    function ListOwners(): (counts: (nat, nat))
      reads this
      ensures counts.0 == |permanentExtraOwners| && counts.1 == |temporaryExtraOwners|
    {
      (|permanentExtraOwners|, |temporaryExtraOwners|)
    }

    // --- AFK

    method HandleAfk(guildId: string, userId: string, reason: Option<string>, now: int)
      modifies this`afkUsers
      ensures afkUsers == old(afkUsers)[AfkKey(guildId, userId) := AfkStatus(OrDefault(reason, "AFK"), now)]
    {
      var r := if reason.Some? && reason.value != "" then reason.value else "AFK";
      afkUsers := afkUsers[AfkKey(guildId, userId) := AfkStatus(r, now)];
    }

    /** Reports the AFK mentioned users first, then clears the author's own
        entry for this guild; returns whether the author was welcomed back. */
    method CheckAfkMention(guildId: string, authorId: string, mentions: seq<string>)
      returns (notified: seq<string>, welcomedBack: bool)
      modifies this`afkUsers
      ensures notified == AfkMentioned(old(afkUsers), guildId, mentions)
      ensures welcomedBack <==> AfkKey(guildId, authorId) in old(afkUsers)
      ensures afkUsers == old(afkUsers) - {AfkKey(guildId, authorId)}
      ensures forall k :: k != AfkKey(guildId, authorId) && k in old(afkUsers) ==> k in afkUsers && afkUsers[k] == old(afkUsers)[k]
    {
      notified := [];
      var i := 0;
      while i < |mentions|
        invariant 0 <= i <= |mentions|
        invariant notified == AfkMentioned(afkUsers, guildId, mentions[..i])
      {
        assert mentions[..i + 1][..i] == mentions[..i];
        if AfkKey(guildId, mentions[i]) in afkUsers {
          notified := notified + [mentions[i]];
        }
        i := i + 1;
      }
      assert mentions[..i] == mentions;
      var authorKey := AfkKey(guildId, authorId);
      welcomedBack := authorKey in afkUsers;
      if welcomedBack {
        afkUsers := afkUsers - {authorKey};
      }
    }

    // --- giveaways

    method StartGiveaway(now: nat, durationMinutes: int, winners: int, messageId: string,
                         price: string, title: string, channelId: string) returns (giveawayId: string)
      requires Valid()
      modifies this`giveaways
      ensures Valid()
      ensures giveawayId == "giveaway_" + NatToString(now)
      ensures giveaways == old(giveaways)[giveawayId :=
                Giveaway(messageId, [], winners, price, title, now + durationMinutes * 60 * 1000, channelId)]
    {
      giveawayId := "giveaway_" + NatToString(now);
      var endTime := now + durationMinutes * 60 * 1000;
      giveaways := giveaways[giveawayId := Giveaway(messageId, [], winners, price, title, endTime, channelId)];
    }

    /** A click joins at most once; a repeat click reports the unchanged count. */
    method HandleGiveawayButton(customId: string, userId: string) returns (r: JoinResult)
      requires Valid()
      modifies this`giveaways
      ensures Valid()
      ensures customId !in old(giveaways) ==> r == GiveawayEnded && giveaways == old(giveaways)
      ensures customId in old(giveaways) && userId in old(giveaways)[customId].participants ==>
                r == AlreadyParticipating(|old(giveaways)[customId].participants|) && giveaways == old(giveaways)
      ensures customId in old(giveaways) && userId !in old(giveaways)[customId].participants ==>
                var g := old(giveaways)[customId];
                && giveaways == old(giveaways)[customId := g.(participants := g.participants + [userId])]
                && r == Joined(|g.participants| + 1)
    {
      if customId !in giveaways {
        return GiveawayEnded;
      }
      var g := giveaways[customId];
      if userId in g.participants {
        return AlreadyParticipating(|g.participants|);
      }
      var participants := g.participants + [userId];
      giveaways := giveaways[customId := g.(participants := participants)];
      r := Joined(|participants|);
    }

    /** The timer callback with the corrected draw: nothing happens for a
        missing or empty giveaway; otherwise winners are drawn and the
        giveaway is removed. */
    method EndGiveaway(giveawayId: string, picks: seq<nat>) returns (selected: Option<seq<string>>)
      requires Valid()
      modifies this`giveaways
      ensures Valid()
      ensures giveawayId !in old(giveaways) || old(giveaways)[giveawayId].participants == [] ==>
                selected.None? && giveaways == old(giveaways)
      ensures giveawayId in old(giveaways) && old(giveaways)[giveawayId].participants != [] ==>
                var g := old(giveaways)[giveawayId];
                && giveaways == old(giveaways) - {giveawayId}
                && selected.Some? && |selected.value| == DrawCount(g.winners, |g.participants|)
                && NoDup(selected.value) && (forall w :: w in selected.value ==> w in g.participants)
    {
      if giveawayId !in giveaways || giveaways[giveawayId].participants == [] {
        return None;
      }
      var g := giveaways[giveawayId];
      var winners := DrawWinners(g.participants, g.winners, picks);
      giveaways := giveaways - {giveawayId};
      selected := Some(winners);
    }

    // --- membercount

    method StartMembercountSession(userId: string, guildId: string, dates: seq<string>)
      requires Valid()
      modifies this`membercountSessions
      ensures Valid()
      ensures membercountSessions == old(membercountSessions)[SessionKey(userId, guildId) := McSession(0, dates)]
    {
      membercountSessions := membercountSessions[SessionKey(userId, guildId) := McSession(0, dates)];
    }

    method HandleMembercountButton(customId: string, userId: string) returns (r: McResult)
      requires Valid()
      modifies this`membercountSessions
      ensures Valid()
      ensures ParseMcButton(customId).None? ==> r == NotMembercount && membercountSessions == old(membercountSessions)
      ensures ParseMcButton(customId).Some? ==>
                var b := ParseMcButton(customId).value;
                && (b.sessionKey !in old(membercountSessions) ==> r == SessionExpired && membercountSessions == old(membercountSessions))
                && (b.sessionKey in old(membercountSessions) && userId != KeyOwner(b.sessionKey) ==>
                      r == NotSessionOwner && membercountSessions == old(membercountSessions))
                && (b.sessionKey in old(membercountSessions) && userId == KeyOwner(b.sessionKey) ==>
                      var s := old(membercountSessions)[b.sessionKey];
                      var page := PageStep(s.currentPage, |s.dates|, b.back);
                      r == PageShown(page) && membercountSessions == old(membercountSessions)[b.sessionKey := s.(currentPage := page)])
    {
      var parsed := ParseMcButton(customId);
      if parsed.None? {
        return NotMembercount;
      }
      var key := parsed.value.sessionKey;
      if key !in membercountSessions {
        return SessionExpired;
      }
      var session := membercountSessions[key];
      if userId != KeyOwner(key) {
        return NotSessionOwner;
      }
      PageStepInBounds(session.currentPage, |session.dates|, parsed.value.back);
      var page := session.currentPage;
      if parsed.value.back && page > 0 {
        page := page - 1;
      } else if !parsed.value.back && page < |session.dates| - 1 {
        page := page + 1;
      }
      membercountSessions := membercountSessions[key := session.(currentPage := page)];
      r := PageShown(page);
    }
  }
}
