/** The in-memory branch of the persistence layer: help-wizard sessions with a
    24-hour validity window, per-guild logging channels, append-only audit
    logs, ticket panels, active tickets and per-guild ticket counters.
    JavaScript `Map`s become map fields; where the code iterates a `Map`
    and the iteration order decides the result, the insertion order of its
    keys is kept beside it. The clock (`Date.now()`) is the argument `now`. */
module Database {
  import opened Common

  /** `24 * 60 * 60 * 1000` milliseconds. */
  const DAY_MS: int := 24 * 60 * 60 * 1000

  // ---------------------------------------------------------------------
  // Help-wizard sessions

  datatype HelpSession = HelpSession(
    interactionId: string, userId: string, guildId: string,
    currentCard: int, createdAt: int, updatedAt: int)

  /** The in-memory key `${userId}_${guildId}`. */
  function HelpKey(userId: string, guildId: string): string {
    userId + "_" + guildId
  }

  /** The expiry test of the read and of the sweep: strictly older than a day. */
  predicate Expired(s: HelpSession, now: int) {
    now - s.createdAt > DAY_MS
  }

  /** The record `saveHelpInteraction` stores at time `now`. */
  function NewSession(interactionId: string, userId: string, guildId: string, currentCard: int, now: int): (s: HelpSession)
    ensures s.userId == userId && s.guildId == guildId && s.currentCard == currentCard
    ensures s.createdAt == now && s.updatedAt == now
  {
    HelpSession(interactionId, userId, guildId, currentCard, now, now)
  }

  /** What `getHelpInteraction` returns (the `valid: true` flag is implied by Some). */
  function HelpLookup(m: map<string, HelpSession>, userId: string, guildId: string, now: int): (r: Option<HelpSession>)
    ensures r.Some? <==> HelpKey(userId, guildId) in m && !Expired(m[HelpKey(userId, guildId)], now)
    ensures r.Some? ==> r.value == m[HelpKey(userId, guildId)]
  {
    var key := HelpKey(userId, guildId);
    if key !in m then None
    else if Expired(m[key], now) then None
    else Some(m[key])
  }

  /** The map left by a read: the entry is dropped when the read found it expired. */
  function AfterLookup(m: map<string, HelpSession>, userId: string, guildId: string, now: int): (m': map<string, HelpSession>)
    ensures forall k :: k in m' <==> k in m && !(k == HelpKey(userId, guildId) && Expired(m[k], now))
    ensures forall k :: k in m' ==> m'[k] == m[k]
  {
    var key := HelpKey(userId, guildId);
    if key in m && Expired(m[key], now) then m - {key} else m
  }

  /** The map left by the sweep: exactly the entries that are not expired. */
  function Sweep(m: map<string, HelpSession>, now: int): (m': map<string, HelpSession>)
    ensures forall k :: k in m' <==> k in m && !Expired(m[k], now)
    ensures forall k :: k in m' ==> m'[k] == m[k]
  {
    map k | k in m && !Expired(m[k], now) :: m[k]
  }

  /** Sessions counted as active by the statistics: strictly younger than a day. */
  function ActiveKeys(m: map<string, HelpSession>, now: int): (r: set<string>)
    ensures forall k :: k in r <==> k in m && now - m[k].createdAt < DAY_MS
  {
    set k | k in m && now - m[k].createdAt < DAY_MS
  }

  datatype Stats = Stats(kind: string, totalInteractions: nat, activeInteractions: nat)

  /** Read-your-write: a session saved at `createdAt` reads back, with its card,
      at every `now` up to and including `createdAt + 24h`. */
  lemma ReadYourWrite(m: map<string, HelpSession>, interactionId: string, userId: string, guildId: string,
                      card: int, createdAt: int, now: int)
    requires now <= createdAt + DAY_MS
    ensures var r := HelpLookup(m[HelpKey(userId, guildId) := NewSession(interactionId, userId, guildId, card, createdAt)], userId, guildId, now);
            r.Some? && r.value.currentCard == card && r.value.interactionId == interactionId
  {
  }

  /** A session more than 24h old reads as absent, and the read deletes it. */
  lemma ExpiredReadsAbsent(m: map<string, HelpSession>, userId: string, guildId: string, now: int)
    requires HelpKey(userId, guildId) in m && now - m[HelpKey(userId, guildId)].createdAt > DAY_MS
    ensures HelpLookup(m, userId, guildId, now).None?
    ensures HelpKey(userId, guildId) !in AfterLookup(m, userId, guildId, now)
  {
  }

  /** The comparison is strict: a session exactly 24h old is still returned. */
  lemma ExactlyOneDayStillValid(m: map<string, HelpSession>, userId: string, guildId: string, now: int)
    requires HelpKey(userId, guildId) in m && now - m[HelpKey(userId, guildId)].createdAt == DAY_MS
    ensures HelpLookup(m, userId, guildId, now) == Some(m[HelpKey(userId, guildId)])
  {
  }

  /** The sweep keeps every active session, so the active count is unchanged by it. */
  lemma SweepKeepsActive(m: map<string, HelpSession>, now: int)
    ensures ActiveKeys(Sweep(m, now), now) == ActiveKeys(m, now)
    ensures |ActiveKeys(Sweep(m, now), now)| <= |Sweep(m, now)|
  {
    var s := Sweep(m, now);
    assert ActiveKeys(s, now) <= s.Keys;
    assert ActiveKeys(s, now) == ActiveKeys(m, now);
    SubsetCard(ActiveKeys(s, now), s.Keys);
  }

  lemma SubsetCard(a: set<string>, b: set<string>)
    requires a <= b
    ensures |a| <= |b|
  {
    assert b == a + (b - a);
  }

  /** A session is never both counted active and swept; one exactly 24h old is
      neither (the statistics use `<` where the read uses `>`). */
  lemma ActiveNotExpired(s: HelpSession, now: int)
    ensures now - s.createdAt < DAY_MS ==> !Expired(s, now)
    ensures now - s.createdAt == DAY_MS ==> !Expired(s, now) && !(now - s.createdAt < DAY_MS)
  {
  }

  /** In `${u}_${g}` with a digit-only `u`, the first underscore sits right after `u`. */
  lemma FirstUnderscore(u: string, g: string)
    requires AllDigits(u)
    ensures HelpKey(u, g)[|u|] == '_'
    ensures forall i :: 0 <= i < |u| ==> HelpKey(u, g)[i] != '_'
  {
    forall i | 0 <= i < |u| ensures HelpKey(u, g)[i] != '_' {
      assert HelpKey(u, g)[i] == u[i];
    }
  }

  /** Keys of digit-only ids never collide: `${u}_${g}` determines (u, g). */
  lemma HelpKeyInjective(u1: string, g1: string, u2: string, g2: string)
    requires AllDigits(u1) && AllDigits(u2)
    requires HelpKey(u1, g1) == HelpKey(u2, g2)
    ensures u1 == u2 && g1 == g2
  {
    var k := HelpKey(u1, g1);
    FirstUnderscore(u1, g1);
    FirstUnderscore(u2, g2);
    assert |u1| == |u2|;
    assert u1 == k[..|u1|] && u2 == k[..|u2|];
    assert g1 == k[|u1| + 1..] && g2 == k[|u2| + 1..];
  }

  // ---------------------------------------------------------------------
  // Audit logs

  datatype AuditEntry = AuditEntry(
    guildId: string, logType: string, userId: Option<string>, moderatorId: Option<string>,
    reason: Option<string>, details: Option<string>, createdAt: int)

  /** `logs.filter(log => log.logType === t)`. */
  function OfType(logs: seq<AuditEntry>, t: string): (r: seq<AuditEntry>)
    ensures |r| <= |logs|
    ensures forall e :: e in r ==> e in logs && e.logType == t
  {
    if logs == [] then []
    else OfType(logs[..|logs| - 1], t) + (if logs[|logs| - 1].logType == t then [logs[|logs| - 1]] else [])
  }

  /** `s.slice(-n)` for a count `n`: the last `n` entries; `slice(-0)` is `slice(0)`, the whole list. */
  function SliceFromEnd(s: seq<AuditEntry>, n: nat): (r: seq<AuditEntry>)
    ensures n >= 1 ==> |r| == Min(n, |s|)
    ensures n == 0 ==> r == s
    ensures r == s[|s| - |r|..]
  {
    if n == 0 || n >= |s| then s else s[|s| - n..]
  }

  function Reverse(s: seq<AuditEntry>): (r: seq<AuditEntry>)
    ensures |r| == |s|
    ensures forall i :: 0 <= i < |s| ==> r[i] == s[|s| - 1 - i]
  {
    if s == [] then [] else Reverse(s[1..]) + [s[0]]
  }

  /** `getAuditLogs` on one guild's list: the filter (when the type is truthy)
      comes before the limit, and the result is newest-appended first. */
  function AuditView(logs: seq<AuditEntry>, logType: Option<string>, limit: nat): (r: seq<AuditEntry>)
    ensures limit >= 1 ==> |r| <= limit
    ensures logType.Some? && logType.value != "" ==> forall e :: e in r ==> e.logType == logType.value
    ensures forall e :: e in r ==> e in logs
  {
    var filtered := if logType.Some? && logType.value != "" then OfType(logs, logType.value) else logs;
    Reverse(SliceFromEnd(filtered, limit))
  }

  function CountOfType(logs: seq<AuditEntry>, t: string): nat {
    |OfType(logs, t)|
  }

  /** Filtering before the limit: with `k` matching entries, `min(limit, k)`
      are returned however many other entries are interleaved with them. */
  lemma FilterBeforeLimit(logs: seq<AuditEntry>, t: string, limit: nat)
    requires t != "" && limit >= 1
    ensures |AuditView(logs, Some(t), limit)| == Min(limit, CountOfType(logs, t))
  {
  }

  /** The entry appended last is the first one listed, with or without its type as filter. */
  lemma {:induction false} NewestFirst(logs: seq<AuditEntry>, e: AuditEntry, limit: nat)
    requires e.logType != ""
    ensures AuditView(logs + [e], Some(e.logType), limit) != [] && AuditView(logs + [e], Some(e.logType), limit)[0] == e
    ensures AuditView(logs + [e], None, limit) != [] && AuditView(logs + [e], None, limit)[0] == e
  {
    var all := logs + [e];
    assert all[..|all| - 1] == logs;
    var f := OfType(all, e.logType);
    assert f == OfType(logs, e.logType) + [e];
  }

  /** Appending never changes what was already listed for other types. */
  lemma {:induction false} AppendOtherType(logs: seq<AuditEntry>, e: AuditEntry, t: string, limit: nat)
    requires t != "" && e.logType != t
    ensures AuditView(logs + [e], Some(t), limit) == AuditView(logs, Some(t), limit)
  {
    var all := logs + [e];
    assert all[..|all| - 1] == logs;
    assert OfType(all, t) == OfType(logs, t);
  }

  /** `getAllAuditLogs` concatenates the guild lists in the guilds' insertion order. */
  function ConcatLogs(order: seq<string>, logs: map<string, seq<AuditEntry>>): seq<AuditEntry>
    requires forall g :: g in order ==> g in logs
  {
    if order == [] then [] else ConcatLogs(order[..|order| - 1], logs) + logs[order[|order| - 1]]
  }

  predicate IsNewestFirst(s: seq<AuditEntry>) {
    forall i, j :: 0 <= i < j < |s| ==> s[i].createdAt >= s[j].createdAt
  }

  /** Inserts `e` before the first entry that is not newer than it (keeps equal
      entries in their original order, as the engine's stable sort does). */
  function InsertNewest(e: AuditEntry, s: seq<AuditEntry>): (r: seq<AuditEntry>)
    ensures multiset(r) == multiset(s) + multiset{e}
  {
    if s == [] then [e]
    else if s[0].createdAt <= e.createdAt then [e] + s
    else
      assert s == [s[0]] + s[1..];
      [s[0]] + InsertNewest(e, s[1..])
  }

  lemma TailNewestFirst(s: seq<AuditEntry>)
    requires s != [] && IsNewestFirst(s)
    ensures IsNewestFirst(s[1..])
  {
    forall i, j | 0 <= i < j < |s[1..]| ensures s[1..][i].createdAt >= s[1..][j].createdAt {
      assert s[1..][i] == s[i + 1] && s[1..][j] == s[j + 1];
    }
  }

  lemma {:induction false} InsertNewestSorted(e: AuditEntry, s: seq<AuditEntry>)
    requires IsNewestFirst(s)
    ensures IsNewestFirst(InsertNewest(e, s))
  {
    if s == [] {
    } else if s[0].createdAt <= e.createdAt {
      var r := [e] + s;
      forall i, j | 0 <= i < j < |r| ensures r[i].createdAt >= r[j].createdAt {
        if i == 0 && j > 1 { assert s[0].createdAt >= s[j - 1].createdAt; }
      }
    } else {
      TailNewestFirst(s);
      InsertNewestSorted(e, s[1..]);
      var t := InsertNewest(e, s[1..]);
      var r := [s[0]] + t;
      forall i, j | 0 <= i < j < |r| ensures r[i].createdAt >= r[j].createdAt {
        if i == 0 {
          var x := t[j - 1];
          assert x in multiset(t);
          if x != e {
            assert x in multiset(s[1..]);
            var k :| 0 <= k < |s[1..]| && s[1..][k] == x;
            assert s[k + 1] == x;
          }
        }
      }
    }
  }

  /** `arr.sort((a, b) => b.createdAt - a.createdAt)`, a stable sort, newest first. */
  function SortNewestFirst(s: seq<AuditEntry>): (r: seq<AuditEntry>)
    ensures multiset(r) == multiset(s)
    ensures IsNewestFirst(r)
  {
    if s == [] then []
    else
      assert s == [s[0]] + s[1..];
      InsertNewestSorted(s[0], SortNewestFirst(s[1..]));
      InsertNewest(s[0], SortNewestFirst(s[1..]))
  }

  /** `s.slice(0, n)`. */
  function Take(s: seq<AuditEntry>, n: nat): (r: seq<AuditEntry>)
    ensures |r| == Min(n, |s|) && r == s[..|r|]
  {
    if n <= |s| then s[..n] else s
  }

  /** A prefix of a newest-first list is newest first and drawn from it. */
  lemma TakeNewestFirst(s: seq<AuditEntry>, n: nat)
    requires IsNewestFirst(s)
    ensures IsNewestFirst(Take(s, n))
    ensures multiset(Take(s, n)) <= multiset(s)
  {
    var r := Take(s, n);
    assert s == r + s[|r|..];
    assert multiset(s) == multiset(r) + multiset(s[|r|..]);
  }

  // ---------------------------------------------------------------------
  // Tickets

  datatype TicketPanel = TicketPanel(channelId: string, messageId: string, roleId: string, message: string)

  datatype ActiveTicket = ActiveTicket(userId: string, guildId: string, ticketNumber: int, createdAt: int)

  /** An element of `getGuildTickets`: `{ channelId, ...ticketInfo }`. */
  datatype GuildTicket = GuildTicket(channelId: string, ticket: ActiveTicket)

  predicate TicketMatches(t: ActiveTicket, guildId: string, userId: string) {
    t.guildId == guildId && t.userId == userId
  }

  /** The active tickets of a guild, in the channels' insertion order. */
  function GuildTicketsOf(order: seq<string>, tickets: map<string, ActiveTicket>, guildId: string): (r: seq<GuildTicket>)
    requires forall c :: c in order ==> c in tickets
    ensures forall x :: x in r ==>
              x.channelId in order && x.channelId in tickets && x.ticket == tickets[x.channelId] && x.ticket.guildId == guildId
    ensures forall k :: 0 <= k < |order| && tickets[order[k]].guildId == guildId ==>
                          GuildTicket(order[k], tickets[order[k]]) in r
  {
    if order == [] then []
    else
      var last := order[|order| - 1];
      var init := order[..|order| - 1];
      assert forall k :: 0 <= k < |init| ==> init[k] == order[k];
      GuildTicketsOf(init, tickets, guildId)
        + (if tickets[last].guildId == guildId then [GuildTicket(last, tickets[last])] else [])
  }

  class Store {
    var helpInteractions: map<string, HelpSession>
    var loggingChannels: map<string, string>
    var auditLogs: map<string, seq<AuditEntry>>
    /** Insertion order of the keys of `auditLogs`. */
    var auditGuilds: seq<string>
    var ticketPanels: map<string, TicketPanel>
    var activeTickets: map<string, ActiveTicket>
    /** Insertion order of the keys of `activeTickets`. */
    var ticketChannels: seq<string>
    var ticketNumbers: map<string, int>

    ghost predicate Valid()
      reads this
    {
      && NoDup(auditGuilds) && (forall g :: g in auditGuilds <==> g in auditLogs)
      && NoDup(ticketChannels) && (forall c :: c in ticketChannels <==> c in activeTickets)
    }

    constructor ()
      ensures Valid()
      ensures helpInteractions == map[] && loggingChannels == map[] && auditLogs == map[]
      ensures ticketPanels == map[] && activeTickets == map[] && ticketNumbers == map[]
    {
      helpInteractions, loggingChannels, auditLogs, auditGuilds := map[], map[], map[], [];
      ticketPanels, activeTickets, ticketChannels, ticketNumbers := map[], map[], [], map[];
    }

    // --- help sessions

    method SaveHelpInteraction(interactionId: string, userId: string, guildId: string, currentCard: int, now: int)
      returns (ok: bool)
      modifies this`helpInteractions
      ensures ok
      ensures helpInteractions == old(helpInteractions)[HelpKey(userId, guildId) := NewSession(interactionId, userId, guildId, currentCard, now)]
    {
      helpInteractions := helpInteractions[HelpKey(userId, guildId) := NewSession(interactionId, userId, guildId, currentCard, now)];
      ok := true;
    }

    method GetHelpInteraction(userId: string, guildId: string, now: int) returns (r: Option<HelpSession>)
      modifies this`helpInteractions
      ensures r == HelpLookup(old(helpInteractions), userId, guildId, now)
      ensures helpInteractions == AfterLookup(old(helpInteractions), userId, guildId, now)
    {
      var key := HelpKey(userId, guildId);
      if key !in helpInteractions {
        return None;
      }
      var data := helpInteractions[key];
      if now - data.createdAt > DAY_MS {
        helpInteractions := helpInteractions - {key};
        return None;
      }
      r := Some(data);
    }

    /** Always reports success, whether or not a record was there. */
    method DeleteHelpInteraction(userId: string, guildId: string) returns (ok: bool)
      modifies this`helpInteractions
      ensures ok
      ensures helpInteractions == old(helpInteractions) - {HelpKey(userId, guildId)}
    {
      helpInteractions := helpInteractions - {HelpKey(userId, guildId)};
      ok := true;
    }

    /** The periodic sweep: visits every entry and deletes the expired ones. */
    method CleanupOldInteractions(now: int) returns (ok: bool)
      modifies this`helpInteractions
      ensures ok
      ensures helpInteractions == Sweep(old(helpInteractions), now)
    {
      var pending := helpInteractions.Keys;
      ghost var original := helpInteractions;
      while pending != {}
        invariant pending <= original.Keys
        invariant forall k :: k in helpInteractions <==> k in original && (k in pending || !Expired(original[k], now))
        invariant forall k :: k in helpInteractions ==> helpInteractions[k] == original[k]
        decreases pending
      {
        var key :| key in pending;
        if now - helpInteractions[key].createdAt > DAY_MS {
          helpInteractions := helpInteractions - {key};
        }
        pending := pending - {key};
      }
      assert helpInteractions == Sweep(original, now);
      ok := true;
    }

    /** The in-memory branch of `closeDatabase`: only the help sessions are cleared. */
    method Close()
      modifies this`helpInteractions
      ensures helpInteractions == map[]
    {
      helpInteractions := map[];
    }

    function DatabaseStats(now: int): (s: Stats)
      reads this
      ensures s.kind == "in-memory"
      ensures s.totalInteractions == |helpInteractions|
      ensures s.activeInteractions == |ActiveKeys(helpInteractions, now)|
      ensures s.activeInteractions <= s.totalInteractions
      ensures forall k :: k in helpInteractions && now - helpInteractions[k].createdAt < DAY_MS ==> s.activeInteractions >= 1
    {
      var active := ActiveKeys(helpInteractions, now);
      SubsetCard(active, helpInteractions.Keys);
      assert forall k :: k in helpInteractions && now - helpInteractions[k].createdAt < DAY_MS ==> k in active;
      Stats("in-memory", |helpInteractions|, |active|)
    }

    // --- tickets

    method SaveTicketPanel(guildId: string, panel: TicketPanel)
      modifies this`ticketPanels
      ensures ticketPanels == old(ticketPanels)[guildId := panel]
    {
      ticketPanels := ticketPanels[guildId := panel];
    }

    function GetTicketPanel(guildId: string): (r: Option<TicketPanel>)
      reads this
      ensures r.Some? <==> guildId in ticketPanels
      ensures r.Some? ==> r.value == ticketPanels[guildId]
    {
      if guildId in ticketPanels then Some(ticketPanels[guildId]) else None
    }

    method SaveActiveTicket(channelId: string, ticket: ActiveTicket)
      requires Valid()
      modifies this`activeTickets, this`ticketChannels
      ensures Valid()
      ensures activeTickets == old(activeTickets)[channelId := ticket]
      ensures ticketChannels == Insert(old(ticketChannels), channelId)
    {
      activeTickets := activeTickets[channelId := ticket];
      ticketChannels := Insert(ticketChannels, channelId);
    }

    function GetActiveTicket(channelId: string): (r: Option<ActiveTicket>)
      reads this
      ensures r.Some? <==> channelId in activeTickets
      ensures r.Some? ==> r.value == activeTickets[channelId]
    {
      if channelId in activeTickets then Some(activeTickets[channelId]) else None
    }

    method DeleteActiveTicket(channelId: string) returns (deleted: bool)
      requires Valid()
      modifies this`activeTickets, this`ticketChannels
      ensures Valid()
      ensures deleted == (channelId in old(activeTickets))
      ensures activeTickets == old(activeTickets) - {channelId}
      ensures GetActiveTicket(channelId).None?
      ensures forall c :: c != channelId ==> GetActiveTicket(c) == old(GetActiveTicket(c))
      ensures ticketChannels == Without(old(ticketChannels), channelId)
    {
      deleted := channelId in activeTickets;
      WithoutNoDup(ticketChannels, channelId);
      activeTickets := activeTickets - {channelId};
      ticketChannels := Without(ticketChannels, channelId);
    }

    /** The linear scan: the first channel, in insertion order, whose ticket
        belongs to the guild and the user. */
    method FindUserTicket(guildId: string, userId: string) returns (r: Option<string>)
      requires Valid()
      ensures r.Some? ==> r.value in activeTickets && TicketMatches(activeTickets[r.value], guildId, userId)
      ensures r.Some? ==> exists i :: 0 <= i < |ticketChannels| && ticketChannels[i] == r.value &&
                            forall k :: 0 <= k < i ==> !TicketMatches(activeTickets[ticketChannels[k]], guildId, userId)
      ensures r.None? <==> forall c :: c in activeTickets ==> !TicketMatches(activeTickets[c], guildId, userId)
    {
      var i := 0;
      while i < |ticketChannels|
        invariant 0 <= i <= |ticketChannels|
        invariant forall k :: 0 <= k < i ==> !TicketMatches(activeTickets[ticketChannels[k]], guildId, userId)
      {
        var c := ticketChannels[i];
        if TicketMatches(activeTickets[c], guildId, userId) {
          return Some(c);
        }
        i := i + 1;
      }
      r := None;
      forall c | c in activeTickets ensures !TicketMatches(activeTickets[c], guildId, userId) {
        var k :| 0 <= k < |ticketChannels| && ticketChannels[k] == c;
      }
    }

    method GetGuildTickets(guildId: string) returns (r: seq<GuildTicket>)
      requires Valid()
      ensures r == GuildTicketsOf(ticketChannels, activeTickets, guildId)
      ensures forall x :: x in r ==> x.channelId in activeTickets && x.ticket == activeTickets[x.channelId] && x.ticket.guildId == guildId
      ensures forall c :: c in activeTickets && activeTickets[c].guildId == guildId ==> GuildTicket(c, activeTickets[c]) in r
    {
      r := [];
      var i := 0;
      while i < |ticketChannels|
        invariant 0 <= i <= |ticketChannels|
        invariant r == GuildTicketsOf(ticketChannels[..i], activeTickets, guildId)
      {
        var c := ticketChannels[i];
        assert ticketChannels[..i + 1][..i] == ticketChannels[..i];
        if activeTickets[c].guildId == guildId {
          r := r + [GuildTicket(c, activeTickets[c])];
        }
        i := i + 1;
      }
      assert ticketChannels[..i] == ticketChannels;
      forall c | c in activeTickets && activeTickets[c].guildId == guildId ensures GuildTicket(c, activeTickets[c]) in r {
        var k :| 0 <= k < |ticketChannels| && ticketChannels[k] == c;
      }
    }

    function GetCurrentTicketNumber(guildId: string): (n: int)
      reads this
      ensures guildId !in ticketNumbers ==> n == 0
      ensures guildId in ticketNumbers && ticketNumbers[guildId] != 0 ==> n == ticketNumbers[guildId]
    {
      if guildId in ticketNumbers && ticketNumbers[guildId] != 0 then ticketNumbers[guildId] else 0
    }

    /** Read-increment-write of the guild's counter. */
    method GetNextTicketNumber(guildId: string) returns (n: int)
      modifies this`ticketNumbers
      ensures n == old(GetCurrentTicketNumber(guildId)) + 1
      ensures ticketNumbers == old(ticketNumbers)[guildId := n]
      ensures n != 0 ==> GetCurrentTicketNumber(guildId) == n
      ensures forall g :: g != guildId ==> GetCurrentTicketNumber(g) == old(GetCurrentTicketNumber(g))
    {
      n := GetCurrentTicketNumber(guildId);
      n := n + 1;
      ticketNumbers := ticketNumbers[guildId := n];
    }

    // --- logging channels

    method SaveLoggingChannel(guildId: string, channelId: string) returns (ok: bool)
      modifies this`loggingChannels
      ensures ok
      ensures loggingChannels == old(loggingChannels)[guildId := channelId]
      ensures channelId != "" ==> GetLoggingChannel(guildId) == Some(channelId)
      ensures forall g :: g != guildId ==> GetLoggingChannel(g) == old(GetLoggingChannel(g))
    {
      loggingChannels := loggingChannels[guildId := channelId];
      ok := true;
    }

    /** `loggingChannels.get(guildId) || null`: absent and empty read as null. */
    function GetLoggingChannel(guildId: string): (r: Option<string>)
      reads this
      ensures guildId !in loggingChannels ==> r.None?
      ensures guildId in loggingChannels && loggingChannels[guildId] != "" ==> r == Some(loggingChannels[guildId])
      ensures r.Some? ==> guildId in loggingChannels && r.value == loggingChannels[guildId] && r.value != ""
    {
      if guildId in loggingChannels && loggingChannels[guildId] != "" then Some(loggingChannels[guildId]) else None
    }

    // --- audit logs

    method SaveAuditLog(guildId: string, logType: string, userId: Option<string>, moderatorId: Option<string>,
                        reason: Option<string>, details: Option<string>, now: int) returns (ok: bool)
      requires Valid()
      modifies this`auditLogs, this`auditGuilds
      ensures Valid() && ok
      ensures var e := AuditEntry(guildId, logType, userId, moderatorId, reason, details, now);
              auditLogs == old(auditLogs)[guildId := old(LogsOf(guildId)) + [e]]
      ensures auditGuilds == Insert(old(auditGuilds), guildId)
    {
      var entry := AuditEntry(guildId, logType, userId, moderatorId, reason, details, now);
      if guildId !in auditLogs {
        auditLogs := auditLogs[guildId := []];
        auditGuilds := auditGuilds + [guildId];
      }
      auditLogs := auditLogs[guildId := auditLogs[guildId] + [entry]];
      ok := true;
    }

    /** `auditLogs.get(guildId) || []`. */
    function LogsOf(guildId: string): seq<AuditEntry>
      reads this
    {
      if guildId in auditLogs then auditLogs[guildId] else []
    }

    function GetAuditLogs(guildId: string, logType: Option<string>, limit: nat): (r: seq<AuditEntry>)
      reads this
      ensures limit >= 1 ==> |r| <= limit
      ensures forall e :: e in r ==> e in LogsOf(guildId)
      ensures logType.Some? && logType.value != "" ==> forall e :: e in r ==> e.logType == logType.value
    {
      AuditView(LogsOf(guildId), logType, limit)
    }

    /** Every guild's entries together, newest first, at most `limit` of them. */
    method GetAllAuditLogs(limit: nat) returns (r: seq<AuditEntry>)
      requires Valid()
      ensures var all := ConcatLogs(auditGuilds, auditLogs);
              && r == Take(SortNewestFirst(all), limit)
              && |r| == Min(limit, |all|)
              && IsNewestFirst(r)
              && multiset(r) <= multiset(all)
    {
      var all: seq<AuditEntry> := [];
      var i := 0;
      while i < |auditGuilds|
        invariant 0 <= i <= |auditGuilds|
        invariant all == ConcatLogs(auditGuilds[..i], auditLogs)
      {
        assert auditGuilds[..i + 1][..i] == auditGuilds[..i];
        all := all + auditLogs[auditGuilds[i]];
        i := i + 1;
      }
      assert auditGuilds[..i] == auditGuilds;
      var sorted := SortNewestFirst(all);
      r := Take(sorted, limit);
      TakeNewestFirst(sorted, limit);
    }
  }
}
