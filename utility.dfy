/** The utility commands: the AFK registry with its argument validation and
    expiry, the rename permission and nickname extraction, and the arithmetic
    behind the uptime, role-colour and security-level displays. */
module Utility {
  import opened Common

  // ---------------------------------------------------------------------
  // Uptime

  datatype Duration = Duration(days: nat, hours: nat, minutes: nat, seconds: nat)

  /** The uptime breakdown of a whole number of seconds. */
  function UptimeSplit(uptime: nat): (d: Duration)
    ensures d.hours < 24 && d.minutes < 60 && d.seconds < 60
    ensures d.days * 86400 + d.hours * 3600 + d.minutes * 60 + d.seconds == uptime
  {
    var d := Duration(uptime / 86400, (uptime % 86400) / 3600, (uptime % 3600) / 60, uptime % 60);
    SplitSum(uptime);
    d
  }

  lemma SplitSum(u: nat)
    ensures (u / 86400) * 86400 + ((u % 86400) / 3600) * 3600 + ((u % 3600) / 60) * 60 + u % 60 == u
    ensures (u % 86400) / 3600 < 24
  {
    HoursRemainder(u);
    MinutesRemainder(u);
  }

  // Quotient and remainder are unique, for each divisor of the display.

  lemma DivMod86400(x: int, q: int, r: int)
    requires 0 <= r < 86400 && x == 86400 * q + r
    ensures x / 86400 == q && x % 86400 == r
  {
  }

  lemma DivMod3600(x: int, q: int, r: int)
    requires 0 <= r < 3600 && x == 3600 * q + r
    ensures x / 3600 == q && x % 3600 == r
  {
  }

  lemma DivMod60(x: int, q: int, r: int)
    requires 0 <= r < 60 && x == 60 * q + r
    ensures x / 60 == q && x % 60 == r
  {
  }

  /** Whole days are whole hours: the hour remainder ignores the days. */
  lemma HoursRemainder(u: nat)
    ensures u % 3600 == (u % 86400) % 3600
  {
    var k := u / 86400;
    var r := u % 86400;
    var h := r / 3600;
    var q := r % 3600;
    assert u == 3600 * (24 * k + h) + q;
    DivMod3600(u, 24 * k + h, q);
  }

  lemma MinutesRemainder(u: nat)
    ensures u % 60 == (u % 3600) % 60
  {
    var k := u / 3600;
    var r := u % 3600;
    var m := r / 60;
    var q := r % 60;
    assert u == 60 * (60 * k + m) + q;
    DivMod60(u, 60 * k + m, q);
  }

  /** The breakdown is the only one with hours, minutes and seconds in range. */
  lemma UptimeSplitUnique(uptime: nat, d: Duration)
    requires d.hours < 24 && d.minutes < 60 && d.seconds < 60
    requires d.days * 86400 + d.hours * 3600 + d.minutes * 60 + d.seconds == uptime
    ensures UptimeSplit(uptime) == d
  {
    var tail := 60 * d.minutes + d.seconds;
    var rest := 3600 * d.hours + tail;
    DivMod86400(uptime, d.days, rest);
    DivMod3600(rest, d.hours, tail);
    DivMod3600(uptime, 24 * d.days + d.hours, tail);
    DivMod60(tail, d.minutes, d.seconds);
    DivMod60(uptime, 60 * (24 * d.days + d.hours) + d.minutes, d.seconds);
  }

  // ---------------------------------------------------------------------
  // Role colour

  /** `(c >> 16) & 255`, `(c >> 8) & 255` and `c & 255` on the 32-bit value. */
  function RgbSplit(color: bv32): (rgb: (bv32, bv32, bv32))
    ensures rgb.0 < 256 && rgb.1 < 256 && rgb.2 < 256
  {
    ((color >> 16) & 255, (color >> 8) & 255, color & 255)
  }

  /** A 24-bit colour is its three components recombined. */
  lemma RgbRoundTrip(color: bv32)
    requires color < 0x100_0000
    ensures (RgbSplit(color).0 << 16) | (RgbSplit(color).1 << 8) | RgbSplit(color).2 == color
  {
  }

  /** Three components form a colour whose split returns them. */
  lemma RgbOfComponents(r: bv32, g: bv32, b: bv32)
    requires r < 256 && g < 256 && b < 256
    ensures RgbSplit((r << 16) | (g << 8) | b) == (r, g, b)
  {
  }

  // ---------------------------------------------------------------------
  // Security level

  datatype SecurityLabel = LowSecurity | MediumSecurity | HighSecurity

  function SecurityLabelOf(verificationLevel: int): (l: SecurityLabel)
    ensures l == HighSecurity <==> verificationLevel >= 3
    ensures l == MediumSecurity <==> verificationLevel == 2
    ensures l == LowSecurity <==> verificationLevel < 2
  {
    if verificationLevel >= 3 then HighSecurity
    else if verificationLevel >= 2 then MediumSecurity
    else LowSecurity
  }

  function Rank(l: SecurityLabel): nat {
    match l
    case LowSecurity => 0
    case MediumSecurity => 1
    case HighSecurity => 2
  }

  /** A stricter verification level never shows a weaker label. */
  lemma SecurityLabelMonotone(a: int, b: int)
    requires a <= b
    ensures Rank(SecurityLabelOf(a)) <= Rank(SecurityLabelOf(b))
  {
  }

  // ---------------------------------------------------------------------
  // Rename

  /** `handleRename`'s permission: the bot owner, the server owner, or a
      member with Manage Nicknames. */
  function RenameAuthorized(env: Option<string>, authorId: string, guildOwnerId: string, manageNicknames: bool): (ok: bool)
    ensures !ok <==> authorId != BotOwnerId(env) && authorId != guildOwnerId && !manageNicknames
  {
    authorId == BotOwnerId(env) || authorId == guildOwnerId || manageNicknames
  }

  const MAX_NICKNAME := 32

  /** The first `"` after index `i`, if any. */
  function NextQuote(s: string, i: nat): (r: Option<nat>)
    decreases |s| - i
    ensures r.Some? ==> i <= r.value < |s| && s[r.value] == '"'
    ensures r.Some? ==> forall k :: i <= k < r.value ==> s[k] != '"'
    ensures r.None? ==> forall k :: i <= k < |s| ==> s[k] != '"'
  {
    if i >= |s| then None
    else if s[i] == '"' then Some(i)
    else NextQuote(s, i + 1)
  }

  predicate NoQuote(s: string) { forall k :: 0 <= k < |s| ==> s[k] != '"' }

  /** The leftmost match of `/"([^"]+)"/` from index `i`, as the positions
      of its opening and closing quotes. */
  function MatchFrom(s: string, i: nat): (r: Option<(nat, nat)>)
    decreases |s| - i
    ensures r.Some? ==> i <= r.value.0 && r.value.0 + 1 < r.value.1 < |s|
                        && s[r.value.0] == '"' && s[r.value.1] == '"'
    ensures r.Some? ==> forall m :: r.value.0 < m < r.value.1 ==> s[m] != '"'
  {
    match NextQuote(s, i)
    case None => None
    case Some(open) =>
      match NextQuote(s, open + 1)
      case None => None
      case Some(close) => if close > open + 1 then Some((open, close)) else MatchFrom(s, open + 1)
  }

  /** The capture of that match: at least one non-quote character that
      stands between two quotes. */
  function QuotedFrom(s: string, i: nat): (r: Option<string>)
    ensures r.Some? <==> MatchFrom(s, i).Some?
    ensures r.Some? ==> r.value != [] && NoQuote(r.value)
    ensures r.Some? ==> exists k :: i <= k && k + |r.value| + 1 < |s| && s[k] == '"'
                          && s[k + 1..k + 1 + |r.value|] == r.value && s[k + 1 + |r.value|] == '"'
  {
    match MatchFrom(s, i)
    case None => None
    case Some((open, close)) =>
      var v := s[open + 1..close];
      assert s[open + 1..open + 1 + |v|] == v;
      Some(v)
  }

  /** Conversely, a match is found whenever some quote is followed, after
      at least one non-quote character, by another quote; so `rename`
      reports no nickname only when there is no quoted text. */
  lemma QuotedFromFinds(s: string, i: nat, k: nat, j: nat)
    requires i <= k && k + 1 < j < |s| && s[k] == '"' && s[j] == '"'
    requires forall m :: k < m < j ==> s[m] != '"'
    ensures QuotedFrom(s, i).Some?
  {
    MatchFromFinds(s, i, k, j);
  }

  lemma {:induction false} MatchFromFinds(s: string, i: nat, k: nat, j: nat)
    requires i <= k && k + 1 < j < |s| && s[k] == '"' && s[j] == '"'
    requires forall m :: k < m < j ==> s[m] != '"'
    ensures MatchFrom(s, i).Some? && MatchFrom(s, i).value.0 <= k
    decreases |s| - i
  {
    NextQuoteBefore(s, i, k);
    var open := NextQuote(s, i).value;
    if open == k {
      NextQuoteAt(s, k + 1, j);
    } else {
      NextQuoteBefore(s, open + 1, k);
      var close := NextQuote(s, open + 1).value;
      if close == open + 1 {
        MatchFromFinds(s, open + 1, k, j);
      }
    }
  }

  /** `/"([^"]+)"/` can match starting at index `k`: a quote, then at least
      one non-quote character before the next quote. */
  predicate MatchAt(s: string, k: nat) {
    k < |s| && s[k] == '"' && NextQuote(s, k + 1).Some? && NextQuote(s, k + 1).value > k + 1
  }

  /** `MatchFrom` is the match the regex engine returns: it starts at the
      first index from which a match is possible, and ends at the next quote;
      with no such index there is no match. */
  lemma MatchFromLeftmost(s: string, i: nat)
    ensures MatchFrom(s, i).Some? ==> MatchAt(s, MatchFrom(s, i).value.0)
    ensures MatchFrom(s, i).Some? ==> MatchFrom(s, i).value.1 == NextQuote(s, MatchFrom(s, i).value.0 + 1).value
    ensures MatchFrom(s, i).Some? ==> forall k :: i <= k < MatchFrom(s, i).value.0 ==> !MatchAt(s, k)
    ensures MatchFrom(s, i).None? ==> forall k :: i <= k ==> !MatchAt(s, k)
  {
    if MatchFrom(s, i).Some? {
      var (open, close) := MatchFrom(s, i).value;
      NextQuoteAt(s, open + 1, close);
    }
    forall k | i <= k && MatchAt(s, k) ensures MatchFrom(s, i).Some? && MatchFrom(s, i).value.0 <= k {
      MatchFromFinds(s, i, k, NextQuote(s, k + 1).value);
    }
  }

  /** When the first possible match starts at `k`, `rename` takes the text
      from there to the next quote, or refuses it as too long. */
  lemma FirstQuotedNickname(s: string, k: nat)
    requires MatchAt(s, k)
    requires forall m: nat :: m < k ==> !MatchAt(s, m)
    ensures QuotedFrom(s, 0) == Some(s[k + 1..NextQuote(s, k + 1).value])
    ensures ExtractNickname(s) == (var name := s[k + 1..NextQuote(s, k + 1).value];
                                   if |name| > MAX_NICKNAME then NicknameTooLong else Nick(name))
  {
    MatchFromLeftmost(s, 0);
    var open := MatchFrom(s, 0).value.0;
    assert open == k;
  }

  /** An empty `""` is skipped: its second quote opens the match, so in
      `x ""bob" y"` the nickname is `bob`. */
  lemma EmptyQuotesSkipped(prefix: string, name: string, rest: string)
    requires NoQuote(prefix) && NoQuote(name) && 1 <= |name| <= MAX_NICKNAME
    ensures ExtractNickname(prefix + "\"\"" + name + "\"" + rest) == Nick(name)
  {
    var s := prefix + "\"\"" + name + "\"" + rest;
    var p := |prefix|;
    var close := p + 2 + |name|;
    assert forall k :: 0 <= k < p ==> s[k] == prefix[k];
    assert s[p] == '"' && s[p + 1] == '"' && s[close] == '"';
    assert forall k :: p + 2 <= k < close ==> s[k] == name[k - p - 2];
    NextQuoteAt(s, p + 1, p + 1);
    NextQuoteAt(s, p + 2, close);
    forall m: nat | m < p + 1 ensures !MatchAt(s, m) {
      if m < p { assert s[m] == prefix[m]; }
    }
    FirstQuotedNickname(s, p + 1);
    assert s[p + 2..close] == name;
  }

  /** A quote at or after `i` bounds the first one found from `i`. */
  lemma NextQuoteBefore(s: string, i: nat, k: nat)
    requires i <= k < |s| && s[k] == '"'
    ensures NextQuote(s, i).Some? && NextQuote(s, i).value <= k
  {
  }

  datatype Nickname = NoNickname | NicknameTooLong | Nick(name: string)

  /** The nickname of `rename @user "new name"`: the first quoted text, at most 32 characters. */
  function ExtractNickname(content: string): (r: Nickname)
    ensures r == NoNickname <==> QuotedFrom(content, 0).None?
    ensures r.Nick? ==> 1 <= |r.name| <= MAX_NICKNAME && NoQuote(r.name) && QuotedFrom(content, 0) == Some(r.name)
    ensures r == NicknameTooLong ==> |QuotedFrom(content, 0).value| > MAX_NICKNAME
  {
    match QuotedFrom(content, 0)
    case None => NoNickname
    case Some(name) => if |name| > MAX_NICKNAME then NicknameTooLong else Nick(name)
  }

  /** Unquoted text, then a quoted name: the name is what is extracted. */
  lemma ExtractQuotedName(prefix: string, name: string, rest: string)
    requires NoQuote(prefix) && NoQuote(name) && 1 <= |name| <= MAX_NICKNAME
    ensures ExtractNickname(prefix + "\"" + name + "\"" + rest) == Nick(name)
  {
    var s := prefix + "\"" + name + "\"" + rest;
    var open := |prefix|;
    var close := |prefix| + 1 + |name|;
    assert s[open] == '"';
    assert forall k :: 0 <= k < open ==> s[k] == prefix[k];
    NextQuoteAt(s, 0, open);
    assert s[close] == '"';
    assert forall k :: open + 1 <= k < close ==> s[k] == name[k - open - 1];
    NextQuoteAt(s, open + 1, close);
    assert MatchFrom(s, 0) == Some((open, close));
    assert s[open + 1..close] == name;
  }

  lemma {:induction false} NextQuoteAt(s: string, i: nat, j: nat)
    requires i <= j < |s| && s[j] == '"'
    requires forall k :: i <= k < j ==> s[k] != '"'
    ensures NextQuote(s, i) == Some(j)
    decreases j - i
  {
    if i < j {
      NextQuoteAt(s, i + 1, j);
    }
  }

  datatype RenameOutcome = RenameDenied | NoMention | NotMember | NoQuotedNickname | NickTooLong | SetNickname(userId: string, nickname: string)

  /** `handleRename`'s checks, in order, before the nickname is set. */
  function HandleRename(env: Option<string>, authorId: string, guildOwnerId: string, manageNicknames: bool,
                        mention: Option<string>, memberFound: bool, content: string): (r: RenameOutcome)
    ensures r == RenameDenied <==> !RenameAuthorized(env, authorId, guildOwnerId, manageNicknames)
    ensures r.SetNickname? ==> mention == Some(r.userId) && memberFound && ExtractNickname(content) == Nick(r.nickname)
    ensures r.SetNickname? ==> 1 <= |r.nickname| <= MAX_NICKNAME
  {
    if !RenameAuthorized(env, authorId, guildOwnerId, manageNicknames) then RenameDenied
    else if mention.None? then NoMention
    else if !memberFound then NotMember
    else
      match ExtractNickname(content)
      case NoNickname => NoQuotedNickname
      case NicknameTooLong => NickTooLong
      case Nick(name) => SetNickname(mention.value, name)
  }

  // ---------------------------------------------------------------------
  // AFK

  datatype AfkEntry = AfkEntry(message: string, startTime: int, duration: int, guildId: string)

  datatype AfkCheck = AfkUsage | AfkMissingArgs | AfkInvalidDuration | AfkValid(userId: string, duration: int, message: string)

  /** `handleAFK`'s validation: a mentioned user, at least three arguments and
      `parseInt(args[1]) >= 1`; the message is the rest of the arguments. */
  function AfkArgs(mention: Option<string>, args: seq<string>): (r: AfkCheck)
    ensures r == AfkUsage <==> mention.None?
    ensures r == AfkMissingArgs <==> mention.Some? && |args| < 3
    ensures r == AfkInvalidDuration <==> mention.Some? && |args| >= 3 && (ParseInt(args[1]).None? || ParseInt(args[1]).value < 1)
    ensures r.AfkValid? ==> mention == Some(r.userId) && |args| >= 3 && r.duration >= 1
                            && ParseInt(args[1]) == Some(r.duration) && r.message == Join(args[2..], " ")
  {
    if mention.None? then AfkUsage
    else if |args| < 3 then AfkMissingArgs
    else
      var duration := ParseInt(args[1]);
      if duration.None? || duration.value < 1 then AfkInvalidDuration
      else AfkValid(mention.value, duration.value, Join(args[2..], " "))
  }

  /** `afk @user N words…` is accepted iff N >= 1, and the message is the words. */
  lemma AfkArgsExactly(userId: string, first: string, n: int, words: seq<string>)
    requires words != []
    ensures AfkArgs(Some(userId), [first, IntToString(n)] + words)
            == (if n >= 1 then AfkValid(userId, n, Join(words, " ")) else AfkInvalidDuration)
  {
    ParseIntOfIntToString(n);
    var args := [first, IntToString(n)] + words;
    assert args[1] == IntToString(n) && args[2..] == words;
  }

  class UtilityCommands {
    /** userId -> entry */
    var afkUsers: map<string, AfkEntry>

    constructor ()
      ensures afkUsers == map[]
    {
      afkUsers := map[];
    }

    /** Stores the entry under the mentioned user's id at time `now`; any
        invalid input leaves the registry unchanged. */
    method HandleAFK(mention: Option<string>, args: seq<string>, guildId: string, now: int) returns (r: AfkCheck)
      modifies this`afkUsers
      ensures r == AfkArgs(mention, args)
      ensures !r.AfkValid? ==> afkUsers == old(afkUsers)
      ensures r.AfkValid? ==> afkUsers == old(afkUsers)[r.userId := AfkEntry(r.message, now, r.duration, guildId)]
    {
      r := AfkArgs(mention, args);
      if r.AfkValid? {
        afkUsers := afkUsers[r.userId := AfkEntry(r.message, now, r.duration, guildId)];
      }
    }

    /** The AFK timer: removes the user's entry if one is still present and
        returns it for the welcome-back message. */
    method AfkTimerExpire(userId: string) returns (removed: Option<AfkEntry>)
      modifies this`afkUsers
      ensures userId in old(afkUsers) <==> removed.Some?
      ensures removed.Some? ==> removed.value == old(afkUsers)[userId]
      ensures afkUsers == old(afkUsers) - {userId}
      ensures userId !in old(afkUsers) ==> afkUsers == old(afkUsers)
    {
      if userId in afkUsers {
        removed := Some(afkUsers[userId]);
        afkUsers := afkUsers - {userId};
      } else {
        removed := None;
      }
    }
  }
}
