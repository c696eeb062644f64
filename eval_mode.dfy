/** The owner's eval mode: a per-user toggle that gates the eval commands,
    and the argument parsers of the server-nuke, channel-deletion, log-view
    and logging-setup commands. The platform lookups those commands make are
    arguments. */
module EvalMode {
  import opened Common
  import Database

  // ---------------------------------------------------------------------
  // Mode toggle

  /** The commands dispatched once the user is in eval mode. */
  const EVAL_COMMANDS: seq<string> :=
    ["ehelp", "eram", "estats", "eannoc", "eusers", "enuke", "edelnuke", "elogs", "eloggings", "elogsbot"]

  datatype EvalOutcome = Activated | Deactivated | NotInEvalMode | EvalModeRequired | Dispatched(command: string) | UnknownEvalCommand

  /** One call of `handleEvalCommand`: the new set of users in eval mode and the outcome. */
  function EvalStep(users: set<string>, userId: string, command: string): (r: (set<string>, EvalOutcome))
    ensures command == "eval" ==> r.0 == (if userId in users then users - {userId} else users + {userId})
    ensures command == "eexit" ==> r.0 == users - {userId}
                                   && r.1 == (if userId in users then Deactivated else NotInEvalMode)
    ensures command != "eval" && command != "eexit" ==> r.0 == users
    ensures r.1.Dispatched? ==> userId in users && r.1.command == command && command in EVAL_COMMANDS
    ensures command != "eval" && command != "eexit" && userId !in users ==> r.1 == EvalModeRequired
  {
    if command == "eval" then
      if userId in users then (users - {userId}, Deactivated) else (users + {userId}, Activated)
    else if command == "eexit" then
      if userId in users then (users - {userId}, Deactivated) else (users, NotInEvalMode)
    else if userId !in users then (users, EvalModeRequired)
    else if command in EVAL_COMMANDS then (users, Dispatched(command))
    else (users, UnknownEvalCommand)
  }

  /** `eval` twice restores the set; `eexit` after `eval` from outside leaves the user outside. */
  lemma EvalToggleTwice(users: set<string>, userId: string)
    ensures EvalStep(EvalStep(users, userId, "eval").0, userId, "eval").0 == users
    ensures userId !in users ==> EvalStep(EvalStep(users, userId, "eval").0, userId, "eexit").0 == users
  {
  }

  /** Another user's commands never change whether this user is in eval mode. */
  lemma EvalStepLocal(users: set<string>, userId: string, other: string, command: string)
    requires other != userId
    ensures (userId in EvalStep(users, other, command).0) == (userId in users)
  {
  }

  class EvalModeState {
    var evalModeUsers: set<string>

    constructor ()
      ensures evalModeUsers == {}
    {
      evalModeUsers := {};
    }

    /** Inside eval mode every eval command is dispatched; outside it every
        command other than `eval` and `eexit` is refused. */
    predicate IsInEvalMode(userId: string)
      reads this
      ensures IsInEvalMode(userId) ==> forall c :: c in EVAL_COMMANDS ==> EvalStep(evalModeUsers, userId, c).1 == Dispatched(c)
      ensures !IsInEvalMode(userId) ==> forall c :: c != "eval" && c != "eexit" ==> EvalStep(evalModeUsers, userId, c).1 == EvalModeRequired
    {
      userId in evalModeUsers
    }

    method EnterEvalMode(userId: string)
      modifies this
      ensures evalModeUsers == old(evalModeUsers) + {userId}
    {
      evalModeUsers := evalModeUsers + {userId};
    }

    method ExitEvalMode(userId: string)
      modifies this
      ensures evalModeUsers == old(evalModeUsers) - {userId}
    {
      evalModeUsers := evalModeUsers - {userId};
    }

    method HandleEvalCommand(userId: string, command: string) returns (outcome: EvalOutcome)
      modifies this
      ensures (evalModeUsers, outcome) == EvalStep(old(evalModeUsers), userId, command)
    {
      if command == "eval" {
        if IsInEvalMode(userId) {
          ExitEvalMode(userId);
          return Deactivated;
        } else {
          EnterEvalMode(userId);
          return Activated;
        }
      }
      if command == "eexit" {
        if IsInEvalMode(userId) {
          ExitEvalMode(userId);
          return Deactivated;
        }
        return NotInEvalMode;
      }
      if !IsInEvalMode(userId) {
        return EvalModeRequired;
      }
      if command in EVAL_COMMANDS {
        outcome := Dispatched(command);
      } else {
        outcome := UnknownEvalCommand;
      }
    }
  }

  // ---------------------------------------------------------------------
  // Tokens of `/"([^"]+)"|(\S+)/g`

  /** The end of the run of non-whitespace starting at `i`. */
  function NonSpaceEnd(s: string, i: nat): (e: nat)
    requires i <= |s|
    ensures i <= e <= |s|
    ensures forall k :: i <= k < e ==> !IsSpace(s[k])
    ensures e < |s| ==> IsSpace(s[e])
    decreases |s| - i
  {
    if i == |s| || IsSpace(s[i]) then i else NonSpaceEnd(s, i + 1)
  }

  /** The end of the match starting at `i`: a double-quoted run of at least one
      non-quote character when there is one, otherwise the run of non-whitespace. */
  function MatchEnd(s: string, i: nat): (e: nat)
    requires i < |s| && !IsSpace(s[i])
    ensures i < e <= |s|
  {
    if s[i] == '"' then
      match IndexOf(s, "\"", i + 1)
      case Some(k) => if k > i + 1 then k + 1 else NonSpaceEnd(s, i)
      case None => NonSpaceEnd(s, i)
    else NonSpaceEnd(s, i)
  }

  /** All matches from position `i` on; whitespace is skipped between matches. */
  function Tokens(s: string, i: nat): (r: seq<string>)
    requires i <= |s|
    ensures forall k :: 0 <= k < |r| ==> r[k] != []
    decreases |s| - i
  {
    if i == |s| then []
    else if IsSpace(s[i]) then Tokens(s, i + 1)
    else
      var e := MatchEnd(s, i);
      [s[i..e]] + Tokens(s, e)
  }

  function Quoted(x: string): string { "\"" + x + "\"" }

  /** A double-quoted run matches as a whole, spaces included. */
  lemma QuotedMatch(s: string, i: nat, body: string)
    requires body != [] && '"' !in body
    requires i + |body| + 2 <= |s| && s[i..i + |body| + 2] == Quoted(body)
    ensures !IsSpace(s[i]) && MatchEnd(s, i) == i + |body| + 2
  {
    var q := Quoted(body);
    assert s[i] == q[0] == '"';
    var k := i + |body| + 1;
    assert s[k] == q[|body| + 1];
    assert OccursAt(s, "\"", k) by { assert s[k..k + 1] == [s[k]]; }
    forall j | i + 1 <= j < k ensures !OccursAt(s, "\"", j) {
      assert s[j] == q[j - i] == body[j - i - 1];
      assert s[j..j + 1] == [s[j]];
    }
    IndexOfExact(s, "\"", i + 1, k);
  }

  /** `enuke "id" "some name"` tokenises into the two quoted arguments. */
  lemma QuotedPairTokens(id: string, name: string)
    requires id != [] && '"' !in id && name != [] && '"' !in name
    ensures Tokens(Quoted(id) + " " + Quoted(name), 0) == [Quoted(id), Quoted(name)]
  {
    var s := Quoted(id) + " " + Quoted(name);
    var p := |id| + 3;
    assert s[0..|id| + 2] == Quoted(id);
    QuotedMatch(s, 0, id);
    assert s[|id| + 2] == ' ';
    assert s[p..p + |name| + 2] == Quoted(name);
    QuotedMatch(s, p, name);
    assert p + |name| + 2 == |s|;
    assert Tokens(s, p) == [Quoted(name)];
  }

  // ---------------------------------------------------------------------
  // Server id and channel name arguments

  datatype ServerIdArg = NoTokens | EmptyServerId | ServerId(id: string)

  /** The server id of `enuke`/`edelnuke`: the first match with every `"` removed. */
  function ParseServerId(args: seq<string>): (r: ServerIdArg)
    ensures r.ServerId? ==> r.id != [] && '"' !in r.id
  {
    var matches := Tokens(Join(args, " "), 0);
    if matches == [] then NoTokens
    else
      var id := RemoveChar(matches[0], '"');
      if id == [] then EmptyServerId else ServerId(id)
  }

  const DEFAULT_NUKE_CHANNEL_NAME := "fucked-by-script"

  /** The custom channel name of `enuke`: the second match without `"`, else the default. */
  function NukeChannelName(args: seq<string>): (name: string)
    ensures '"' !in name
    ensures |Tokens(Join(args, " "), 0)| < 2 ==> name == DEFAULT_NUKE_CHANNEL_NAME
  {
    var matches := Tokens(Join(args, " "), 0);
    if |matches| >= 2 then RemoveChar(matches[1], '"') else DEFAULT_NUKE_CHANNEL_NAME
  }

  /** Quoted arguments read back as given: `enuke "id" "name"`. */
  lemma NukeArgsRoundTrip(id: string, name: string)
    requires id != [] && '"' !in id && name != [] && '"' !in name
    ensures ParseServerId([Quoted(id) + " " + Quoted(name)]) == ServerId(id)
    ensures NukeChannelName([Quoted(id) + " " + Quoted(name)]) == name
  {
    QuotedPairTokens(id, name);
    RemoveQuotesOfQuoted(id);
    RemoveQuotesOfQuoted(name);
  }

  lemma RemoveQuotesOfQuoted(x: string)
    requires '"' !in x
    ensures RemoveChar(Quoted(x), '"') == x
  {
    assert Quoted(x)[1..] == x + "\"";
    RemoveCharAppend(x, '"');
  }

  lemma {:induction false} RemoveCharAppend(x: string, c: char)
    requires c !in x
    ensures RemoveChar(x + [c], c) == x
  {
    if x != [] {
      assert (x + [c])[1..] == x[1..] + [c];
      RemoveCharAppend(x[1..], c);
    }
  }

  /** A lone unquoted word is its own server id, and the name falls back to the default. */
  lemma BareServerId(id: string)
    requires id != [] && '"' !in id && NoBlanks(id)
    ensures ParseServerId([id]) == ServerId(id)
    ensures NukeChannelName([id]) == DEFAULT_NUKE_CHANNEL_NAME
  {
    assert Join([id], " ") == id;
    assert MatchEnd(id, 0) == |id|;
    assert Tokens(id, 0) == [id[0..|id|]];
    assert id[0..|id|] == id;
  }

  // ---------------------------------------------------------------------
  // Channel-name sanitiser: lowercase, whitespace runs to '-', keep [a-z0-9-]

  predicate IsNameChar(c: char) { IsLowerAlnum(c) || c == '-' }

  predicate NameChars(s: string) { forall k :: 0 <= k < |s| ==> IsNameChar(s[k]) }

  lemma NameCharsConcat(a: string, b: string)
    requires NameChars(a) && NameChars(b)
    ensures NameChars(a + b)
  {
    forall k | 0 <= k < |a + b| ensures IsNameChar((a + b)[k]) {
      if k < |a| { assert (a + b)[k] == a[k]; } else { assert (a + b)[k] == b[k - |a|]; }
    }
  }

  /** `replace(/[^a-z0-9-]/g, '')`. */
  function KeepNameChars(s: string): (r: string)
    ensures NameChars(r)
    ensures (NameChars(s)) ==> r == s
  {
    if s == [] then []
    else if IsNameChar(s[0]) then [s[0]] + KeepNameChars(s[1..])
    else KeepNameChars(s[1..])
  }

  function SanitizeChannelName(s: string): (r: string)
    ensures NameChars(r)
  {
    KeepNameChars(CollapseSpaces(ToLower(s)))
  }

  /** The output is stable: sanitising a sanitised name changes nothing. */
  lemma SanitizeIdempotent(s: string)
    ensures SanitizeChannelName(SanitizeChannelName(s)) == SanitizeChannelName(s)
  {
    var t := SanitizeChannelName(s);
    NoUpperOfName(t);
    NoBlanksOfName(t);
    LowerOfNoUpper(t);
    CollapseNoSpaces(t, []);
    assert t + [] == t;
  }

  lemma NoUpperOfName(s: string)
    requires NameChars(s)
    ensures NoUpper(s)
  {
    forall k | 0 <= k < |s| ensures !('A' <= s[k] <= 'Z') { assert IsNameChar(s[k]); }
  }

  lemma NoUpperOfBlanks(s: string)
    requires Blanks(s)
    ensures NoUpper(s)
  {
    forall k | 0 <= k < |s| ensures !('A' <= s[k] <= 'Z') { assert IsSpace(s[k]); }
  }

  lemma NoBlanksOfName(s: string)
    requires NameChars(s)
    ensures NoBlanks(s)
  {
    forall k | 0 <= k < |s| ensures !IsSpace(s[k]) { assert IsNameChar(s[k]); }
  }

  lemma CollapseWords(w1: string, sp: string, w2: string)
    requires NameChars(w1) && NameChars(w2)
    requires sp != [] && Blanks(sp)
    ensures CollapseSpaces(w1 + sp + w2) == w1 + "-" + w2
  {
    NoBlanksOfName(w1);
    NoBlanksOfName(w2);
    assert w1 + sp + w2 == w1 + (sp + w2);
    CollapseNoSpaces(w1, sp + w2);
    CollapseLeadingBlanks(sp, w2);
    assert w1 + ("-" + w2) == w1 + "-" + w2;
  }

  /** A run of whitespace in front of a word becomes one `-`. */
  lemma CollapseLeadingBlanks(sp: string, w: string)
    requires sp != [] && Blanks(sp) && NoBlanks(w)
    ensures CollapseSpaces(sp + w) == "-" + w
  {
    var t := sp + w;
    BlanksSplit(sp, w);
    CollapseAtSpace(t);
    assert w == [] || !IsSpace(w[0]);
    TrimSpaces(sp[1..], w);
    CollapseNoSpaces(w, []);
    assert w + [] == w;
  }

  lemma BlanksSplit(sp: string, w: string)
    requires sp != [] && Blanks(sp)
    ensures IsSpace((sp + w)[0]) && (sp + w)[1..] == sp[1..] + w && Blanks(sp[1..])
  {
    assert (sp + w)[0] == sp[0];
    assert (sp + w)[1..] == sp[1..] + w;
  }

  lemma CollapseAtSpace(t: string)
    requires t != [] && IsSpace(t[0])
    ensures CollapseSpaces(t) == "-" + CollapseSpaces(TrimStart(t[1..]))
  {
  }

  /** Two words separated by any run of whitespace become `word-word`. */
  lemma SanitizeJoinsWords(w1: string, sp: string, w2: string)
    requires NameChars(w1) && NameChars(w2)
    requires sp != [] && Blanks(sp)
    ensures SanitizeChannelName(w1 + sp + w2) == w1 + "-" + w2
  {
    NoUpperOfName(w1);
    NoUpperOfName(w2);
    NoUpperOfBlanks(sp);
    NoUpperConcat(w1, sp);
    NoUpperConcat(w1 + sp, w2);
    LowerOfNoUpper(w1 + sp + w2);
    CollapseWords(w1, sp, w2);
    assert NameChars("-");
    NameCharsConcat(w1, "-");
    NameCharsConcat(w1 + "-", w2);
  }

  // ---------------------------------------------------------------------
  // `elogs` filter

  const LOG_FILTERS: seq<string> := ["bans", "timeouts", "kicks"]

  datatype LogFilter = LogsServerRequired | InvalidFilter | AllTypes | OnlyType(logType: string)

  /** `args[0].toLowerCase().replace(/"/g, '')`. */
  function FilterWord(arg: string): string {
    RemoveChar(ToLower(arg), '"')
  }

  /** The filter is accepted iff its word is one of the three; the type is the word without its plural `s`. */
  function ParseLogFilter(guildId: Option<string>, args: seq<string>): (r: LogFilter)
    ensures r == LogsServerRequired <==> guildId.None? || guildId.value == ""
    ensures r == AllTypes <==> guildId.Some? && guildId.value != "" && args == []
    ensures r == InvalidFilter <==> guildId.Some? && guildId.value != "" && args != [] && FilterWord(args[0]) !in LOG_FILTERS
    ensures r.OnlyType? ==> args != [] && r.logType + "s" == FilterWord(args[0]) && r.logType in ["ban", "timeout", "kick"]
  {
    if guildId.None? || guildId.value == "" then LogsServerRequired
    else if args == [] then AllTypes
    else
      var filter := FilterWord(args[0]);
      if filter !in LOG_FILTERS then InvalidFilter
      else
        var t := filter[..|filter| - 1];
        assert t + "s" == filter && t in ["ban", "timeout", "kick"] by {
          if filter == "bans" { assert t == "ban"; }
          else if filter == "timeouts" { assert t == "timeout"; }
          else { assert t == "kick"; }
        }
        OnlyType(t)
  }

  /** Each filter word, quoted or not, is accepted and names its singular type. */
  lemma FilterAccepted(guildId: string, word: string, quoted: bool)
    requires guildId != "" && word in LOG_FILTERS
    ensures ParseLogFilter(Some(guildId), [if quoted then Quoted(word) else word]) == OnlyType(word[..|word| - 1])
  {
    var arg := if quoted then Quoted(word) else word;
    FilterWordOf(word, quoted);
    FilterOfWord(guildId, [arg], word);
  }

  lemma FilterWordOf(word: string, quoted: bool)
    requires word in LOG_FILTERS
    ensures FilterWord(if quoted then Quoted(word) else word) == word
  {
    var arg := if quoted then Quoted(word) else word;
    assert NoUpper(word) && '"' !in word by {
      if word == "bans" {} else if word == "timeouts" {} else {}
    }
    if quoted {
      assert NoUpper("\"");
      NoUpperConcat("\"", word);
      NoUpperConcat("\"" + word, "\"");
      RemoveQuotesOfQuoted(word);
    }
    LowerOfNoUpper(arg);
  }

  lemma FilterOfWord(guildId: string, args: seq<string>, word: string)
    requires guildId != "" && args != [] && FilterWord(args[0]) == word && word in LOG_FILTERS
    ensures ParseLogFilter(Some(guildId), args) == OnlyType(word[..|word| - 1])
  {
  }

  // ---------------------------------------------------------------------
  // `eloggings` channel id

  /** `args[0].replace(/"/g, '')`, accepted when non-empty and all digits. */
  function ChannelIdArg(arg: string): (r: Option<string>)
    ensures r.Some? <==> RemoveChar(arg, '"') != [] && AllDigits(RemoveChar(arg, '"'))
    ensures r.Some? ==> r.value == RemoveChar(arg, '"')
  {
    var id := RemoveChar(arg, '"');
    if id != [] && AllDigits(id) then Some(id) else None
  }

  /** A quoted digit string is read back as its digits. */
  lemma ChannelIdRoundTrip(d: string)
    requires d != [] && AllDigits(d)
    ensures ChannelIdArg(Quoted(d)) == Some(d)
  {
    assert '"' !in d by { assert forall k :: 0 <= k < |d| ==> d[k] != '"'; }
    RemoveQuotesOfQuoted(d);
  }

  datatype LoggingResult =
    | LoggingServerRequired | MissingChannelId | InvalidChannelId
    | ChannelNotFound | NotTextChannel | LoggingConfigured(channelId: string)

  /** `setupLoggingChannel`; `channels` maps the guild's channel ids to whether each is text-based. */
  method SetupLoggingChannel(store: Database.Store, guildId: Option<string>, args: seq<string>, channels: map<string, bool>)
    returns (r: LoggingResult)
    modifies store`loggingChannels
    ensures r.LoggingConfigured? <==>
              && guildId.Some? && guildId.value != "" && args != []
              && ChannelIdArg(args[0]).Some? && ChannelIdArg(args[0]).value in channels
              && channels[ChannelIdArg(args[0]).value]
    ensures r.LoggingConfigured? ==>
              && r.channelId == ChannelIdArg(args[0]).value
              && store.loggingChannels == old(store.loggingChannels)[guildId.value := r.channelId]
    ensures !r.LoggingConfigured? ==> store.loggingChannels == old(store.loggingChannels)
  {
    if guildId.None? || guildId.value == "" {
      return LoggingServerRequired;
    }
    if args == [] {
      return MissingChannelId;
    }
    var id := ChannelIdArg(args[0]);
    if id.None? {
      return InvalidChannelId;
    }
    if id.value !in channels {
      return ChannelNotFound;
    }
    if !channels[id.value] {
      return NotTextChannel;
    }
    var _ := store.SaveLoggingChannel(guildId.value, id.value);
    r := LoggingConfigured(id.value);
  }
}
