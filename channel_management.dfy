/** The channel manager: the staff gate of its text commands, the numeric
    range checks, the parsing of names, visibility and user limits for the
    create and rename commands, and the per-guild configuration updates for
    join-to-create and locked-link channels. The guild's channel cache is a
    caller-supplied sequence in cache order. */
module ChannelManagement {
  import opened Common

  const GUILD_TEXT := 0
  const GUILD_VOICE := 2
  const GUILD_CATEGORY := 4
  const MAX_NAME := 100

  datatype GuildChannel = GuildChannel(id: string, channelType: int, name: string)

  // ---------------------------------------------------------------------
  // The command gate

  const INFO_COMMANDS: seq<string> := ["permissions", "perms", "channels", "listchannels"]

  /** Every name the command switch dispatches. */
  const COMMANDS: seq<string> := [
    "crcato", "catorename", "crchannel", "crvc", "delchannel", "crannoc", "mkannoc", "crforum",
    "lock", "locktext", "locktxt", "unlock", "unlocktext", "open", "opentext", "unlocktxt",
    "hide", "hidechannel", "hidetxt", "show", "showchannel", "reveal", "showtxt",
    "slowmode", "slow", "rename", "renamechannel", "topic", "settopic",
    "lockvc", "lockvoice", "mutevc", "unlockvc", "unlockvoice", "openvc",
    "hidevc", "hidevoice", "showvc", "showvoice", "revealvc",
    "limit", "userlimit", "bitrate", "setbitrate", "j2c", "join2create", "setupj2c",
    "removej2c", "disablej2c", "botcmdslock", "botcmdsunlock", "dmes", "say",
    "disconnectall", "move", "nuke", "permissions", "perms", "channels", "listchannels"]

  /** `Denied` replies and returns true, `Dispatched` runs the command's
      handler, `NotHandled` returns false so that another manager may try. */
  datatype Gate = Denied | Dispatched | NotHandled

  function CommandGate(command: string, authorized: bool): (g: Gate)
    ensures g == Denied <==> command !in INFO_COMMANDS && !authorized
    ensures g == Dispatched <==> (command in INFO_COMMANDS || authorized) && command in COMMANDS
    ensures g == NotHandled <==> (command in INFO_COMMANDS || authorized) && command !in COMMANDS
  {
    if command !in INFO_COMMANDS && !authorized then Denied
    else if command in COMMANDS then Dispatched
    else NotHandled
  }

  /** The information commands run for anybody; an unauthorised caller is
      refused, and reported as handled, even for a name that is no command. */
  lemma GateInfoAndUnknown(command: string)
    ensures command in INFO_COMMANDS ==> CommandGate(command, false) == Dispatched
    ensures command !in COMMANDS ==> CommandGate(command, false) == Denied && CommandGate(command, true) == NotHandled
  {
    assert forall c :: c in INFO_COMMANDS ==> c in COMMANDS;
  }

  // ---------------------------------------------------------------------
  // Range checks

  const MAX_SLOWMODE := 21600

  /** `setSlowmode`: `parseInt(args[0])` in 0..21600. */
  function SlowmodeSeconds(args: seq<string>): (r: Option<int>)
    ensures r.Some? ==> 0 <= r.value <= MAX_SLOWMODE
  {
    InRange(ParseIntArg(args, 0), 0, MAX_SLOWMODE)
  }

  lemma SlowmodeExactly(n: int)
    ensures SlowmodeSeconds([IntToString(n)]) == (if 0 <= n <= MAX_SLOWMODE then Some(n) else None)
  {
    ParseIntOfIntToString(n);
  }

  datatype VoiceSetting = NotVoiceChannel | OutOfRange | Accepted(value: int)

  predicate IsVoice(mention: Option<GuildChannel>) {
    mention.Some? && mention.value.channelType == GUILD_VOICE
  }

  /** `setUserLimit`: a mentioned voice channel first, then `parseInt(args[1])` in 0..99. */
  function UserLimit(mention: Option<GuildChannel>, args: seq<string>): (r: VoiceSetting)
    ensures r == NotVoiceChannel <==> !IsVoice(mention)
    ensures r.Accepted? ==> 0 <= r.value <= 99
  {
    if !IsVoice(mention) then NotVoiceChannel
    else
      var limit := InRange(ParseIntArg(args, 1), 0, 99);
      if limit.None? then OutOfRange else Accepted(limit.value)
  }

  /** `setBitrate`: a mentioned voice channel first, then `parseInt(args[1]) * 1000`
      in 8000..384000. */
  function Bitrate(mention: Option<GuildChannel>, args: seq<string>): (r: VoiceSetting)
    ensures r == NotVoiceChannel <==> !IsVoice(mention)
    ensures r.Accepted? ==> 8000 <= r.value <= 384000 && r.value % 1000 == 0
  {
    if !IsVoice(mention) then NotVoiceChannel
    else
      var kbps := ParseIntArg(args, 1);
      var bitrate := InRange(if kbps.Some? then Some(kbps.value * 1000) else None, 8000, 384000);
      if bitrate.None? then OutOfRange else Accepted(bitrate.value)
  }

  /** The limit accepts exactly 0..99 and the bitrate exactly 8..384 kbps. */
  lemma VoiceSettingsExactly(mention: Option<GuildChannel>, first: string, n: int)
    requires IsVoice(mention)
    ensures UserLimit(mention, [first, IntToString(n)]) == (if 0 <= n <= 99 then Accepted(n) else OutOfRange)
    ensures Bitrate(mention, [first, IntToString(n)]) == (if 8 <= n <= 384 then Accepted(n * 1000) else OutOfRange)
  {
    ParseIntOfIntToString(n);
    var args := [first, IntToString(n)];
    assert ParseIntArg(args, 1) == Some(n);
  }

  // ---------------------------------------------------------------------
  // Visibility and names

  datatype Visibility = Public | Private

  /** A `private`/`public` word, compared after lowercasing. */
  function VisibilityOf(word: string): (r: Option<Visibility>)
    ensures r == Some(Private) <==> ToLower(word) == "private"
    ensures r == Some(Public) <==> ToLower(word) == "public"
    ensures r.Some? ==> |word| == 6 || |word| == 7
  {
    var w := ToLower(word);
    if w == "private" then Some(Private) else if w == "public" then Some(Public) else None
  }

  /** A visibility word is never a number. */
  lemma VisibilityNotNumber(word: string)
    requires VisibilityOf(word).Some?
    ensures ParseInt(word) == None
  {
    assert ToLower(word)[0] == 'p' && LowerChar(word[0]) == 'p';
    ParseIntNaN(word);
  }

  /** The trailing-visibility rule of `createChannel` and `createCategory`: a
      last argument that is a visibility word sets it and is dropped. */
  function SplitVisibility(args: seq<string>): (r: (seq<string>, Visibility))
    requires args != []
    ensures VisibilityOf(args[|args| - 1]).Some? ==> r == (args[..|args| - 1], VisibilityOf(args[|args| - 1]).value)
    ensures VisibilityOf(args[|args| - 1]).None? ==> r == (args, Public)
  {
    var v := VisibilityOf(args[|args| - 1]);
    if v.Some? then (args[..|args| - 1], v.value) else (args, Public)
  }

  predicate IsChannelChar(c: char) { IsLowerAlnum(c) || c == '-' || c == '_' }

  predicate ChannelChars(s: string) { forall k :: 0 <= k < |s| ==> IsChannelChar(s[k]) }

  /** `replace(/[^a-z0-9-_]/g, '')`. */
  function KeepChannelChars(s: string): (r: string)
    ensures ChannelChars(r)
    ensures ChannelChars(s) ==> r == s
  {
    if s == [] then []
    else if IsChannelChar(s[0]) then [s[0]] + KeepChannelChars(s[1..])
    else KeepChannelChars(s[1..])
  }

  /** The text-channel name: joined by `-`, lowercased, trimmed, stripped of
      edge quotes, whitespace runs turned into `-`, other characters dropped. */
  function TextChannelName(parts: seq<string>): (r: string)
    ensures ChannelChars(r) && NoUpper(r)
  {
    var r := KeepChannelChars(CollapseSpaces(StripEdgeQuotes(Trim(ToLower(Join(parts, "-"))))));
    NoUpperOfChannel(r);
    r
  }

  lemma NoUpperOfChannel(s: string)
    requires ChannelChars(s)
    ensures NoUpper(s)
  {
    forall k | 0 <= k < |s| ensures !('A' <= s[k] <= 'Z') { assert IsChannelChar(s[k]); }
  }

  lemma NoBlanksOfChannel(s: string)
    requires ChannelChars(s)
    ensures NoBlanks(s)
  {
    forall k | 0 <= k < |s| ensures !IsSpace(s[k]) { assert IsChannelChar(s[k]); }
  }

  lemma TrimNoBlanks(s: string)
    requires NoBlanks(s)
    ensures TrimStart(s) == s && TrimEnd(s) == s && Trim(s) == s
  {
  }

  lemma {:induction false} JoinChannelChars(parts: seq<string>)
    requires forall i :: 0 <= i < |parts| ==> ChannelChars(parts[i])
    ensures ChannelChars(Join(parts, "-"))
  {
    if |parts| > 1 {
      JoinChannelChars(parts[1..]);
      var a := parts[0] + "-";
      var s := a + Join(parts[1..], "-");
      forall k | 0 <= k < |s| ensures IsChannelChar(s[k]) {
        if k < |parts[0]| { assert s[k] == parts[0][k]; }
        else if k == |parts[0]| { assert s[k] == '-'; }
        else { assert s[k] == Join(parts[1..], "-")[k - |a|]; }
      }
    }
  }

  /** A name already made of `[a-z0-9-_]` passes through the cleaning unchanged. */
  lemma TextChannelNameKeepsValid(parts: seq<string>)
    requires forall i :: 0 <= i < |parts| ==> ChannelChars(parts[i])
    ensures TextChannelName(parts) == Join(parts, "-")
  {
    var s := Join(parts, "-");
    JoinChannelChars(parts);
    NoUpperOfChannel(s);
    LowerOfNoUpper(s);
    NoBlanksOfChannel(s);
    TrimNoBlanks(s);
    StripChannelChars(s);
    CollapseNoSpaces(s, []);
    assert s + [] == s;
  }

  lemma StripChannelChars(s: string)
    requires ChannelChars(s)
    ensures StripEdgeQuotes(s) == s
  {
    if s != [] {
      assert IsChannelChar(s[0]) && IsChannelChar(s[|s| - 1]);
    }
  }

  /** The category and voice-channel name: joined by spaces, trimmed, then
      stripped of one edge quote at each end. */
  function SpacedName(parts: seq<string>): (r: string)
    ensures |r| <= |Join(parts, " ")|
    ensures Blanks(Join(parts, " ")) ==> r == ""
    ensures PlainEdges(Join(parts, " ")) ==> r == Join(parts, " ")
  {
    StripEdgeQuotes(Trim(Join(parts, " ")))
  }

  /** Non-empty, with neither whitespace nor a quote at either end. */
  predicate PlainEdges(s: string) {
    s != [] && !IsSpace(s[0]) && !IsSpace(s[|s| - 1]) && !IsQuote(s[0]) && !IsQuote(s[|s| - 1])
  }

  /** Quotes around a joined name are dropped; the whitespace inside them
      stays, as the trim comes before the quotes are removed. */
  lemma SpacedNameQuoted(parts: seq<string>, name: string)
    requires Join(parts, " ") == "\"" + name + "\""
    ensures SpacedName(parts) == name
  {
    var s := Join(parts, " ");
    assert s[0] == '"' && s[|s| - 1] == '"';
    assert Trim(s) == s;
    StripWrapped(name);
  }

  /** The new name of `renameCategory`: the edge quotes go first, the trim second. */
  function RenamedName(parts: seq<string>): (r: string)
    ensures r != [] ==> !IsSpace(r[0]) && !IsSpace(r[|r| - 1])
    ensures PlainEdges(Join(parts, " ")) ==> r == Join(parts, " ")
  {
    var j := Join(parts, " ");
    var q := StripEdgeQuotes(j);
    assert PlainEdges(j) ==> q == j;
    Trim(q)
  }

  /** A quoted joined name loses its quotes and then the whitespace inside
      them, as the quotes are removed before the trim (unlike `SpacedName`). */
  lemma RenamedNameQuoted(parts: seq<string>, name: string)
    requires Join(parts, " ") == "\"" + name + "\""
    ensures RenamedName(parts) == Trim(name)
  {
    StripWrapped(name);
  }

  /** `channels.cache.find(...)` for a channel of the given type and name,
      compared exactly or case-insensitively. */
  predicate NameMatches(c: GuildChannel, channelType: int, name: string, ignoreCase: bool) {
    c.channelType == channelType && (if ignoreCase then ToLower(c.name) == ToLower(name) else c.name == name)
  }

  function FindByName(channels: seq<GuildChannel>, channelType: int, name: string, ignoreCase: bool): (r: Option<GuildChannel>)
    ensures r.Some? ==> exists i :: 0 <= i < |channels| && channels[i] == r.value
                          && (forall j :: 0 <= j < i ==> !NameMatches(channels[j], channelType, name, ignoreCase))
    ensures r.Some? ==> NameMatches(r.value, channelType, name, ignoreCase)
    ensures r.None? <==> forall c :: c in channels ==> !NameMatches(c, channelType, name, ignoreCase)
  {
    if channels == [] then None
    else if NameMatches(channels[0], channelType, name, ignoreCase) then Some(channels[0])
    else
      var r := FindByName(channels[1..], channelType, name, ignoreCase);
      assert forall c :: c in channels <==> c == channels[0] || c in channels[1..];
      if r.Some? then FirstMatchShift(channels, channelType, name, ignoreCase, r.value); r else r
  }

  lemma FirstMatchShift(channels: seq<GuildChannel>, channelType: int, name: string, ignoreCase: bool, found: GuildChannel)
    requires channels != [] && !NameMatches(channels[0], channelType, name, ignoreCase)
    requires exists i :: 0 <= i < |channels[1..]| && channels[1..][i] == found
                          && (forall j :: 0 <= j < i ==> !NameMatches(channels[1..][j], channelType, name, ignoreCase))
    ensures exists i :: 0 <= i < |channels| && channels[i] == found
                          && (forall j :: 0 <= j < i ==> !NameMatches(channels[j], channelType, name, ignoreCase))
  {
    var i :| 0 <= i < |channels[1..]| && channels[1..][i] == found
             && (forall j :: 0 <= j < i ==> !NameMatches(channels[1..][j], channelType, name, ignoreCase));
    assert channels[i + 1] == found;
    forall j | 0 <= j < i + 1 ensures !NameMatches(channels[j], channelType, name, ignoreCase) {
      if j > 0 { assert channels[j] == channels[1..][j - 1]; }
    }
  }

  /** `channels.cache.get(id)`. */
  function FindById(channels: seq<GuildChannel>, id: string): (r: Option<GuildChannel>)
    ensures r.Some? ==> r.value in channels && r.value.id == id
    ensures r.None? <==> forall c :: c in channels ==> c.id != id
  {
    if channels == [] then None
    else if channels[0].id == id then Some(channels[0])
    else
      assert forall c :: c in channels <==> c == channels[0] || c in channels[1..];
      FindById(channels[1..], id)
  }

  // ---------------------------------------------------------------------
  // The create and rename commands

  datatype Creation =
    | Usage
    | EmptyName
    | LimitOutOfRange
    | NameTooLong
    | Duplicate(existing: GuildChannel)
    | Create(name: string, visibility: Visibility, userLimit: int)

  /** The checks `createChannel` and `createCategory` make on a name once it
      is built: not empty, at most 100 characters, and no channel of the
      same type already bearing it. */
  function CheckedName(name: string, channelType: int, ignoreCase: bool, visibility: Visibility, userLimit: int,
                       channels: seq<GuildChannel>): (r: Creation)
    ensures r != Usage && r != LimitOutOfRange
    ensures r == EmptyName <==> name == ""
    ensures r == NameTooLong <==> |name| > MAX_NAME
    ensures r.Create? ==> r.name == name && r.visibility == visibility && r.userLimit == userLimit
    ensures r.Create? ==> 1 <= |r.name| <= MAX_NAME
    ensures r.Create? ==> forall c :: c in channels ==> !NameMatches(c, channelType, name, ignoreCase)
    ensures r.Duplicate? ==> r.existing in channels && NameMatches(r.existing, channelType, name, ignoreCase)
    ensures 1 <= |name| <= MAX_NAME && (exists c :: c in channels && NameMatches(c, channelType, name, ignoreCase))
            ==> r.Duplicate?
  {
    if name == "" then EmptyName
    else if |name| > MAX_NAME then NameTooLong
    else
      match FindByName(channels, channelType, name, ignoreCase)
      case Some(c) => Duplicate(c)
      case None => Create(name, visibility, userLimit)
  }

  /** `createChannel`'s checks on the name, once the visibility word is split off. */
  function CreateTextChannel(parts: seq<string>, visibility: Visibility, channels: seq<GuildChannel>): (r: Creation)
    ensures r != Usage && r != LimitOutOfRange
    ensures r == EmptyName <==> TextChannelName(parts) == ""
    ensures r == NameTooLong <==> |TextChannelName(parts)| > MAX_NAME
    ensures r.Create? ==> r.name == TextChannelName(parts) && r.visibility == visibility && r.userLimit == 0
    ensures r.Create? ==> 1 <= |r.name| <= MAX_NAME && ChannelChars(r.name) && NoUpper(r.name)
    ensures r.Create? ==> forall c :: c in channels ==> !(c.channelType == GUILD_TEXT && c.name == r.name)
    ensures r.Duplicate? ==> r.existing in channels && NameMatches(r.existing, GUILD_TEXT, TextChannelName(parts), false)
    ensures 1 <= |TextChannelName(parts)| <= MAX_NAME && (exists c :: c in channels && NameMatches(c, GUILD_TEXT, TextChannelName(parts), false))
            ==> r.Duplicate?
  {
    CheckedName(TextChannelName(parts), GUILD_TEXT, false, visibility, 0, channels)
  }

  /** `createChannel`'s checks, in order. */
  function CreateChannel(args: seq<string>, channels: seq<GuildChannel>): (r: Creation)
    ensures r == Usage <==> args == []
    ensures r.Create? ==> args != [] && r.name == TextChannelName(SplitVisibility(args).0)
                          && r.visibility == SplitVisibility(args).1
    ensures r.Create? ==> 1 <= |r.name| <= MAX_NAME && ChannelChars(r.name) && NoUpper(r.name) && r.userLimit == 0
    ensures r.Create? ==> forall c :: c in channels ==> !(c.channelType == GUILD_TEXT && c.name == r.name)
    ensures r.Duplicate? ==> args != [] && r.existing in channels
                             && NameMatches(r.existing, GUILD_TEXT, TextChannelName(SplitVisibility(args).0), false)
  {
    if args == [] then Usage
    else
      var (parts, visibility) := SplitVisibility(args);
      CreateTextChannel(parts, visibility, channels)
  }

  /** `createCategory`'s checks on the name, once the visibility word is split off. */
  function CreateCategoryNamed(parts: seq<string>, visibility: Visibility, channels: seq<GuildChannel>): (r: Creation)
    ensures r != Usage && r != LimitOutOfRange
    ensures r == EmptyName <==> SpacedName(parts) == ""
    ensures r == NameTooLong <==> |SpacedName(parts)| > MAX_NAME
    ensures r.Create? ==> r.name == SpacedName(parts) && r.visibility == visibility && r.userLimit == 0
    ensures r.Create? ==> 1 <= |r.name| <= MAX_NAME
    ensures r.Create? ==> forall c :: c in channels ==>
              !(c.channelType == GUILD_CATEGORY && ToLower(c.name) == ToLower(r.name))
    ensures r.Duplicate? ==> r.existing in channels && NameMatches(r.existing, GUILD_CATEGORY, SpacedName(parts), true)
    ensures 1 <= |SpacedName(parts)| <= MAX_NAME && (exists c :: c in channels && NameMatches(c, GUILD_CATEGORY, SpacedName(parts), true))
            ==> r.Duplicate?
  {
    CheckedName(SpacedName(parts), GUILD_CATEGORY, true, visibility, 0, channels)
  }

  /** `createCategory`'s checks, in order. */
  function CreateCategory(args: seq<string>, channels: seq<GuildChannel>): (r: Creation)
    ensures r == Usage <==> args == []
    ensures r.Create? ==> args != [] && r.name == SpacedName(SplitVisibility(args).0)
                          && r.visibility == SplitVisibility(args).1
    ensures r.Create? ==> 1 <= |r.name| <= MAX_NAME && r.userLimit == 0
    ensures r.Create? ==> forall c :: c in channels ==>
              !(c.channelType == GUILD_CATEGORY && ToLower(c.name) == ToLower(r.name))
    ensures r.Duplicate? ==> args != [] && r.existing in channels
                             && NameMatches(r.existing, GUILD_CATEGORY, SpacedName(SplitVisibility(args).0), true)
  {
    if args == [] then Usage
    else
      var (parts, visibility) := SplitVisibility(args);
      CreateCategoryNamed(parts, visibility, channels)
  }

  /** Appending a visibility word to the arguments of `crchannel` changes
      only the visibility of the result. */
  lemma TrailingVisibility(args: seq<string>, word: string, channels: seq<GuildChannel>)
    requires args != [] && VisibilityOf(args[|args| - 1]).None? && VisibilityOf(word).Some?
    ensures CreateChannel(args, channels).Create? ==> CreateChannel(args, channels).visibility == Public
    ensures CreateChannel(args + [word], channels)
            == (var r := CreateChannel(args, channels); if r.Create? then r.(visibility := VisibilityOf(word).value) else r)
  {
    SplitAppended(args, word);
    TextVisibilityOnly(args, VisibilityOf(word).value, channels);
  }

  /** The same rule for `crcato`. */
  lemma TrailingVisibilityCategory(args: seq<string>, word: string, channels: seq<GuildChannel>)
    requires args != [] && VisibilityOf(args[|args| - 1]).None? && VisibilityOf(word).Some?
    ensures CreateCategory(args, channels).Create? ==> CreateCategory(args, channels).visibility == Public
    ensures CreateCategory(args + [word], channels)
            == (var r := CreateCategory(args, channels); if r.Create? then r.(visibility := VisibilityOf(word).value) else r)
  {
    SplitAppended(args, word);
    CategoryVisibilityOnly(args, VisibilityOf(word).value, channels);
  }

  lemma TextVisibilityOnly(parts: seq<string>, visibility: Visibility, channels: seq<GuildChannel>)
    ensures CreateTextChannel(parts, visibility, channels)
            == (var r := CreateTextChannel(parts, Public, channels); if r.Create? then r.(visibility := visibility) else r)
  {
  }

  lemma CategoryVisibilityOnly(parts: seq<string>, visibility: Visibility, channels: seq<GuildChannel>)
    ensures CreateCategoryNamed(parts, visibility, channels)
            == (var r := CreateCategoryNamed(parts, Public, channels); if r.Create? then r.(visibility := visibility) else r)
  {
  }

  lemma SplitAppended(args: seq<string>, word: string)
    requires args != [] && VisibilityOf(args[|args| - 1]).None? && VisibilityOf(word).Some?
    ensures SplitVisibility(args) == (args, Public)
    ensures SplitVisibility(args + [word]) == (args, VisibilityOf(word).value)
  {
    var ext := args + [word];
    assert ext[|ext| - 1] == word && ext[..|ext| - 1] == args;
  }

  /** A `[a-z0-9-_]` name that is not a visibility word, fits and is new, is created as given. */
  lemma CreateChannelAsGiven(parts: seq<string>, channels: seq<GuildChannel>)
    requires parts != [] && VisibilityOf(parts[|parts| - 1]).None?
    requires forall i :: 0 <= i < |parts| ==> ChannelChars(parts[i])
    requires 1 <= |Join(parts, "-")| <= MAX_NAME
    requires forall c :: c in channels ==> !(c.channelType == GUILD_TEXT && c.name == Join(parts, "-"))
    ensures CreateChannel(parts, channels) == Create(Join(parts, "-"), Public, 0)
  {
    TextChannelNameKeepsValid(parts);
    assert SplitVisibility(parts) == (parts, Public);
    assert FindByName(channels, GUILD_TEXT, Join(parts, "-"), false).None?;
    assert CreateTextChannel(parts, Public, channels) == Create(Join(parts, "-"), Public, 0);
  }

  /** The four argument shapes of `createVoiceChannel`: visibility and limit,
      visibility only, limit only, or neither. */
  function VoiceArgs(args: seq<string>): (r: (seq<string>, Visibility, int))
    requires args != []
    ensures |args| - 2 <= |r.0| <= |args| && r.0 == args[..|r.0|]
    ensures |r.0| == |args| ==> r.1 == Public && r.2 == 0
    ensures |r.0| == |args| - 2 ==> VisibilityOf(args[|args| - 2]) == Some(r.1) && ParseInt(args[|args| - 1]) == Some(r.2)
  {
    var last := args[|args| - 1];
    var secondLast := if |args| > 1 then VisibilityOf(args[|args| - 2]) else None;
    if secondLast.Some? && ParseInt(last).Some? then (args[..|args| - 2], secondLast.value, ParseInt(last).value)
    else if VisibilityOf(last).Some? then (args[..|args| - 1], VisibilityOf(last).value, 0)
    else if ParseInt(last).Some? then (args[..|args| - 1], Public, ParseInt(last).value)
    else (args, Public, 0)
  }

  /** Name words followed by either, both or none of a visibility word and
      a number are read as the four shapes say, whatever the name's length. */
  lemma VoiceArgsShapes(parts: seq<string>, word: string, n: int)
    requires parts != [] ==> VisibilityOf(parts[|parts| - 1]).None? && ParseInt(parts[|parts| - 1]).None?
    requires VisibilityOf(word).Some?
    ensures VoiceArgs(parts + [word, IntToString(n)]) == (parts, VisibilityOf(word).value, n)
    ensures VoiceArgs(parts + [word]) == (parts, VisibilityOf(word).value, 0)
    ensures VoiceArgs(parts + [IntToString(n)]) == (parts, Public, n)
    ensures parts != [] ==> VoiceArgs(parts) == (parts, Public, 0)
  {
    ParseIntOfIntToString(n);
    VoiceArgsBoth(parts, word, IntToString(n), n);
    VoiceArgsWordLast(parts, word);
    VoiceArgsLimitOnly(parts, n);
  }

  lemma VoiceArgsLimitOnly(parts: seq<string>, n: int)
    requires parts != [] ==> VisibilityOf(parts[|parts| - 1]).None?
    ensures VoiceArgs(parts + [IntToString(n)]) == (parts, Public, n)
  {
    ParseIntOfIntToString(n);
    NumberNotVisibility(n);
    var args := parts + [IntToString(n)];
    assert args[|args| - 1] == IntToString(n) && args[..|args| - 1] == parts;
    assert |args| > 1 ==> args[|args| - 2] == parts[|parts| - 1];
    VoiceArgsNumberLast(args, n);
  }

  lemma VoiceArgsNumberLast(args: seq<string>, n: int)
    requires args != [] && ParseInt(args[|args| - 1]) == Some(n) && VisibilityOf(args[|args| - 1]).None?
    requires |args| > 1 ==> VisibilityOf(args[|args| - 2]).None?
    ensures VoiceArgs(args) == (args[..|args| - 1], Public, n)
  {
  }

  lemma VoiceArgsBoth(parts: seq<string>, word: string, last: string, n: int)
    requires VisibilityOf(word).Some? && ParseInt(last) == Some(n)
    ensures VoiceArgs(parts + [word, last]) == (parts, VisibilityOf(word).value, n)
  {
    var args := parts + [word, last];
    assert args[|args| - 1] == last && args[|args| - 2] == word && args[..|args| - 2] == parts;
  }

  lemma VoiceArgsWordLast(parts: seq<string>, word: string)
    requires VisibilityOf(word).Some?
    ensures VoiceArgs(parts + [word]) == (parts, VisibilityOf(word).value, 0)
  {
    VisibilityNotNumber(word);
    var args := parts + [word];
    assert args[|args| - 1] == word && args[..|args| - 1] == parts;
  }

  /** A number is never a visibility word. */
  lemma NumberNotVisibility(n: int)
    ensures VisibilityOf(IntToString(n)).None?
  {
    var s := IntToString(n);
    assert ToLower(s)[0] == LowerChar(s[0]);
  }

  /** `createVoiceChannel`'s checks, in order: the name, then the limit, then the length. */
  function CreateVoiceChannel(args: seq<string>, channels: seq<GuildChannel>): (r: Creation)
    ensures r == Usage <==> args == []
    ensures r == EmptyName <==> args != [] && SpacedName(VoiceArgs(args).0) == ""
    ensures r.Create? ==> args != [] && r.name == SpacedName(VoiceArgs(args).0)
                          && r.visibility == VoiceArgs(args).1 && r.userLimit == VoiceArgs(args).2
    ensures r.Create? ==> 1 <= |r.name| <= MAX_NAME && 0 <= r.userLimit <= 99
    ensures r.Create? ==> forall c :: c in channels ==>
              !(c.channelType == GUILD_VOICE && ToLower(c.name) == ToLower(r.name))
    ensures r == LimitOutOfRange <==> args != [] && SpacedName(VoiceArgs(args).0) != "" && !(0 <= VoiceArgs(args).2 <= 99)
    ensures r == NameTooLong <==> args != [] && SpacedName(VoiceArgs(args).0) != "" && 0 <= VoiceArgs(args).2 <= 99
                                  && |SpacedName(VoiceArgs(args).0)| > MAX_NAME
    ensures r.Duplicate? ==> args != [] && r.existing in channels
                             && NameMatches(r.existing, GUILD_VOICE, SpacedName(VoiceArgs(args).0), true)
    ensures args != [] && 1 <= |SpacedName(VoiceArgs(args).0)| <= MAX_NAME && 0 <= VoiceArgs(args).2 <= 99
            && (exists c :: c in channels && NameMatches(c, GUILD_VOICE, SpacedName(VoiceArgs(args).0), true))
            ==> r.Duplicate?
  {
    if args == [] then Usage
    else
      var (parts, visibility, limit) := VoiceArgs(args);
      var name := SpacedName(parts);
      if name != "" && (limit < 0 || limit > 99) then LimitOutOfRange
      else CheckedName(name, GUILD_VOICE, true, visibility, limit, channels)
  }

  /** A trailing number outside 0..99 is refused once the name is non-empty,
      with or without a visibility word before it. */
  lemma VoiceLimitRefused(parts: seq<string>, word: string, n: int, channels: seq<GuildChannel>)
    requires parts != [] && VisibilityOf(parts[|parts| - 1]).None? && SpacedName(parts) != ""
    requires VisibilityOf(word).Some?
    requires n < 0 || n > 99
    ensures CreateVoiceChannel(parts + [IntToString(n)], channels) == LimitOutOfRange
    ensures CreateVoiceChannel(parts + [word, IntToString(n)], channels) == LimitOutOfRange
  {
    VoiceArgsLimitOnly(parts, n);
    ParseIntOfIntToString(n);
    VoiceArgsBoth(parts, word, IntToString(n), n);
  }

  datatype Renaming =
    | RenameUsage
    | RenameEmpty
    | RenameTooLong
    | CategoryNotFound
    | NotACategory
    | Rename(categoryId: string, newName: string)

  /** `renameCategory`'s checks, in order. */
  function RenameCategory(args: seq<string>, channels: seq<GuildChannel>): (r: Renaming)
    ensures r == RenameUsage <==> |args| < 2
    ensures r.Rename? ==> r.categoryId == args[0] && r.newName == RenamedName(args[1..])
    ensures r.Rename? ==> 1 <= |r.newName| <= MAX_NAME
    ensures r.Rename? ==> !IsSpace(r.newName[0]) && !IsSpace(r.newName[|r.newName| - 1])
    ensures r.Rename? ==> exists c :: c in channels && c.id == args[0] && c.channelType == GUILD_CATEGORY
    ensures r == CategoryNotFound ==> forall c :: c in channels ==> c.id != args[0]
  {
    if |args| < 2 then RenameUsage
    else
      var newName := RenamedName(args[1..]);
      if newName == "" then RenameEmpty
      else if |newName| > MAX_NAME then RenameTooLong
      else
        match FindById(channels, args[0])
        case None => CategoryNotFound
        case Some(c) => if c.channelType != GUILD_CATEGORY then NotACategory else Rename(args[0], newName)
  }

  // ---------------------------------------------------------------------
  // Configuration updates

  /** `config.j2cChannelId = id`. */
  function SetJ2C(config: ServerConfig, channelId: string): (c: ServerConfig)
    ensures c.j2cChannelId == Some(channelId)
    ensures c.adminChannelId == config.adminChannelId && c.lockedLinkChannels == config.lockedLinkChannels
  {
    config.(j2cChannelId := Some(channelId))
  }

  /** `config.j2cChannelId` is truthy: present and non-empty. */
  predicate J2CEnabled(config: ServerConfig) {
    config.j2cChannelId.Some? && config.j2cChannelId.value != ""
  }

  /** `delete config.j2cChannelId`. */
  function ClearJ2C(config: ServerConfig): (c: ServerConfig)
    ensures !J2CEnabled(c) && c.j2cChannelId.None?
    ensures c.adminChannelId == config.adminChannelId && c.lockedLinkChannels == config.lockedLinkChannels
  {
    config.(j2cChannelId := None)
  }

  /** Removing join-to-create after setting it restores the configuration,
      apart from a join-to-create id that was there before. */
  lemma J2CRoundTrip(config: ServerConfig, channelId: string)
    ensures ClearJ2C(SetJ2C(config, channelId)) == config.(j2cChannelId := None)
    ensures channelId != "" ==> J2CEnabled(SetJ2C(config, channelId))
  {
  }

  predicate LinkLocked(config: ServerConfig, channelId: string) {
    config.lockedLinkChannels.Some? && channelId in config.lockedLinkChannels.value
  }

  /** Adds the channel to `lockedLinkChannels`, creating the set when absent. */
  function LockLink(config: ServerConfig, channelId: string): (c: ServerConfig)
    ensures LinkLocked(c, channelId)
    ensures forall other :: other != channelId ==> (LinkLocked(c, other) <==> LinkLocked(config, other))
    ensures c.adminChannelId == config.adminChannelId && c.j2cChannelId == config.j2cChannelId
  {
    var locked := if config.lockedLinkChannels.Some? then config.lockedLinkChannels.value else {};
    config.(lockedLinkChannels := Some(locked + {channelId}))
  }

  /** Removes the channel from `lockedLinkChannels` when the set exists. */
  function UnlockLink(config: ServerConfig, channelId: string): (c: ServerConfig)
    ensures !LinkLocked(c, channelId)
    ensures forall other :: other != channelId ==> (LinkLocked(c, other) <==> LinkLocked(config, other))
    ensures config.lockedLinkChannels.None? ==> c == config
    ensures c.adminChannelId == config.adminChannelId && c.j2cChannelId == config.j2cChannelId
  {
    if config.lockedLinkChannels.Some? then
      config.(lockedLinkChannels := Some(config.lockedLinkChannels.value - {channelId}))
    else config
  }

  /** Unlocking a channel that was just locked leaves the set as it was,
      created if it was absent. */
  lemma LockUnlockRoundTrip(config: ServerConfig, channelId: string)
    requires !LinkLocked(config, channelId)
    ensures UnlockLink(LockLink(config, channelId), channelId).lockedLinkChannels
            == Some(if config.lockedLinkChannels.Some? then config.lockedLinkChannels.value else {})
  {
    var locked := if config.lockedLinkChannels.Some? then config.lockedLinkChannels.value else {};
    assert locked + {channelId} - {channelId} == locked;
  }

  datatype ConfigOutcome = Unauthorized | NotVoice | NotEnabled | Updated

  class ChannelManager {
    var serverConfigs: map<string, ServerConfig>
    /** The map the locked-link commands track, when the global one exists. */
    var globalServerConfigs: Option<map<string, ServerConfig>>

    /** `serverConfigs || new Map()`; the global map is whatever the process set up. */
    constructor (serverConfigs: Option<map<string, ServerConfig>>, globalServerConfigs: Option<map<string, ServerConfig>>)
      ensures this.serverConfigs == (if serverConfigs.Some? then serverConfigs.value else map[])
      ensures this.globalServerConfigs == globalServerConfigs
    {
      this.serverConfigs := if serverConfigs.Some? then serverConfigs.value else map[];
      this.globalServerConfigs := globalServerConfigs;
    }

    /** Only the bot owner, the server owner and Administrators pass, and the bot owner always does. */
    predicate IsAuthorized(env: Option<string>, inv: Invocation)
      reads this
      ensures IsAuthorized(env, inv) ==> inv.authorId == BotOwnerId(env) || inv.authorId == inv.guildOwnerId || inv.isAdministrator
      ensures inv.authorId == BotOwnerId(env) ==> IsAuthorized(env, inv)
    {
      IsStaffAuthorized(env, serverConfigs, inv)
    }

    /** `handleCommand`'s decision before dispatch. */
    function HandleCommand(env: Option<string>, inv: Invocation, command: string): (g: Gate)
      reads this
      ensures g == CommandGate(command, IsAuthorized(env, inv))
      ensures g == Denied ==> command !in INFO_COMMANDS
    {
      CommandGate(command, IsAuthorized(env, inv))
    }

    /** `setupJ2C`: the mention must be a voice channel; then its id is stored
        in the guild's configuration, created when absent. */
    method SetupJ2C(guildId: string, mention: Option<GuildChannel>) returns (r: ConfigOutcome)
      modifies this`serverConfigs
      ensures r == Updated <==> IsVoice(mention)
      ensures r != Updated ==> r == NotVoice && serverConfigs == old(serverConfigs)
      ensures r == Updated ==> serverConfigs == old(serverConfigs)[guildId := SetJ2C(ConfigOf(old(serverConfigs), guildId), mention.value.id)]
    {
      if !IsVoice(mention) {
        return NotVoice;
      }
      var config := ConfigOf(serverConfigs, guildId);
      serverConfigs := serverConfigs[guildId := SetJ2C(config, mention.value.id)];
      r := Updated;
    }

    /** `removeJ2C`: refused when join-to-create is not enabled; otherwise
        only the `j2cChannelId` key is deleted. */
    method RemoveJ2C(guildId: string) returns (r: ConfigOutcome)
      modifies this`serverConfigs
      ensures r == Updated <==> J2CEnabled(ConfigOf(old(serverConfigs), guildId))
      ensures r != Updated ==> r == NotEnabled && serverConfigs == old(serverConfigs)
      ensures r == Updated ==> serverConfigs == old(serverConfigs)[guildId := ClearJ2C(old(serverConfigs)[guildId])]
    {
      var config := ConfigOf(serverConfigs, guildId);
      if !J2CEnabled(config) {
        return NotEnabled;
      }
      serverConfigs := serverConfigs[guildId := ClearJ2C(config)];
      r := Updated;
    }

    /** `lockLinksSlash`'s bookkeeping in the global map. */
    method LockLinks(guildId: string, channelId: string)
      modifies this`globalServerConfigs
      ensures old(globalServerConfigs).None? ==> globalServerConfigs == None
      ensures old(globalServerConfigs).Some? ==>
                globalServerConfigs == Some(old(globalServerConfigs).value[guildId :=
                  LockLink(ConfigOf(old(globalServerConfigs).value, guildId), channelId)])
      ensures old(globalServerConfigs).Some? ==> LinkLocked(globalServerConfigs.value[guildId], channelId)
    {
      if globalServerConfigs.Some? {
        var configs := globalServerConfigs.value;
        globalServerConfigs := Some(configs[guildId := LockLink(ConfigOf(configs, guildId), channelId)]);
      }
    }

    /** `unlockLinksSlash`'s bookkeeping: only an existing set is changed. */
    method UnlockLinks(guildId: string, channelId: string)
      modifies this`globalServerConfigs
      ensures (old(globalServerConfigs).None? || ConfigOf(old(globalServerConfigs).value, guildId).lockedLinkChannels.None?) ==>
                globalServerConfigs == old(globalServerConfigs)
      ensures (old(globalServerConfigs).Some? && ConfigOf(old(globalServerConfigs).value, guildId).lockedLinkChannels.Some?) ==>
                globalServerConfigs == Some(old(globalServerConfigs).value[guildId :=
                  UnlockLink(old(globalServerConfigs).value[guildId], channelId)])
      ensures globalServerConfigs.Some? ==> !LinkLocked(ConfigOf(globalServerConfigs.value, guildId), channelId)
    {
      if globalServerConfigs.Some? {
        var configs := globalServerConfigs.value;
        var config := ConfigOf(configs, guildId);
        if config.lockedLinkChannels.Some? {
          globalServerConfigs := Some(configs[guildId := UnlockLink(config, channelId)]);
        }
      }
    }
  }
}
