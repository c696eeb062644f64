/** The media-only channel manager: the per-channel configuration map, the
    staff gate of its commands, slowmode validation and the rule that deletes
    messages without media in an enabled channel. */
module MediaThreads {
  import opened Common

  const MAX_SLOWMODE := 21600

  /** A `mediaChannels` entry; `slowmode` is present on every stored entry. */
  datatype MediaConfig = MediaConfig(enabled: bool, slowmode: nat)

  datatype Outcome = Unauthorized | NotConfigured | InvalidSlowmode | Done

  /** `parseInt(args[1])` accepted only in 0..21600. */
  function SlowmodeArg(args: seq<string>): (r: Option<int>)
    ensures r.Some? ==> 0 <= r.value <= MAX_SLOWMODE
  {
    InRange(ParseIntArg(args, 1), 0, MAX_SLOWMODE)
  }

  /** The slowmode argument accepts exactly the integers 0..21600. */
  lemma SlowmodeArgExactly(command: string, n: int)
    ensures SlowmodeArg([command, IntToString(n)]) == (if 0 <= n <= MAX_SLOWMODE then Some(n) else None)
  {
    ParseIntOfIntToString(n);
  }

  /** A missing argument is NaN and is rejected. */
  lemma SlowmodeArgMissing(command: string)
    ensures SlowmodeArg([command]) == None
  {
  }

  /** The entry after a slowmode change: the stored config, or
      `{ enabled: false }` when there is none, with its slowmode replaced. */
  function WithSlowmode(current: Option<MediaConfig>, seconds: nat): (c: MediaConfig)
    ensures c.slowmode == seconds
    ensures c.enabled <==> current.Some? && current.value.enabled
  {
    match current
    case None => MediaConfig(false, seconds)
    case Some(cfg) => cfg.(slowmode := seconds)
  }

  /** `hasMedia`: at least one attachment or at least one embed. */
  predicate HasMedia(attachments: nat, embeds: nat)
    ensures HasMedia(attachments, embeds) <==> attachments + embeds > 0
  {
    attachments > 0 || embeds > 0
  }

  /** The decision of `handleMessage` for the channel's config. */
  function ShouldDelete(authorIsBot: bool, config: Option<MediaConfig>, attachments: nat, embeds: nat): (d: bool)
    ensures d ==> !HasMedia(attachments, embeds) && config.Some? && config.value.enabled
  {
    if authorIsBot then false
    else if config.None? || !config.value.enabled then false
    else !HasMedia(attachments, embeds)
  }

  /** Messages with media, messages by bots and messages in unconfigured or
      disabled channels are never deleted; every other message is. */
  lemma DeletionPolicy(authorIsBot: bool, config: Option<MediaConfig>, attachments: nat, embeds: nat)
    ensures ShouldDelete(authorIsBot, config, attachments, embeds)
            <==> !authorIsBot && config.Some? && config.value.enabled && attachments == 0 && embeds == 0
  {
  }

  function Lookup(m: map<string, MediaConfig>, channelId: string): Option<MediaConfig> {
    if channelId in m then Some(m[channelId]) else None
  }

  class MediaThreadsManager {
    var serverConfigs: map<string, ServerConfig>
    /** channelId -> config */
    var mediaChannels: map<string, MediaConfig>

    /** `serverConfigs || new Map()`. */
    constructor (serverConfigs: Option<map<string, ServerConfig>>)
      ensures this.serverConfigs == (if serverConfigs.Some? then serverConfigs.value else map[])
      ensures mediaChannels == map[]
    {
      this.serverConfigs := if serverConfigs.Some? then serverConfigs.value else map[];
      mediaChannels := map[];
    }

    /** Only the bot owner, the server owner and Administrators pass, and the bot owner always does. */
    predicate IsAuthorized(env: Option<string>, inv: Invocation)
      reads this
      ensures IsAuthorized(env, inv) ==> inv.authorId == BotOwnerId(env) || inv.authorId == inv.guildOwnerId || inv.isAdministrator
      ensures inv.authorId == BotOwnerId(env) ==> IsAuthorized(env, inv)
    {
      IsStaffAuthorized(env, serverConfigs, inv)
    }

    /** `handleMessage`'s decision for a message posted in `channelId`. */
    predicate DeletesMessage(authorIsBot: bool, channelId: string, attachments: nat, embeds: nat)
      reads this
      ensures DeletesMessage(authorIsBot, channelId, attachments, embeds)
              <==> !authorIsBot && channelId in mediaChannels && mediaChannels[channelId].enabled
                   && attachments == 0 && embeds == 0
    {
      ShouldDelete(authorIsBot, Lookup(mediaChannels, channelId), attachments, embeds)
    }

    /** Stores `{ enabled: true, slowmode: 0 }` for the channel, replacing any
        earlier entry; from then on a human message without media is deleted. */
    method EnableMedia(env: Option<string>, inv: Invocation) returns (r: Outcome)
      modifies this`mediaChannels
      ensures r == Done <==> IsAuthorized(env, inv)
      ensures r != Done ==> r == Unauthorized && mediaChannels == old(mediaChannels)
      ensures r == Done ==> mediaChannels == old(mediaChannels)[inv.channelId := MediaConfig(true, 0)]
      ensures r == Done ==> DeletesMessage(false, inv.channelId, 0, 0)
    {
      if !IsAuthorized(env, inv) {
        return Unauthorized;
      }
      mediaChannels := mediaChannels[inv.channelId := MediaConfig(true, 0)];
      r := Done;
    }

    /** Removes the channel's entry; a channel that is not configured is
        rejected without change. Afterwards nothing in it is deleted. */
    method DisableMedia(env: Option<string>, inv: Invocation) returns (r: Outcome)
      modifies this`mediaChannels
      ensures !IsAuthorized(env, inv) ==> r == Unauthorized
      ensures IsAuthorized(env, inv) && inv.channelId !in old(mediaChannels) ==> r == NotConfigured
      ensures r == Done <==> IsAuthorized(env, inv) && inv.channelId in old(mediaChannels)
      ensures r != Done ==> mediaChannels == old(mediaChannels)
      ensures r == Done ==> mediaChannels == old(mediaChannels) - {inv.channelId}
      ensures r == Done ==> forall b, a, e :: !DeletesMessage(b, inv.channelId, a, e)
    {
      if !IsAuthorized(env, inv) {
        return Unauthorized;
      }
      if inv.channelId !in mediaChannels {
        return NotConfigured;
      }
      mediaChannels := mediaChannels - {inv.channelId};
      r := Done;
    }

    /** Validates `parseInt(args[1])` and records it as the channel's slowmode,
        keeping the enabled flag. The rate-limit call comes after the update
        and is not modelled. */
    method MediaSlowmode(env: Option<string>, inv: Invocation, args: seq<string>) returns (r: Outcome)
      modifies this`mediaChannels
      ensures !IsAuthorized(env, inv) ==> r == Unauthorized
      ensures IsAuthorized(env, inv) && SlowmodeArg(args).None? ==> r == InvalidSlowmode
      ensures r == Done <==> IsAuthorized(env, inv) && SlowmodeArg(args).Some?
      ensures r != Done ==> mediaChannels == old(mediaChannels)
      ensures r == Done ==> mediaChannels == old(mediaChannels)[inv.channelId :=
                WithSlowmode(Lookup(old(mediaChannels), inv.channelId), SlowmodeArg(args).value as nat)]
      ensures r == Done ==> forall b, a, e ::
                DeletesMessage(b, inv.channelId, a, e) == old(DeletesMessage(b, inv.channelId, a, e))
    {
      if !IsAuthorized(env, inv) {
        return Unauthorized;
      }
      var seconds := SlowmodeArg(args);
      if seconds.None? {
        return InvalidSlowmode;
      }
      var config := WithSlowmode(Lookup(mediaChannels, inv.channelId), seconds.value as nat);
      mediaChannels := mediaChannels[inv.channelId := config];
      r := Done;
    }
  }
}
