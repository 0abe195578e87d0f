/**
 * Auto-leave: on every voice-state update the adapter looks at the channel
 * the user left and the channel the user joined, and leaves the guild's
 * voice connection when the bot is the only member left in a voice channel.
 * The channel cache and the member fetch are given as a map.
 */
module AutoLeave {
  import opened Wrappers
  import opened Platform

  datatype ChannelKind = Voice | Text | OtherKind

  /** A cached guild channel with its current members. */
  datatype GuildChannel = GuildChannel(guild: GuildId, kind: ChannelKind, members: seq<UserId>)

  /** The part of a voice state the handler reads: the channel, if any. */
  datatype VoiceState = VoiceState(channel: Option<ChannelId>)

  /** The bot is alone: exactly one member, and that member is the bot. */
  function IsAlone(members: seq<UserId>, bot: UserId): (alone: bool)
    ensures alone <==> members == [bot]
  {
    |members| == 1 && members[0] == bot
  }

  /** Anyone else present keeps the bot in the channel. */
  lemma OtherMemberKeepsBot(members: seq<UserId>, bot: UserId, other: UserId)
    requires other in members && other != bot
    ensures !IsAlone(members, bot)
  {
  }

  /** `disconnect_if_alone`: the guild to leave, if the channel is a cached voice channel with only the bot in it. */
  function LeaveTarget(channels: map<ChannelId, GuildChannel>, channel: ChannelId, bot: UserId): (guild: Option<GuildId>)
    ensures guild.Some? <==>
      channel in channels && channels[channel].kind == Voice && channels[channel].members == [bot]
    ensures guild.Some? ==> guild.value == channels[channel].guild
  {
    if channel !in channels then None
    else if channels[channel].kind != Voice then None
    else if !IsAlone(channels[channel].members, bot) then None
    else Some(channels[channel].guild)
  }

  /** The channels an update concerns: the one left and the one joined. */
  predicate Concerns(previous: Option<VoiceState>, current: VoiceState, c: ChannelId) {
    (previous.Some? && previous.value.channel == Some(c)) || current.channel == Some(c)
  }

  /** A cached voice channel whose only member is the bot. */
  predicate BotAloneIn(channels: map<ChannelId, GuildChannel>, c: ChannelId, bot: UserId) {
    c in channels && channels[c].kind == Voice && channels[c].members == [bot]
  }

  /** `voice_state_update`: the guilds left, checking the channel left first, then the one joined. */
  function VoiceStateUpdate(channels: map<ChannelId, GuildChannel>, previous: Option<VoiceState>,
                            current: VoiceState, bot: UserId): (left: seq<GuildId>)
    ensures |left| <= 2
    ensures forall g :: g in left ==>
      exists c :: Concerns(previous, current, c) && BotAloneIn(channels, c, bot) && channels[c].guild == g
    ensures forall c :: Concerns(previous, current, c) && BotAloneIn(channels, c, bot) ==>
      channels[c].guild in left
  {
    var fromPrevious := if previous.Some? && previous.value.channel.Some?
      then LeaveTarget(channels, previous.value.channel.value, bot) else None;
    var fromCurrent := if current.channel.Some? then LeaveTarget(channels, current.channel.value, bot) else None;
    (if fromPrevious.Some? then [fromPrevious.value] else []) + (if fromCurrent.Some? then [fromCurrent.value] else [])
  }
}
