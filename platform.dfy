/**
 * The chat-platform entities the adapter reads: identifiers, users, button
 * styles and the resolved values of slash-command options.
 */
module Platform {
  import opened Wrappers
  import opened RustInts

  /** Snowflake identifiers are 64-bit. */
  type UserId = u64
  type GuildId = u64
  type ChannelId = u64
  type AttachmentId = u64

  /** A sound id is a ULID, a 128-bit value; its text form is not modelled. */
  type Ulid = x: nat | x < 0x1_0000_0000_0000_0000_0000_0000_0000_0000

  datatype User = User(id: UserId, name: string)

  datatype ButtonStyle = Primary | Secondary | Success | Danger

  /** The resolved value of a command option (the kinds this adapter reads, and the rest). */
  datatype OptionValue =
    | StringValue(text: string)
    | IntegerValue(number: i64)
    | UserValue(user: User)
    | AttachmentValue(attachment: AttachmentId)
    | OtherValue

  /** An option as it arrives: its name and, when the platform resolved it, its value. */
  datatype CommandOption = CommandOption(name: string, resolved: Option<OptionValue>)
}
