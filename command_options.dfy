/**
 * Reading slash-command options: `find_option`, the first-match lookup by
 * name, and the decoders that `download`, `upload` and `delete` apply to
 * the values it finds.  A missing or wrongly typed required option makes
 * the handler return without replying, modelled here as `None`.
 */
module CommandOptions {
  import opened Wrappers
  import opened RustInts
  import opened Platform

  /** `find_option`: the resolved value of the first option called `name`. */
  function FindOption(options: seq<CommandOption>, name: string): (r: Option<OptionValue>)
    ensures (forall i :: 0 <= i < |options| ==> options[i].name != name) ==> r == None
    ensures forall i :: 0 <= i < |options| ==>
      (options[i].name == name && (forall j :: 0 <= j < i ==> options[j].name != name)) ==>
      r == options[i].resolved
  {
    if options == [] then None
    else if options[0].name == name then options[0].resolved
    else FindOption(options[1..], name)
  }

  /** The `download` argument: the first option, when the platform resolved it to a user. */
  function DownloadUser(options: seq<CommandOption>): (r: Option<User>)
    ensures r.Some? <==> |options| > 0 && options[0].resolved.Some? && options[0].resolved.value.UserValue?
    ensures r.Some? ==> r.value == options[0].resolved.value.user
  {
    if |options| == 0 then None
    else match options[0].resolved
      case Some(UserValue(user)) => Some(user)
      case _ => None
  }

  /** A `String` value, or nothing. */
  function AsString(value: Option<OptionValue>): Option<string> {
    match value
    case Some(StringValue(text)) => Some(text)
    case _ => None
  }

  /** The colour choice decoded into a button style; an unknown colour falls back to Primary. */
  function StyleOfColor(color: string): ButtonStyle {
    match color
    case "blue" => Primary
    case "green" => Success
    case "red" => Danger
    case "grey" => Secondary
    case _ => Primary
  }

  /** The colour choice registered for each style. */
  function ColorOfStyle(style: ButtonStyle): (color: string)
    ensures color in COLOR_CHOICES
  {
    match style
    case Primary => "blue"
    case Success => "green"
    case Danger => "red"
    case Secondary => "grey"
  }

  /** The four choices the `color` option is registered with. */
  const COLOR_CHOICES: set<string> := {"blue", "green", "red", "grey"}

  /** Every style is produced by its colour name, and each registered choice by exactly one style. */
  lemma ColorRoundTrip(style: ButtonStyle, color: string)
    ensures StyleOfColor(ColorOfStyle(style)) == style
    ensures color in COLOR_CHOICES ==> ColorOfStyle(StyleOfColor(color)) == color
    ensures color !in COLOR_CHOICES ==> StyleOfColor(color) == Primary
  {
  }

  /** `(n - 1) as usize`: the 1-based position typed by the user, as a 0-based index. */
  function ZeroBasedIndex(n: i64): (index: u64)
    ensures n >= 1 ==> index as int == n as int - 1
    ensures n <= 0 ==> index as int == n as int - 1 + U64_MODULUS
  {
    CastI64ToUsize(SubI64(n, 1))
  }

  /** Distinct typed positions give distinct indices, even where the conversion wraps. */
  lemma ZeroBasedIndexInjective(a: i64, b: i64)
    requires ZeroBasedIndex(a) == ZeroBasedIndex(b)
    ensures a == b
  {
  }

  /** A position of 0 or below wraps to an index of at least `i64::MAX`, past the end of any group. */
  lemma ZeroBasedIndexWraps(n: i64)
    requires n <= 0
    ensures ZeroBasedIndex(n) as int >= I64_MAX
  {
  }

  /** The arguments of `upload` once decoded. */
  datatype UploadRequest = UploadRequest(
    guild: GuildId,
    attachment: AttachmentId,
    name: string,
    color: ButtonStyle,
    group: string,
    emoji: Option<char>,
    index: Option<u64>)

  /** `emoji`: the first character of a `String` value, if there is one. */
  function EmojiOf(value: Option<OptionValue>): (emoji: Option<char>)
    ensures emoji.Some? <==> value.Some? && value.value.StringValue? && value.value.text != []
    ensures emoji.Some? ==> emoji.value == value.value.text[0]
  {
    match value
    case Some(StringValue(text)) => if text == [] then None else Some(text[0])
    case _ => None
  }

  /** `index`: an `Integer` value converted to a 0-based index. */
  function IndexOf(value: Option<OptionValue>): (index: Option<u64>)
    ensures index.Some? <==> value.Some? && value.value.IntegerValue?
    ensures index.Some? ==> index.value == ZeroBasedIndex(value.value.number)
  {
    match value
    case Some(IntegerValue(n)) => Some(ZeroBasedIndex(n))
    case _ => None
  }

  /** Decoding the `upload` command: all four required options first, then the two optional ones. */
  function DecodeUpload(guild: Option<GuildId>, options: seq<CommandOption>): (r: Option<UploadRequest>)
    ensures r.Some? <==>
      guild.Some? &&
      FindOption(options, "sound").Some? && FindOption(options, "sound").value.AttachmentValue? &&
      AsString(FindOption(options, "name")).Some? &&
      AsString(FindOption(options, "color")).Some? &&
      AsString(FindOption(options, "group")).Some?
    ensures r.Some? ==>
      r.value.guild == guild.value &&
      r.value.attachment == FindOption(options, "sound").value.attachment &&
      r.value.name == AsString(FindOption(options, "name")).value &&
      r.value.color == StyleOfColor(AsString(FindOption(options, "color")).value) &&
      r.value.group == AsString(FindOption(options, "group")).value &&
      r.value.emoji == EmojiOf(FindOption(options, "emoji")) &&
      r.value.index == IndexOf(FindOption(options, "index"))
  {
    match (guild, FindOption(options, "sound"), AsString(FindOption(options, "name")),
           AsString(FindOption(options, "color")), AsString(FindOption(options, "group")))
    case (Some(g), Some(AttachmentValue(attachment)), Some(name), Some(color), Some(group)) =>
      Some(UploadRequest(g, attachment, name, StyleOfColor(color), group,
                         EmojiOf(FindOption(options, "emoji")), IndexOf(FindOption(options, "index"))))
    case _ => None
  }

  /** Decoding the `delete` command: a guild and the `sound` option as a string. */
  function DecodeDelete(guild: Option<GuildId>, options: seq<CommandOption>): (r: Option<(GuildId, string)>)
    ensures r.Some? <==> guild.Some? && AsString(FindOption(options, "sound")).Some?
    ensures r.Some? ==> r.value == (guild.value, AsString(FindOption(options, "sound")).value)
  {
    match (guild, AsString(FindOption(options, "sound")))
    case (Some(g), Some(name)) => Some((g, name))
    case _ => None
  }

  /** The options the platform sends for the four required arguments, the colour as its registered choice. */
  function RequiredOptions(req: UploadRequest): seq<CommandOption> {
    [ CommandOption("sound", Some(AttachmentValue(req.attachment))),
      CommandOption("name", Some(StringValue(req.name))),
      CommandOption("color", Some(StringValue(ColorOfStyle(req.color)))),
      CommandOption("group", Some(StringValue(req.group))) ]
  }

  /** The optional arguments: the emoji as a one-character string, the index as the 1-based position. */
  function OptionalOptions(req: UploadRequest): seq<CommandOption>
    requires req.index.Some? ==> req.index.value as int < I64_MAX
  {
    (if req.emoji.Some? then [CommandOption("emoji", Some(StringValue([req.emoji.value])))] else []) +
    (if req.index.Some? then [CommandOption("index", Some(IntegerValue((req.index.value as int + 1) as i64)))] else [])
  }

  /** Options that do not carry the name are skipped by the lookup. */
  lemma {:induction false} FindOptionSkips(skipped: seq<CommandOption>, rest: seq<CommandOption>, name: string)
    requires forall i :: 0 <= i < |skipped| ==> skipped[i].name != name
    ensures FindOption(skipped + rest, name) == FindOption(rest, name)
  {
    if skipped != [] {
      assert (skipped + rest)[1..] == skipped[1..] + rest;
      FindOptionSkips(skipped[1..], rest, name);
    } else {
      assert skipped + rest == rest;
    }
  }

  lemma RequiredFound(req: UploadRequest, rest: seq<CommandOption>)
    ensures FindOption(RequiredOptions(req) + rest, "sound") == Some(AttachmentValue(req.attachment))
    ensures FindOption(RequiredOptions(req) + rest, "name") == Some(StringValue(req.name))
    ensures FindOption(RequiredOptions(req) + rest, "color") == Some(StringValue(ColorOfStyle(req.color)))
    ensures FindOption(RequiredOptions(req) + rest, "group") == Some(StringValue(req.group))
  {
    var options := RequiredOptions(req) + rest;
    assert options[0].name == "sound";
    assert options[1].name == "name" && options[0].name != "name";
    assert options[2].name == "color" && options[0].name != "color" && options[1].name != "color";
    assert options[3].name == "group" && forall j :: 0 <= j < 3 ==> options[j].name != "group";
  }

  lemma OptionalFound(req: UploadRequest)
    requires req.index.Some? ==> req.index.value as int < I64_MAX
    ensures FindOption(RequiredOptions(req) + OptionalOptions(req), "emoji") ==
      if req.emoji.Some? then Some(StringValue([req.emoji.value])) else None
    ensures FindOption(RequiredOptions(req) + OptionalOptions(req), "index") ==
      if req.index.Some? then Some(IntegerValue((req.index.value as int + 1) as i64)) else None
  {
    var required := RequiredOptions(req);
    var optional := OptionalOptions(req);
    assert forall i :: 0 <= i < |required| ==> required[i].name != "emoji" && required[i].name != "index";
    FindOptionSkips(required, optional, "emoji");
    FindOptionSkips(required, optional, "index");
    if req.emoji.Some? && req.index.Some? {
      assert optional[0].name != "index";
      assert optional[1].name == "index";
    }
  }

  /** Decoding depends only on what the lookup finds for each of the six names. */
  lemma DecodeUploadFound(req: UploadRequest, options: seq<CommandOption>)
    requires FindOption(options, "sound") == Some(AttachmentValue(req.attachment))
    requires FindOption(options, "name") == Some(StringValue(req.name))
    requires FindOption(options, "color") == Some(StringValue(ColorOfStyle(req.color)))
    requires FindOption(options, "group") == Some(StringValue(req.group))
    requires EmojiOf(FindOption(options, "emoji")) == req.emoji
    requires IndexOf(FindOption(options, "index")) == req.index
    ensures DecodeUpload(Some(req.guild), options) == Some(req)
  {
    ColorRoundTrip(req.color, "");
  }

  /** Every request a user can type is decoded back to itself. */
  lemma DecodeUploadRoundTrip(req: UploadRequest)
    requires req.index.Some? ==> req.index.value as int < I64_MAX
    ensures DecodeUpload(Some(req.guild), RequiredOptions(req) + OptionalOptions(req)) == Some(req)
  {
    var options := RequiredOptions(req) + OptionalOptions(req);
    RequiredFound(req, OptionalOptions(req));
    OptionalFound(req);
    DecodeUploadFound(req, options);
  }
}
