/**
 * The `sounds` command: the soundboard's groups are rendered as messages of
 * buttons.  Each group is cut into messages of at most
 * `(ROWS_PER_MESSAGE - 1) * SOUNDS_PER_ROW` sounds; each message is cut into
 * rows of `SOUNDS_PER_ROW` buttons; the first message of a group also
 * carries a select-menu row naming the group.  The platform allows five
 * rows per message, which the lemmas below show is never exceeded.
 */
module SoundList {
  import opened Wrappers
  import opened Slices
  import opened Platform

  const ROWS_PER_MESSAGE: nat := 5
  const SOUNDS_PER_ROW: nat := 5
  const SOUNDS_PER_MESSAGE: nat := (ROWS_PER_MESSAGE - 1) * SOUNDS_PER_ROW

  /** The fields of a soundboard record that the rendering reads. */
  datatype Sound = Sound(id: Ulid, name: string, color: ButtonStyle, emoji: Option<char>)

  /** A sound button: its custom id is the sound's id, its text the sound's name. */
  datatype Button = Button(customId: Ulid, style: ButtonStyle, text: string, emoji: Option<char>)

  /** A message: the optional group-selector row, then rows of buttons. */
  datatype Message = Message(selector: Option<string>, rows: seq<seq<Button>>)

  /** One entry of the soundboard's listing: a group name and its sounds, in order. */
  datatype Group = Group(name: string, sounds: seq<Sound>)

  datatype SoundsReply =
    | NoSounds              // "There is no sounds uploaded to this server...yet."
    | Messages(messages: seq<Message>)

  function ButtonOf(s: Sound): Button {
    Button(s.id, s.color, s.name, s.emoji)
  }

  function ButtonsOf(sounds: seq<Sound>): (buttons: seq<Button>)
    ensures |buttons| == |sounds|
    ensures forall k :: 0 <= k < |sounds| ==> buttons[k] == ButtonOf(sounds[k])
  {
    seq(|sounds|, k requires 0 <= k < |sounds| => ButtonOf(sounds[k]))
  }

  /** The message with index `messageIndex` within a group, holding `sounds`. */
  function MessageOf(group: string, messageIndex: nat, sounds: seq<Sound>): Message {
    var rows := Chunks(sounds, SOUNDS_PER_ROW);
    Message(if messageIndex == 0 then Some(group) else None,
            seq(|rows|, r requires 0 <= r < |rows| => ButtonsOf(rows[r])))
  }

  /** The messages sent for one group. */
  function GroupMessages(g: Group): seq<Message> {
    var parts := Chunks(g.sounds, SOUNDS_PER_MESSAGE);
    seq(|parts|, i requires 0 <= i < |parts| => MessageOf(g.name, i, parts[i]))
  }

  /** The messages sent for all groups, in the listing's order. */
  function Layout(groups: seq<Group>): seq<Message> {
    if groups == [] then [] else Layout(groups[..|groups| - 1]) + GroupMessages(groups[|groups| - 1])
  }

  /** Number of components of a message: the selector row, if any, and the button rows. */
  function ComponentCount(m: Message): nat {
    (if m.selector.Some? then 1 else 0) + |m.rows|
  }

  /** All buttons of a message, row after row. */
  function MessageButtons(m: Message): seq<Button> {
    Flatten(m.rows)
  }

  /** All buttons of a sequence of messages, in order. */
  function AllButtons(ms: seq<Message>): seq<Button> {
    if ms == [] then [] else AllButtons(ms[..|ms| - 1]) + MessageButtons(ms[|ms| - 1])
  }

  /** The group names carried by selector rows, in order. */
  function Selectors(ms: seq<Message>): seq<string> {
    if ms == [] then []
    else Selectors(ms[..|ms| - 1]) + (if ms[|ms| - 1].selector.Some? then [ms[|ms| - 1].selector.value] else [])
  }

  function AllSounds(groups: seq<Group>): seq<Sound> {
    if groups == [] then [] else AllSounds(groups[..|groups| - 1]) + groups[|groups| - 1].sounds
  }

  /** Names of the groups that have at least one sound, in order. */
  function NonEmptyGroupNames(groups: seq<Group>): seq<string> {
    if groups == [] then []
    else NonEmptyGroupNames(groups[..|groups| - 1]) +
         (if groups[|groups| - 1].sounds != [] then [groups[|groups| - 1].name] else [])
  }

  lemma {:induction false} ButtonsOfFlatten(rows: seq<seq<Sound>>)
    ensures Flatten(seq(|rows|, r requires 0 <= r < |rows| => ButtonsOf(rows[r]))) == ButtonsOf(Flatten(rows))
  {
    var mapped := seq(|rows|, r requires 0 <= r < |rows| => ButtonsOf(rows[r]));
    if rows != [] {
      var tail := seq(|rows| - 1, r requires 0 <= r < |rows| - 1 => ButtonsOf(rows[1..][r]));
      assert mapped[1..] == tail;
      ButtonsOfFlatten(rows[1..]);
      ButtonsOfAppend(rows[0], Flatten(rows[1..]));
    }
  }

  lemma ButtonsOfAppend(a: seq<Sound>, b: seq<Sound>)
    ensures ButtonsOf(a + b) == ButtonsOf(a) + ButtonsOf(b)
  {
    assert forall k :: 0 <= k < |a + b| ==> ButtonsOf(a + b)[k] == (ButtonsOf(a) + ButtonsOf(b))[k];
  }

  /**
   * Shape of one message: at most 20 sounds in at most 4 non-empty rows of at
   * most 5, so with the selector at most ROWS_PER_MESSAGE components; the
   * buttons, row after row, are the message's sounds in order.
   */
  lemma MessageShape(group: string, messageIndex: nat, sounds: seq<Sound>)
    requires 0 < |sounds| <= SOUNDS_PER_MESSAGE
    ensures var m := MessageOf(group, messageIndex, sounds);
      && 0 < |m.rows| <= ROWS_PER_MESSAGE - 1
      && ComponentCount(m) <= ROWS_PER_MESSAGE
      && (forall r :: 0 <= r < |m.rows| ==> 0 < |m.rows[r]| <= SOUNDS_PER_ROW)
      && (m.selector.Some? <==> messageIndex == 0)
      && (m.selector.Some? ==> m.selector.value == group)
      && MessageButtons(m) == ButtonsOf(sounds)
  {
    ChunksCount(sounds, SOUNDS_PER_ROW);
    ChunksShape(sounds, SOUNDS_PER_ROW);
    ButtonsOfFlatten(Chunks(sounds, SOUNDS_PER_ROW));
  }

  lemma {:induction false} AllButtonsAppend(a: seq<Message>, b: seq<Message>)
    ensures AllButtons(a + b) == AllButtons(a) + AllButtons(b)
  {
    if b != [] {
      assert (a + b)[..|a + b| - 1] == a + b[..|b| - 1];
      AllButtonsAppend(a, b[..|b| - 1]);
    } else {
      assert a + b == a;
    }
  }

  lemma {:induction false} SelectorsAppend(a: seq<Message>, b: seq<Message>)
    ensures Selectors(a + b) == Selectors(a) + Selectors(b)
  {
    if b != [] {
      assert (a + b)[..|a + b| - 1] == a + b[..|b| - 1];
      SelectorsAppend(a, b[..|b| - 1]);
    } else {
      assert a + b == a;
    }
  }

  lemma {:induction false} AllButtonsIsFlatten(ms: seq<Message>)
    ensures AllButtons(ms) == Flatten(seq(|ms|, i requires 0 <= i < |ms| => MessageButtons(ms[i])))
  {
    var mapped := seq(|ms|, i requires 0 <= i < |ms| => MessageButtons(ms[i]));
    if ms != [] {
      var init := ms[..|ms| - 1];
      AllButtonsIsFlatten(init);
      assert mapped == seq(|init|, i requires 0 <= i < |init| => MessageButtons(init[i])) + [MessageButtons(ms[|ms| - 1])];
      FlattenSnoc(seq(|init|, i requires 0 <= i < |init| => MessageButtons(init[i])), MessageButtons(ms[|ms| - 1]));
    }
  }

  /** One group: every message has the shape of MessageShape, and only the first carries the selector. */
  lemma GroupShape(g: Group)
    ensures forall i :: 0 <= i < |GroupMessages(g)| ==>
      ComponentCount(GroupMessages(g)[i]) <= ROWS_PER_MESSAGE &&
      |MessageButtons(GroupMessages(g)[i])| <= SOUNDS_PER_MESSAGE &&
      (forall r :: 0 <= r < |GroupMessages(g)[i].rows| ==> 0 < |GroupMessages(g)[i].rows[r]| <= SOUNDS_PER_ROW) &&
      (GroupMessages(g)[i].selector.Some? <==> i == 0)
  {
    var ms := GroupMessages(g);
    var parts := Chunks(g.sounds, SOUNDS_PER_MESSAGE);
    ChunksShape(g.sounds, SOUNDS_PER_MESSAGE);
    forall i | 0 <= i < |ms|
      ensures ComponentCount(ms[i]) <= ROWS_PER_MESSAGE
      ensures |MessageButtons(ms[i])| <= SOUNDS_PER_MESSAGE
      ensures forall r :: 0 <= r < |ms[i].rows| ==> 0 < |ms[i].rows[r]| <= SOUNDS_PER_ROW
      ensures ms[i].selector.Some? <==> i == 0
    {
      MessageShape(g.name, i, parts[i]);
    }
  }

  /** One group: the buttons of all its messages are the group's sounds in their original order. */
  lemma GroupButtons(g: Group)
    ensures AllButtons(GroupMessages(g)) == ButtonsOf(g.sounds)
  {
    var ms := GroupMessages(g);
    var parts := Chunks(g.sounds, SOUNDS_PER_MESSAGE);
    ChunksShape(g.sounds, SOUNDS_PER_MESSAGE);
    assert seq(|ms|, i requires 0 <= i < |ms| => MessageButtons(ms[i]))
        == seq(|parts|, i requires 0 <= i < |parts| => ButtonsOf(parts[i])) by {
      forall i | 0 <= i < |ms|
        ensures MessageButtons(ms[i]) == ButtonsOf(parts[i])
      {
        MessageShape(g.name, i, parts[i]);
      }
    }
    AllButtonsIsFlatten(ms);
    ButtonsOfFlatten(parts);
  }

  /** One group: a single selector row, naming the group, unless the group is empty. */
  lemma GroupSelectors(g: Group)
    ensures Selectors(GroupMessages(g)) == if g.sounds == [] then [] else [g.name]
  {
    var ms := GroupMessages(g);
    if g.sounds != [] {
      ChunksShape(g.sounds, SOUNDS_PER_MESSAGE);
      assert ms[0].selector == Some(g.name);
      SelectorsOfTail(ms, |ms|);
      assert ms == [ms[0]] + ms[1..|ms|];
      SelectorsAppend([ms[0]], ms[1..|ms|]);
      assert Selectors([ms[0]]) == [g.name] by {
        assert [ms[0]][..0] == [];
      }
    } else {
      assert ms == [];
    }
  }

  /** Messages after the first of a group carry no selector. */
  lemma {:induction false} SelectorsOfTail(ms: seq<Message>, n: nat)
    requires 0 < n <= |ms|
    requires forall i :: 0 < i < |ms| ==> ms[i].selector.None?
    ensures Selectors(ms[1..n]) == []
  {
    if n > 1 {
      SelectorsOfTail(ms, n - 1);
      assert ms[1..n][..n - 2] == ms[1..n - 1];
    }
  }

  /** The buttons of all messages are the sounds of all groups, in their original order. */
  lemma {:induction false} LayoutButtons(groups: seq<Group>)
    ensures AllButtons(Layout(groups)) == ButtonsOf(AllSounds(groups))
  {
    if groups != [] {
      var init := groups[..|groups| - 1];
      var last := groups[|groups| - 1];
      calc {
        AllButtons(Layout(groups));
        AllButtons(Layout(init) + GroupMessages(last));
        { AllButtonsAppend(Layout(init), GroupMessages(last)); }
        AllButtons(Layout(init)) + AllButtons(GroupMessages(last));
        { LayoutButtons(init); GroupButtons(last); }
        ButtonsOf(AllSounds(init)) + ButtonsOf(last.sounds);
        { ButtonsOfAppend(AllSounds(init), last.sounds); }
        ButtonsOf(AllSounds(init) + last.sounds);
      }
    }
  }

  /** The selector rows name exactly the non-empty groups, once each, in order. */
  lemma {:induction false} LayoutSelectors(groups: seq<Group>)
    ensures Selectors(Layout(groups)) == NonEmptyGroupNames(groups)
  {
    if groups != [] {
      var init := groups[..|groups| - 1];
      var last := groups[|groups| - 1];
      LayoutSelectors(init);
      SelectorsAppend(Layout(init), GroupMessages(last));
      GroupSelectors(last);
    }
  }

  /** Every message of the listing fits the platform's limits. */
  lemma {:induction false} LayoutShape(groups: seq<Group>)
    ensures forall i :: 0 <= i < |Layout(groups)| ==>
      ComponentCount(Layout(groups)[i]) <= ROWS_PER_MESSAGE &&
      |MessageButtons(Layout(groups)[i])| <= SOUNDS_PER_MESSAGE &&
      (forall r :: 0 <= r < |Layout(groups)[i].rows| ==> 0 < |Layout(groups)[i].rows[r]| <= SOUNDS_PER_ROW)
  {
    if groups != [] {
      LayoutShape(groups[..|groups| - 1]);
      GroupShape(groups[|groups| - 1]);
    }
  }

  /** The components of one message: the selector on a group's first message, then rows of buttons. */
  method BuildMessage(group: string, messageIndex: nat, sounds: seq<Sound>) returns (m: Message)
    ensures m == MessageOf(group, messageIndex, sounds)
  {
    ghost var rows := Chunks(sounds, SOUNDS_PER_ROW);
    var built: seq<seq<Button>> := [];
    var rest := sounds;
    while rest != []
      invariant |built| <= |rows|
      invariant Chunks(rest, SOUNDS_PER_ROW) == rows[|built|..]
      invariant forall r :: 0 <= r < |built| ==> built[r] == ButtonsOf(rows[r])
      decreases |rest|
    {
      ChunksAdvance(sounds, rest, SOUNDS_PER_ROW, |built|);
      var row := FirstChunk(rest, SOUNDS_PER_ROW);
      built := built + [ButtonsOf(row)];
      rest := rest[|row|..];
    }
    m := Message(if messageIndex == 0 then Some(group) else None, built);
  }

  /** The inner loop of `sounds`: the messages of one group, numbered as `enumerate` does. */
  method GroupLoop(group: Group) returns (messages: seq<Message>)
    ensures messages == GroupMessages(group)
  {
    ghost var parts := Chunks(group.sounds, SOUNDS_PER_MESSAGE);
    messages := [];
    var rest := group.sounds;
    var messageIndex := 0;
    while rest != []
      invariant messageIndex <= |parts|
      invariant Chunks(rest, SOUNDS_PER_MESSAGE) == parts[messageIndex..]
      invariant messages == GroupMessages(group)[..messageIndex]
      decreases |rest|
    {
      ChunksAdvance(group.sounds, rest, SOUNDS_PER_MESSAGE, messageIndex);
      var part := FirstChunk(rest, SOUNDS_PER_MESSAGE);
      var m := BuildMessage(group.name, messageIndex, part);
      assert GroupMessages(group)[..messageIndex + 1] == GroupMessages(group)[..messageIndex] + [m];
      messages := messages + [m];
      rest := rest[|part|..];
      messageIndex := messageIndex + 1;
    }
    assert GroupMessages(group)[..messageIndex] == GroupMessages(group);
  }

  /** The reply to `sounds`, given the soundboard's listing of the guild. */
  method ListSounds(groups: seq<Group>) returns (reply: SoundsReply)
    ensures groups == [] ==> reply == NoSounds
    ensures groups != [] ==> reply == Messages(Layout(groups))
  {
    if groups == [] {
      return NoSounds;
    }
    var messages: seq<Message> := [];
    var g := 0;
    while g < |groups|
      invariant 0 <= g <= |groups|
      invariant messages == Layout(groups[..g])
    {
      var sent := GroupLoop(groups[g]);
      assert groups[..g + 1][..g] == groups[..g];
      messages := messages + sent;
      g := g + 1;
    }
    assert groups[..|groups|] == groups;
    reply := Messages(messages);
  }
}
