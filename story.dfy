/** The story graph of the current player (js/app/main.js) and the pure
    decisions the player takes on it: how a `next_ids` link resolves to a node
    id, which buttons follow a message, and how the play statistics grow. */
module Story {
  import opened Common

  /** The id of the node forced when the survival time runs out. */
  const END_NODE_ID: string := "ep_end"
  /** The id of the node shown when a link leads nowhere. */
  const CLEAR_NODE_ID: string := "ep_clear"

  /** `node_tp`: a node is a run of lines, a decision point, or carries a tag
      the player does not recognise. */
  datatype NodeType = LinesNode | ChoiceNode | OtherNode

  /** `msg_tp`: how a message is drawn. Any other tag (or none) is `OtherMsg`. */
  datatype MsgType = NormalMsg | SystemMsg | EffectMsg | OtherMsg

  /** One message of a node (`msg_list` entry); images, sounds and delays are
      presentation only. */
  datatype Message = Message(tp: MsgType, text: string)

  /** The shapes a `next_ids` value takes in the story data: absent or null,
      a string, an array of ids, or any other value. */
  datatype NextIds = NoNext | Str(s: string) | Arr(ids: seq<string>) | Other

  /** A choice button: its text (`msg_tx`) and where it leads. */
  datatype Choice = Choice(text: string, next: NextIds)

  /** A node of `node_dict`. `txtCnt` is the node's total text count, a
      numeric string being taken at its numeric value. */
  datatype Node = Node(
    id: string,
    tp: NodeType,
    msgs: seq<Message>,
    choices: seq<Choice>,
    next: NextIds,
    txtCnt: Option<int>)

  type StoryMap = map<string, Node>

  /** What the player can rely on in the loaded story: the clear node exists
      and every node has a first message to render. */
  predicate StoryOk(story: StoryMap) {
    && CLEAR_NODE_ID in story
    && forall k :: k in story ==> |story[k].msgs| > 0
  }

  /** Link resolution of `runNode`. `None` is JavaScript's `null`. A falsy
      value (absent, null, the empty string) or an empty array gives `null`;
      a non-empty array gives the element at `floor(u * length)`; any other
      string is used as it is; any other value gives `null`. */
  function Resolve(next: NextIds, u: real): (id: Option<string>)
    requires IsRandom(u)
    ensures next.NoNext? || next.Other? ==> id == None
    ensures next.Str? ==> (id == None <==> next.s == "") && (id.Some? ==> id.value == next.s)
    ensures next.Arr? ==> (id == None <==> next.ids == []) && (id.Some? ==> id.value in next.ids)
  {
    match next
    case NoNext => None
    case Arr(ids) =>
      if |ids| == 0 then None else Some(ids[RandomIndex(u, |ids|)])
    case Str(s) => if s == "" then None else Some(s)
    case Other => None
  }

  /** Every element of a non-empty array link is a possible destination. */
  lemma {:induction false} ResolveReachesEvery(ids: seq<string>, i: nat)
    requires i < |ids|
    ensures var u := i as real / |ids| as real;
      IsRandom(u) && Resolve(Arr(ids), u) == Some(ids[i])
  {
    RandomIndexCovers(i, |ids|);
  }

  /** The key `node_dict[nodeId]` looks up: JavaScript turns a `null` key
      into the string "null". */
  function KeyOf(id: Option<string>): (key: string)
    ensures id.Some? ==> key == id.value
    ensures id.None? ==> key == "null"
  {
    match id
    case None => "null"
    case Some(s) => s
  }

  /** The buttons below a message. The lock of a choice set starts open. */
  datatype Offer = NoButtons | NextButton | ChoiceButtons(choices: seq<Choice>, locked: bool) | RestartButton

  /** The decision at the end of `afterTextRender`: the clear node offers only
      the restart button; otherwise a `lines` node offers "next" on every
      message and a `choice` node offers its choices on its last message. */
  function ButtonsFor(node: Node, idx: nat): (offer: Offer)
    ensures node.id == CLEAR_NODE_ID <==> offer == RestartButton
    ensures node.id != CLEAR_NODE_ID && node.tp == LinesNode ==> offer == NextButton
    ensures node.id != CLEAR_NODE_ID && node.tp == ChoiceNode ==>
      (offer.ChoiceButtons? <==> idx == |node.msgs| - 1) &&
      (offer.ChoiceButtons? ==> offer == ChoiceButtons(node.choices, false)) &&
      (!offer.ChoiceButtons? ==> offer == NoButtons)
    ensures node.tp == OtherNode ==> offer in {NoButtons, RestartButton}
  {
    if node.id != CLEAR_NODE_ID then
      if node.tp == LinesNode then NextButton
      else if node.tp == ChoiceNode && idx == |node.msgs| - 1 then ChoiceButtons(node.choices, false)
      else NoButtons
    else RestartButton
  }

  /** The three play statistics of `gameStateObj`. */
  datatype Stats = Stats(readText: int, choiceMoments: int, choiceOptions: int)

  /** The text count a node adds: its `txt_cnt` when that is present and not
      zero, nothing otherwise. */
  function TextCount(node: Node): (n: int)
    ensures node.txtCnt == None ==> n == 0
    ensures node.txtCnt.Some? ==> n == node.txtCnt.value
  {
    if node.txtCnt.Some? && node.txtCnt.value != 0 then node.txtCnt.value else 0
  }

  /** `_applyPlayStats`: the read-text count grows by the node's text count; a
      choice node adds one choice moment and as many options as it has
      choices; any other node leaves the choice counters alone. */
  function PlayStats(s: Stats, node: Node): (r: Stats)
    ensures r.readText - s.readText == TextCount(node)
    ensures node.tp == ChoiceNode ==>
      r.choiceMoments == s.choiceMoments + 1 && r.choiceOptions == s.choiceOptions + |node.choices|
    ensures node.tp != ChoiceNode ==>
      r.choiceMoments == s.choiceMoments && r.choiceOptions == s.choiceOptions
  {
    var read := if node.txtCnt.Some? && node.txtCnt.value != 0
      then s.readText + node.txtCnt.value else s.readText;
    if node.tp == ChoiceNode then
      Stats(read, s.choiceMoments + 1, s.choiceOptions + |node.choices|)
    else
      Stats(read, s.choiceMoments, s.choiceOptions)
  }

  /** With no negative text counts in the story, no counter ever decreases. */
  predicate StatsBelow(s: Stats, r: Stats) {
    s.readText <= r.readText && s.choiceMoments <= r.choiceMoments && s.choiceOptions <= r.choiceOptions
  }

  lemma PlayStatsMonotone(s: Stats, node: Node)
    requires node.txtCnt.Some? ==> node.txtCnt.value >= 0
    ensures StatsBelow(s, PlayStats(s, node))
  {
  }
}
