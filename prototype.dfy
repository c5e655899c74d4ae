/** The earlier prototype player (main.js), as functions from the state
    before a step to the state after it. Same skeleton as the current player,
    but a link is followed verbatim (no random branch), a missing node is
    simply not rendered (no clear node), and there is no pause. */
module Prototype {
  import opened Common

  /** The node the timeout forces. */
  const END_EPISODE: string := "ep_end"
  /** The node the start button goes to. */
  const START_EPISODE: string := "ep1"

  /** `node.type`. */
  datatype NodeType = LinesNode | ChoiceNode | OtherNode

  /** A `next` value of the story data: absent, `null`, or an episode id. */
  datatype Target = Undefined | Null | Id(name: string)

  /** One prompt: its type tag and text; images and sounds are presentation
      only. */
  datatype Prompt = Prompt(tp: string, text: string)

  datatype Choice = Choice(text: string, next: Target)

  /** A node of `STORY.nodes`. */
  datatype Node = Node(tp: NodeType, prompts: seq<Prompt>, choices: seq<Choice>, next: Target)

  type Nodes = map<string, Node>

  /** The key `STORY.nodes[epId]` looks up: JavaScript turns `undefined` and
      `null` keys into the strings "undefined" and "null". */
  function KeyOf(t: Target): (key: string)
    ensures t.Id? ==> key == t.name
    ensures t.Undefined? ==> key == "undefined"
    ensures t.Null? ==> key == "null"
  {
    match t
    case Undefined => "undefined"
    case Null => "null"
    case Id(name) => name
  }

  /** The buttons appended after a prompt. */
  datatype Offer = NoButtons | NextButton | ChoiceButtons(choices: seq<Choice>)

  /** What `storyWrap` holds: the start screen, nothing (just cleared by
      `renderEpisode`), or one prompt of one node with its buttons. */
  datatype Screen = Title | Blank | Showing(node: Node, index: nat, offer: Offer)

  /** `timeLimit`, `timeRemaining`, and whether the interval still fires. */
  datatype Timer = Timer(limit: int, remaining: int, ticking: bool)

  /** `gameState`, with `currentEpisode` and `currentPromptIndex` absent
      until the first `goToEpisode`. */
  datatype State = State(episode: Target, promptIndex: Option<nat>, timer: Timer, screen: Screen)

  function Initial(): (r: State)
    ensures r.screen == Title && r.promptIndex == None && !r.timer.ticking
    ensures r.episode == Undefined && KeyOf(r.episode) == "undefined"
  {
    State(Undefined, None, Timer(0, 0, false), Title)
  }

  /** The button rule of `renderPrompt`: a `lines` node offers "next" on
      every prompt, a `choice` node offers its choices only on its last
      prompt, and nothing else is offered. */
  function ButtonsFor(node: Node, index: nat): (offer: Offer)
    ensures offer == NextButton <==> node.tp == LinesNode
    ensures offer.ChoiceButtons? <==> node.tp == ChoiceNode && index == |node.prompts| - 1
    ensures offer.ChoiceButtons? ==> offer.choices == node.choices
  {
    if node.tp == LinesNode then NextButton
    else if node.tp == ChoiceNode && index == |node.prompts| - 1 then ChoiceButtons(node.choices)
    else NoButtons
  }

  /** `renderPrompt`: an index past the last prompt renders nothing;
      otherwise the prompt replaces the story area, with its buttons. */
  function RenderPrompt(st: State, node: Node, index: nat): (r: State)
    ensures index >= |node.prompts| ==> r == st
    ensures index < |node.prompts| ==> r == st.(screen := Showing(node, index, ButtonsFor(node, index)))
  {
    if index >= |node.prompts| then st
    else st.(screen := Showing(node, index, ButtonsFor(node, index)))
  }

  /** `renderEpisode`: an id with no node returns before touching anything;
      otherwise the story area is cleared and the first prompt rendered. */
  function RenderEpisode(st: State, nodes: Nodes, t: Target): (r: State)
    ensures KeyOf(t) !in nodes ==> r == st
    ensures r.episode == st.episode && r.promptIndex == st.promptIndex && r.timer == st.timer
    ensures KeyOf(t) in nodes && |nodes[KeyOf(t)].prompts| > 0 ==>
      r.screen == Showing(nodes[KeyOf(t)], 0, ButtonsFor(nodes[KeyOf(t)], 0))
    ensures KeyOf(t) in nodes && |nodes[KeyOf(t)].prompts| == 0 ==> r.screen == Blank
  {
    var key := KeyOf(t);
    if key !in nodes then st
    else RenderPrompt(st.(screen := Blank), nodes[key], 0)
  }

  /** `goToEpisode`: the id is recorded as given, the prompt index reset to
      0, and the episode rendered. */
  function GoToEpisode(st: State, nodes: Nodes, t: Target): (r: State)
    ensures r.episode == t && r.promptIndex == Some(0) && r.timer == st.timer
    ensures KeyOf(t) !in nodes ==> r.screen == st.screen
  {
    RenderEpisode(st.(episode := t, promptIndex := Some(0)), nodes, t)
  }

  /** `nextLine`: the next prompt of the same node (the recorded prompt index
      is not updated), or, after the last one, the node's `next`. */
  function NextLine(st: State, nodes: Nodes, node: Node, index: nat): (r: State)
    ensures index + 1 < |node.prompts| ==>
      r == st.(screen := Showing(node, index + 1, ButtonsFor(node, index + 1)))
    ensures index + 1 >= |node.prompts| ==> r.episode == node.next && r.promptIndex == Some(0)
  {
    if index + 1 < |node.prompts| then RenderPrompt(st, node, index + 1)
    else GoToEpisode(st, nodes, node.next)
  }

  /** The "next" button: `nextLine` on the prompt it was drawn under. */
  function ClickNext(st: State, nodes: Nodes): (r: State)
    requires st.screen.Showing? && st.screen.offer == NextButton
    ensures var node, index := st.screen.node, st.screen.index;
      index + 1 < |node.prompts| ==>
        r == st.(screen := Showing(node, index + 1, ButtonsFor(node, index + 1)))
    ensures var node, index := st.screen.node, st.screen.index;
      index + 1 >= |node.prompts| ==> r.episode == node.next && r.promptIndex == Some(0)
  {
    NextLine(st, nodes, st.screen.node, st.screen.index)
  }

  /** A choice button: `goToEpisode(choice.next)`, the target taken verbatim
      with no random resolution and no lock. */
  function ClickChoice(st: State, nodes: Nodes, k: nat): (r: State)
    requires st.screen.Showing? && st.screen.offer.ChoiceButtons?
    requires k < |st.screen.offer.choices|
    ensures r.episode == st.screen.offer.choices[k].next && r.promptIndex == Some(0)
  {
    GoToEpisode(st, nodes, st.screen.offer.choices[k].next)
  }

  /** `startLifeTimer`. */
  function StartLifeTimer(st: State, u: real): (r: State)
    requires IsRandom(u)
    ensures MIN_LIMIT <= r.timer.limit <= MAX_LIMIT && r.timer.remaining == r.timer.limit && r.timer.ticking
    ensures r == st.(timer := r.timer)
  {
    var limit := TimeLimit(u);
    st.(timer := Timer(limit, limit, true))
  }

  /** One firing of the interval: one second less, and at zero or below the
      interval is cleared and the game goes to `ep_end`. */
  function Tick(st: State, nodes: Nodes): (r: State)
    ensures !st.timer.ticking ==> r == st
    ensures st.timer.ticking ==> r.timer.remaining == st.timer.remaining - 1 && r.timer.limit == st.timer.limit
    ensures st.timer.ticking && st.timer.remaining > 1 ==> r == st.(timer := r.timer) && r.timer.ticking
    ensures st.timer.ticking && st.timer.remaining <= 1 ==> r.episode == Id(END_EPISODE) && !r.timer.ticking
  {
    if !st.timer.ticking then st
    else
      var t := st.timer.(remaining := st.timer.remaining - 1);
      if t.remaining <= 0 then GoToEpisode(st.(timer := t.(ticking := false)), nodes, Id(END_EPISODE))
      else st.(timer := t)
  }

  // ---------------------------------------------------------------------
  // Runs of steps
  // ---------------------------------------------------------------------

  /** Pressing "next" `n` times, for as long as it is offered. */
  function ClickNextTimes(st: State, nodes: Nodes, n: nat): State
    decreases n
  {
    if n == 0 || !(st.screen.Showing? && st.screen.offer == NextButton) then st
    else ClickNextTimes(ClickNext(st, nodes), nodes, n - 1)
  }

  /** From prompt `j` of a `lines` node, `k` presses of "next" show prompt
      `j + k` of the same node, as long as it exists; nothing else moves. */
  lemma {:induction false} StepsWithinNode(st: State, nodes: Nodes, node: Node, j: nat, k: nat)
    requires node.tp == LinesNode && j + k < |node.prompts|
    ensures ClickNextTimes(st.(screen := Showing(node, j, NextButton)), nodes, k) ==
      st.(screen := Showing(node, j + k, NextButton))
    decreases k
  {
    if k > 0 {
      var sj := st.(screen := Showing(node, j, NextButton));
      assert ClickNext(sj, nodes) == st.(screen := Showing(node, j + 1, NextButton));
      StepsWithinNode(st, nodes, node, j + 1, k - 1);
    }
  }

  /** Walking through a `lines` episode of N prompts: after `goToEpisode`,
      each of the first N-1 presses of "next" shows the following prompt of
      the same node while the recorded prompt index stays 0, and the N-th
      press goes to the node's `next`. */
  lemma {:induction false} WalkThroughEpisode(st: State, nodes: Nodes, id: string, k: nat)
    requires id in nodes && nodes[id].tp == LinesNode && k < |nodes[id].prompts|
    ensures var s0 := GoToEpisode(st, nodes, Id(id));
      var node := nodes[id];
      && ClickNextTimes(s0, nodes, k) == s0.(screen := Showing(node, k, NextButton))
      && ClickNextTimes(s0, nodes, k).promptIndex == Some(0)
      && ClickNextTimes(s0, nodes, |node.prompts|) ==
         GoToEpisode(s0.(screen := Showing(node, |node.prompts| - 1, NextButton)), nodes, node.next)
  {
    var node := nodes[id];
    var n := |node.prompts|;
    var s0 := GoToEpisode(st, nodes, Id(id));
    assert s0 == s0.(screen := Showing(node, 0, NextButton));
    StepsWithinNode(s0, nodes, node, 0, k);
    StepsWithinNode(s0, nodes, node, 0, n - 1);
    ClickNextTimesSplit(s0, nodes, n - 1);
    var last := s0.(screen := Showing(node, n - 1, NextButton));
    assert ClickNextTimes(last, nodes, 1) == ClickNext(last, nodes);
  }

  /** `n + 1` presses are `n` presses followed by one more. */
  lemma {:induction false} ClickNextTimesSplit(st: State, nodes: Nodes, n: nat)
    ensures ClickNextTimes(st, nodes, n + 1) == ClickNextTimes(ClickNextTimes(st, nodes, n), nodes, 1)
    decreases n
  {
    if n > 0 && st.screen.Showing? && st.screen.offer == NextButton {
      ClickNextTimesSplit(ClickNext(st, nodes), nodes, n - 1);
    }
  }

  /** With no clear-node fallback, a `next` that names no node leaves the
      last prompt and its "next" button on screen: pressing it again only
      records the same missing id again, so the game is stuck there. */
  lemma MissingNextIsStuck(st: State, nodes: Nodes)
    requires st.screen.Showing? && st.screen.offer == NextButton
    requires st.screen.index + 1 >= |st.screen.node.prompts|
    requires KeyOf(st.screen.node.next) !in nodes
    ensures var s1 := ClickNext(st, nodes);
      && s1 == st.(episode := st.screen.node.next, promptIndex := Some(0))
      && ClickNext(s1, nodes) == s1
  {
  }

  /** `n` firings of the interval. */
  function Ticks(st: State, nodes: Nodes, n: nat): State
    decreases n
  {
    if n == 0 then st else Ticks(Tick(st, nodes), nodes, n - 1)
  }

  /** While more than `n` seconds remain, `n` firings only count down. */
  lemma {:induction false} CountdownRuns(st: State, nodes: Nodes, n: nat)
    requires st.timer.ticking && n < st.timer.remaining
    ensures Ticks(st, nodes, n) == st.(timer := st.timer.(remaining := st.timer.remaining - n))
    decreases n
  {
    if n > 0 {
      var s1 := Tick(st, nodes);
      assert s1 == st.(timer := st.timer.(remaining := st.timer.remaining - 1));
      CountdownRuns(s1, nodes, n - 1);
    }
  }

  /** `n + 1` firings are `n` firings followed by one more. */
  lemma {:induction false} TicksSplit(st: State, nodes: Nodes, n: nat)
    ensures Ticks(st, nodes, n + 1) == Tick(Ticks(st, nodes, n), nodes)
    decreases n
  {
    if n > 0 {
      TicksSplit(Tick(st, nodes), nodes, n - 1);
    }
  }

  /** The countdown: after the start the game runs untouched for `limit - 1`
      seconds; the `limit`-th firing clears the interval and goes to
      `ep_end`. */
  lemma {:induction false} SurvivalCountdown(st: State, nodes: Nodes, u: real)
    requires IsRandom(u)
    ensures var s0 := StartLifeTimer(st, u);
      var limit := s0.timer.limit;
      && MIN_LIMIT <= limit <= MAX_LIMIT
      && Ticks(s0, nodes, limit - 1) == s0.(timer := s0.timer.(remaining := 1))
      && Ticks(s0, nodes, limit) == GoToEpisode(st.(timer := Timer(limit, 0, false)), nodes, Id(END_EPISODE))
  {
    var s0 := StartLifeTimer(st, u);
    var limit := s0.timer.limit;
    CountdownRuns(s0, nodes, limit - 1);
    TicksSplit(s0, nodes, limit - 1);
  }
}
