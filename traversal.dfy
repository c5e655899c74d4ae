/** What the current player (js/app/main.js) does to its state, written as
    functions from the state before a step to the state after it. The class
    `Player.Session` performs the same steps in place and is proved to agree
    with these functions; the lemmas here state what a run of steps does. */
module Traversal {
  import opened Common
  import opened Story

  /** The node the start button runs. */
  const START_NODE_ID: string := "ep1"

  /** What is on screen: the title page before the game starts, then one
      message of one node and the buttons below it. */
  datatype Screen = Title | Showing(node: Node, idx: nat, offer: Offer)

  /** The survival countdown: `timeLimit`, `timeRemaining`, whether
      `timerInterval` holds a handle, and whether that interval still fires. */
  datatype Timer = Timer(limit: int, remaining: int, handleSet: bool, ticking: bool)

  /** The player's whole state. `pending` holds the links of choices that were
      clicked and whose 400 ms delay has not yet elapsed, oldest first. */
  datatype State = State(
    episode: Option<string>,
    stats: Stats,
    timer: Timer,
    screen: Screen,
    pending: seq<NextIds>)

  /** `gameStateObj` as the script declares it. */
  function Initial(): (r: State)
    ensures Consistent(r)
    ensures r.episode == Some(START_NODE_ID) && r.screen == Title && r.pending == []
    ensures r.stats == Stats(0, 0, 0) && !r.timer.handleSet && !r.timer.ticking
  {
    State(Some(START_NODE_ID), Stats(0, 0, 0), Timer(0, 0, false, false), Title, [])
  }

  /** The state invariant: a running interval always has its handle recorded
      (so `pauseLifeTimer` can stop it), and the message on screen exists. */
  predicate Consistent(st: State) {
    && (st.timer.ticking ==> st.timer.handleSet)
    && (st.screen.Showing? ==> st.screen.idx < |st.screen.node.msgs|)
  }

  /** `startLifeTimer`: draws a limit of three to five minutes, fills the
      countdown and starts the interval. */
  function StartLifeTimer(st: State, u: real): (r: State)
    requires IsRandom(u)
    ensures MIN_LIMIT <= r.timer.limit <= MAX_LIMIT && r.timer.remaining == r.timer.limit
    ensures r.timer.ticking && r.timer.handleSet
    ensures r == st.(timer := r.timer)
  {
    var limit := TimeLimit(u);
    st.(timer := Timer(limit, limit, true, true))
  }

  /** `pauseLifeTimer`: nothing when no handle is recorded; otherwise the
      interval stops and the handle is dropped. The countdown itself is kept. */
  function PauseLifeTimer(t: Timer): (r: Timer)
    ensures !r.handleSet
    ensures r.limit == t.limit && r.remaining == t.remaining
    ensures !t.handleSet ==> r == t
    ensures t.handleSet ==> !r.ticking
  {
    if !t.handleSet then t else t.(handleSet := false, ticking := false)
  }

  /** `afterTextRender`: the buttons decided by `ButtonsFor`, and the play
      statistics applied when the last message of a node other than the
      clear node has been shown. */
  function AfterTextRender(st: State, node: Node, idx: nat): (r: State)
    requires idx < |node.msgs|
    ensures r.episode == st.episode && r.timer == st.timer && r.pending == st.pending
    ensures r.screen == Showing(node, idx, ButtonsFor(node, idx))
    ensures idx == |node.msgs| - 1 && node.id != CLEAR_NODE_ID ==> r.stats == PlayStats(st.stats, node)
    ensures idx != |node.msgs| - 1 || node.id == CLEAR_NODE_ID ==> r.stats == st.stats
  {
    var shown := st.(screen := Showing(node, idx, ButtonsFor(node, idx)));
    if node.id != CLEAR_NODE_ID && idx == |node.msgs| - 1 then
      shown.(stats := PlayStats(st.stats, node))
    else
      shown
  }

  /** `renderMsg`: message `idx` replaces whatever was on screen, with no
      buttons; a message of an unknown type stops there, any other goes on to
      `afterTextRender`. */
  function RenderMsg(st: State, node: Node, idx: nat): (r: State)
    requires idx < |node.msgs|
    ensures r.episode == st.episode && r.timer == st.timer && r.pending == st.pending
    ensures r.screen.Showing? && r.screen.node == node && r.screen.idx == idx
    ensures node.msgs[idx].tp == OtherMsg ==> r.screen.offer == NoButtons && r.stats == st.stats
    ensures node.msgs[idx].tp != OtherMsg ==> r.screen.offer == ButtonsFor(node, idx)
    ensures node.msgs[idx].tp != OtherMsg && idx == |node.msgs| - 1 && node.id != CLEAR_NODE_ID ==>
      r.stats == PlayStats(st.stats, node)
    ensures r.stats != st.stats ==> idx == |node.msgs| - 1 && node.id != CLEAR_NODE_ID
  {
    var drawn := st.(screen := Showing(node, idx, NoButtons));
    if node.msgs[idx].tp == OtherMsg then drawn else AfterTextRender(drawn, node, idx)
  }

  /** `renderNode`: the node under the id is shown from its first message; an
      id with no node stops the survival timer and shows the clear node
      instead. The recorded episode is not touched. */
  function RenderNode(st: State, story: StoryMap, id: Option<string>): (r: State)
    requires StoryOk(story)
    ensures r.episode == st.episode && r.pending == st.pending
    ensures r.screen.Showing? && r.screen.idx == 0
    ensures KeyOf(id) in story ==> r.screen.node == story[KeyOf(id)] && r.timer == st.timer
    ensures KeyOf(id) !in story ==> r.screen.node == story[CLEAR_NODE_ID] && r.timer == PauseLifeTimer(st.timer)
  {
    var key := KeyOf(id);
    if key in story then RenderMsg(st, story[key], 0)
    else RenderMsg(st.(timer := PauseLifeTimer(st.timer)), story[CLEAR_NODE_ID], 0)
  }

  /** `runNode`: the link is resolved, the resolved id (possibly `null`, and
      possibly an id with no node) is recorded as the current episode, and the
      node is rendered. */
  function RunNode(st: State, story: StoryMap, next: NextIds, u: real): (r: State)
    requires StoryOk(story) && IsRandom(u)
    ensures r.episode == Resolve(next, u) && r.pending == st.pending
    ensures r.screen.Showing? && r.screen.idx == 0
    ensures r.timer == st.timer || r.timer == PauseLifeTimer(st.timer)
    ensures Consistent(st) ==> Consistent(r)
  {
    var id := Resolve(next, u);
    RenderNode(st.(episode := id), story, id)
  }

  /** `nextLine`: the next message of the same node, or, after the last one,
      the node's own `next_ids` link. */
  function NextLine(st: State, story: StoryMap, node: Node, startIdx: nat, u: real): (r: State)
    requires StoryOk(story) && IsRandom(u)
    ensures startIdx + 1 < |node.msgs| ==>
      r.screen.Showing? && r.screen.node == node && r.screen.idx == startIdx + 1 &&
      r.episode == st.episode && r.timer == st.timer
    ensures startIdx + 1 >= |node.msgs| ==>
      r.episode == Resolve(node.next, u) && r.screen.Showing? && r.screen.idx == 0
    ensures r.pending == st.pending
  {
    if startIdx + 1 < |node.msgs| then RenderMsg(st, node, startIdx + 1)
    else RunNode(st, story, node.next, u)
  }

  /** The "next" button: `nextLine` on the message it was drawn under. */
  function ClickNext(st: State, story: StoryMap, u: real): (r: State)
    requires StoryOk(story) && IsRandom(u)
    requires st.screen.Showing? && st.screen.offer == NextButton
    ensures var node, idx := st.screen.node, st.screen.idx;
      idx + 1 < |node.msgs| ==>
        r.screen.Showing? && r.screen.node == node && r.screen.idx == idx + 1 &&
        r.episode == st.episode && r.timer == st.timer
    ensures var node, idx := st.screen.node, st.screen.idx;
      idx + 1 >= |node.msgs| ==> r.episode == Resolve(node.next, u) && r.screen.Showing? && r.screen.idx == 0
    ensures r.pending == st.pending
  {
    NextLine(st, story, st.screen.node, st.screen.idx, u)
  }

  /** A click on choice `k` of the choice set on screen: ignored when the set
      is locked; otherwise the set locks and the choice's link waits for its
      delay to elapse. */
  function ClickChoice(st: State, k: nat): (r: State)
    requires st.screen.Showing? && st.screen.offer.ChoiceButtons?
    requires k < |st.screen.offer.choices|
    ensures st.screen.offer.locked ==> r == st
    ensures !st.screen.offer.locked ==>
      r.screen == st.screen.(offer := st.screen.offer.(locked := true)) &&
      r.pending == st.pending + [st.screen.offer.choices[k].next]
    ensures r.episode == st.episode && r.stats == st.stats && r.timer == st.timer
  {
    if st.screen.offer.locked then st
    else
      st.(screen := st.screen.(offer := st.screen.offer.(locked := true)),
          pending := st.pending + [st.screen.offer.choices[k].next])
  }

  /** The delay of the oldest clicked choice elapses: `runNode` on its link. */
  function ChoiceDelayElapsed(st: State, story: StoryMap, u: real): (r: State)
    requires StoryOk(story) && IsRandom(u) && |st.pending| > 0
    ensures r.episode == Resolve(st.pending[0], u) && r.pending == st.pending[1..]
  {
    RunNode(st.(pending := st.pending[1..]), story, st.pending[0], u)
  }

  /** One firing of the survival interval: one second less, and at zero or
      below the interval is cleared (its handle stays recorded) and the end
      node is run. A cleared interval never fires. */
  function Tick(st: State, story: StoryMap): (r: State)
    requires StoryOk(story)
    ensures !st.timer.ticking ==> r == st
    ensures st.timer.ticking ==> r.timer.remaining == st.timer.remaining - 1 && r.timer.limit == st.timer.limit
    ensures st.timer.ticking && st.timer.remaining > 1 ==> r == st.(timer := r.timer) && r.timer.ticking
    ensures st.timer.ticking && st.timer.remaining <= 1 ==> r.episode == Some(END_NODE_ID) && !r.timer.ticking
    ensures r.pending == st.pending
  {
    if !st.timer.ticking then st
    else
      var t := st.timer.(remaining := st.timer.remaining - 1);
      if t.remaining <= 0 then RunNode(st.(timer := t.(ticking := false)), story, Str(END_NODE_ID), 0.0)
      else st.(timer := t)
  }

  // ---------------------------------------------------------------------
  // Runs of steps
  // ---------------------------------------------------------------------

  /** Every message of the node has a type the player draws. */
  predicate Drawable(node: Node) {
    forall i :: 0 <= i < |node.msgs| ==> node.msgs[i].tp != OtherMsg
  }

  /** Pressing "next" `n` times, for as long as it is offered. */
  function ClickNextTimes(st: State, story: StoryMap, n: nat, u: real): State
    requires StoryOk(story) && IsRandom(u)
    decreases n
  {
    if n == 0 || !(st.screen.Showing? && st.screen.offer == NextButton) then st
    else ClickNextTimes(ClickNext(st, story, u), story, n - 1, u)
  }

  /** Message `i` of a drawable `lines` node that is not the clear node: the
      "next" button is offered, and the statistics have moved only if `i` is
      the last message. */
  lemma LinesMessage(st: State, node: Node, i: nat)
    requires node.tp == LinesNode && node.id != CLEAR_NODE_ID && Drawable(node)
    requires i < |node.msgs|
    ensures RenderMsg(st, node, i) ==
      st.(screen := Showing(node, i, NextButton),
          stats := if i == |node.msgs| - 1 then PlayStats(st.stats, node) else st.stats)
  {
    assert node.msgs[i].tp != OtherMsg;
  }

  /** From message `j`, `k` presses of "next" reach message `j + k` of the
      same node, as long as that message exists. */
  lemma {:induction false} StepsWithinNode(st: State, story: StoryMap, node: Node, j: nat, k: nat, u: real)
    requires StoryOk(story) && IsRandom(u)
    requires node.tp == LinesNode && node.id != CLEAR_NODE_ID && Drawable(node)
    requires j + k < |node.msgs|
    ensures ClickNextTimes(RenderMsg(st, node, j), story, k, u) == RenderMsg(st, node, j + k)
    decreases k
  {
    if k > 0 {
      var sj := RenderMsg(st, node, j);
      LinesMessage(st, node, j);
      LinesMessage(st, node, j + 1);
      LinesMessage(sj, node, j + 1);
      assert ClickNext(sj, story, u) == RenderMsg(sj, node, j + 1);
      assert RenderMsg(sj, node, j + 1) == RenderMsg(st, node, j + 1);
      StepsWithinNode(st, story, node, j + 1, k - 1, u);
    }
  }

  /** Walking through a drawable `lines` node of N messages: after entering
      it, each of the first N-1 presses of "next" stays in the node and shows
      the following message, the statistics move exactly once (by the node's
      text count, with no change to the choice counters) on reaching the last
      message, and the N-th press leaves through the node's `next_ids`. */
  lemma {:induction false} WalkThroughLinesNode(st: State, story: StoryMap, node: Node, k: nat, u: real)
    requires StoryOk(story) && IsRandom(u)
    requires node.tp == LinesNode && node.id != CLEAR_NODE_ID && Drawable(node)
    requires k < |node.msgs|
    ensures ClickNextTimes(RenderMsg(st, node, 0), story, k, u) ==
      st.(screen := Showing(node, k, NextButton),
          stats := if k == |node.msgs| - 1 then PlayStats(st.stats, node) else st.stats)
    ensures var last := RenderMsg(st, node, |node.msgs| - 1);
      ClickNextTimes(RenderMsg(st, node, 0), story, |node.msgs|, u) == RunNode(last, story, node.next, u)
  {
    var n := |node.msgs|;
    StepsWithinNode(st, story, node, 0, k, u);
    LinesMessage(st, node, k);
    StepsWithinNode(st, story, node, 0, n - 1, u);
    var last := RenderMsg(st, node, n - 1);
    LinesMessage(st, node, n - 1);
    ClickNextTimesSplit(RenderMsg(st, node, 0), story, n - 1, u);
    assert ClickNextTimes(RenderMsg(st, node, 0), story, n, u) == ClickNextTimes(last, story, 1, u);
    assert ClickNextTimes(last, story, 1, u) == ClickNext(last, story, u);
  }

  /** `n + 1` presses are `n` presses followed by one more. */
  lemma {:induction false} ClickNextTimesSplit(st: State, story: StoryMap, n: nat, u: real)
    requires StoryOk(story) && IsRandom(u)
    ensures ClickNextTimes(st, story, n + 1, u) == ClickNextTimes(ClickNextTimes(st, story, n, u), story, 1, u)
    decreases n
  {
    if n > 0 && st.screen.Showing? && st.screen.offer == NextButton {
      ClickNextTimesSplit(ClickNext(st, story, u), story, n - 1, u);
    }
  }

  /** Reaching a one-message choice node (other than the clear node) through
      a link counts one choice moment and all its options, exactly once, and
      offers its choices with the lock open. */
  lemma EnterChoiceNode(st: State, story: StoryMap, next: NextIds, u: real)
    requires StoryOk(story) && IsRandom(u)
    requires KeyOf(Resolve(next, u)) in story
    requires var node := story[KeyOf(Resolve(next, u))];
      node.tp == ChoiceNode && |node.msgs| == 1 && node.msgs[0].tp != OtherMsg && node.id != CLEAR_NODE_ID
    ensures var node := story[KeyOf(Resolve(next, u))];
      var r := RunNode(st, story, next, u);
      && r.stats.choiceMoments == st.stats.choiceMoments + 1
      && r.stats.choiceOptions == st.stats.choiceOptions + |node.choices|
      && r.screen.offer == ChoiceButtons(node.choices, false)
  {
    var node := story[KeyOf(Resolve(next, u))];
    var id := Resolve(next, u);
    assert RunNode(st, story, next, u) == RenderMsg(st.(episode := id), node, 0);
  }

  /** A link that leads to no node shows the clear node, stops the survival
      timer, and still records the resolved id (possibly `null`) as the
      current episode. When the clear node carries its own id, only the
      restart button is offered and the statistics do not move. */
  lemma MissingNodeShowsClear(st: State, story: StoryMap, next: NextIds, u: real)
    requires StoryOk(story) && IsRandom(u) && Consistent(st)
    requires KeyOf(Resolve(next, u)) !in story
    requires story[CLEAR_NODE_ID].id == CLEAR_NODE_ID && story[CLEAR_NODE_ID].msgs[0].tp != OtherMsg
    ensures var r := RunNode(st, story, next, u);
      && r.episode == Resolve(next, u)
      && r.screen == Showing(story[CLEAR_NODE_ID], 0, RestartButton)
      && !r.timer.ticking && !r.timer.handleSet
      && r.stats == st.stats
  {
    var id := Resolve(next, u);
    var clear := story[CLEAR_NODE_ID];
    var paused := st.(episode := id, timer := PauseLifeTimer(st.timer));
    assert RunNode(st, story, next, u) == RenderMsg(paused, clear, 0);
  }

  /** A link that resolves to `null` (absent, empty string, empty array or a
      value of another type) is looked up under the key "null"; in a story
      without that key it ends the game on the clear node. */
  lemma NullLinkShowsClear(st: State, story: StoryMap, next: NextIds, u: real)
    requires StoryOk(story) && IsRandom(u) && Consistent(st)
    requires next.NoNext? || next.Other? || next == Str("") || next == Arr([])
    requires "null" !in story
    requires story[CLEAR_NODE_ID].id == CLEAR_NODE_ID && story[CLEAR_NODE_ID].msgs[0].tp != OtherMsg
    ensures var r := RunNode(st, story, next, u);
      && r.episode == None
      && r.screen == Showing(story[CLEAR_NODE_ID], 0, RestartButton)
      && !r.timer.ticking && !r.timer.handleSet
  {
    assert Resolve(next, u) == None;
    MissingNodeShowsClear(st, story, next, u);
  }

  /** Within one choice set on screen only the first click counts: every
      later click leaves the state as the first click left it. */
  lemma ChoiceLockedAfterFirstClick(st: State, k1: nat, k2: nat)
    requires st.screen.Showing? && st.screen.offer.ChoiceButtons? && !st.screen.offer.locked
    requires k1 < |st.screen.offer.choices| && k2 < |st.screen.offer.choices|
    ensures var s1 := ClickChoice(st, k1);
      && s1.pending == st.pending + [st.screen.offer.choices[k1].next]
      && ClickChoice(s1, k2) == s1
  {
  }

  /** `n` firings of the survival interval. */
  function Ticks(st: State, story: StoryMap, n: nat): State
    requires StoryOk(story)
    decreases n
  {
    if n == 0 then st else Ticks(Tick(st, story), story, n - 1)
  }

  /** While more than `n` seconds remain, `n` firings only count down. */
  lemma {:induction false} CountdownRuns(st: State, story: StoryMap, n: nat)
    requires StoryOk(story) && st.timer.ticking && n < st.timer.remaining
    ensures Ticks(st, story, n) == st.(timer := st.timer.(remaining := st.timer.remaining - n))
    decreases n
  {
    if n > 0 {
      var s1 := Tick(st, story);
      assert s1 == st.(timer := st.timer.(remaining := st.timer.remaining - 1));
      CountdownRuns(s1, story, n - 1);
    }
  }

  /** The survival countdown: after the start, the game runs untouched for
      `limit - 1` seconds; the `limit`-th firing clears the interval and runs
      the end node, and no firing happens after it. */
  lemma {:induction false} SurvivalCountdown(st: State, story: StoryMap, u: real)
    requires StoryOk(story) && IsRandom(u)
    ensures var s0 := StartLifeTimer(st, u);
      var limit := s0.timer.limit;
      && MIN_LIMIT <= limit <= MAX_LIMIT
      && Ticks(s0, story, limit - 1) == s0.(timer := s0.timer.(remaining := 1))
      && Ticks(s0, story, limit) ==
         RunNode(st.(timer := Timer(limit, 0, true, false)), story, Str(END_NODE_ID), 0.0)
      && Ticks(s0, story, limit).episode == Some(END_NODE_ID)
      && !Ticks(s0, story, limit).timer.ticking
  {
    var s0 := StartLifeTimer(st, u);
    var limit := s0.timer.limit;
    CountdownRuns(s0, story, limit - 1);
    var s1 := Ticks(s0, story, limit - 1);
    TicksSplit(s0, story, limit - 1);
    assert Ticks(s0, story, limit) == Tick(s1, story);
  }

  /** `n + 1` firings are `n` firings followed by one more. */
  lemma {:induction false} TicksSplit(st: State, story: StoryMap, n: nat)
    requires StoryOk(story)
    ensures Ticks(st, story, n + 1) == Tick(Ticks(st, story, n), story)
    decreases n
  {
    if n > 0 {
      TicksSplit(Tick(st, story), story, n - 1);
    }
  }

  /** The expiry of the countdown does not cancel a choice already clicked:
      the end node is shown, and when the choice's delay elapses its link is
      still run, taking the player away from the end node. */
  lemma ExpiryKeepsPendingChoice(st: State, story: StoryMap, u: real)
    requires StoryOk(story) && IsRandom(u)
    requires st.timer.ticking && st.timer.remaining <= 1 && |st.pending| > 0
    ensures var s1 := Tick(st, story);
      && s1.episode == Some(END_NODE_ID)
      && s1.pending == st.pending
      && ChoiceDelayElapsed(s1, story, u).episode == Resolve(st.pending[0], u)
  {
  }

  /** Only a link that leads to no node stops the countdown: a link that
      names the clear node itself shows it with the timer still running. */
  lemma ClearByNameKeepsTimer(st: State, story: StoryMap, next: NextIds, u: real)
    requires StoryOk(story) && IsRandom(u)
    requires Resolve(next, u) == Some(CLEAR_NODE_ID)
    ensures var r := RunNode(st, story, next, u);
      r.screen.node == story[CLEAR_NODE_ID] && r.timer == st.timer
  {
    assert KeyOf(Some(CLEAR_NODE_ID)) in story;
  }
}
