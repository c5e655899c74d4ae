/** The current player (js/app/main.js) as the script runs it: one object
    whose fields the handlers update in place. Each method does what the
    script's function of the same name does, with drawing, sound and
    scheduling stripped, and is proved to leave the object in the state the
    matching `Traversal` function describes. */
module Player {
  import opened Common
  import opened Story
  import T = Traversal

  class Session {
    /** `STORY.node_dict`, loaded before the game starts. */
    const story: StoryMap

    var currentEpisode: Option<string>
    var readTextCnt: int
    var choiceMomentCnt: int
    var choiceOptionCnt: int
    var timeLimit: int
    var timeRemaining: int
    /** `timerInterval` holds a handle (is not null). */
    var timerInterval: bool
    /** The interval behind that handle has not been cleared. */
    var ticking: bool
    /** What is drawn in the story area and the button area. */
    var screen: T.Screen
    /** Links of clicked choices whose 400 ms delay is still running. */
    var pending: seq<NextIds>

    /** The object's state as a value. */
    function Snapshot(): T.State
      reads this
    {
      T.State(currentEpisode,
        Stats(readTextCnt, choiceMomentCnt, choiceOptionCnt),
        T.Timer(timeLimit, timeRemaining, timerInterval, ticking),
        screen, pending)
    }

    ghost predicate Valid()
      reads this
    {
      StoryOk(story) && T.Consistent(Snapshot())
    }

    constructor (story: StoryMap)
      requires StoryOk(story)
      ensures Valid() && this.story == story
      ensures Snapshot() == T.Initial()
    {
      this.story := story;
      currentEpisode := Some(T.START_NODE_ID);
      readTextCnt, choiceMomentCnt, choiceOptionCnt := 0, 0, 0;
      timeLimit, timeRemaining := 0, 0;
      timerInterval, ticking := false, false;
      screen := T.Title;
      pending := [];
    }

    /** `startLifeTimer`, with `u` the draw of `Math.random()`. */
    method StartLifeTimer(u: real)
      requires Valid() && IsRandom(u)
      modifies this
      ensures Valid()
      ensures Snapshot() == T.StartLifeTimer(old(Snapshot()), u)
    {
      timeLimit := TimeLimit(u);
      timeRemaining := timeLimit;
      timerInterval := true;
      ticking := true;
    }

    /** The interval callback of `startLifeTimer`. */
    method Tick()
      requires Valid() && ticking
      modifies this
      ensures Valid()
      ensures Snapshot() == T.Tick(old(Snapshot()), story)
    {
      timeRemaining := timeRemaining - 1;
      if timeRemaining <= 0 {
        ticking := false;
        RunNode(Str(END_NODE_ID), 0.0);
      }
    }

    /** `pauseLifeTimer`. */
    method PauseLifeTimer()
      requires Valid()
      modifies this
      ensures Valid() && !timerInterval && !ticking
      ensures Snapshot() == old(Snapshot()).(timer := T.PauseLifeTimer(old(Snapshot()).timer))
    {
      if !timerInterval {
        return;
      }
      ticking := false;
      timerInterval := false;
    }

    /** `runNode`, with `u` the draw used when the link is an array. */
    method RunNode(next: NextIds, u: real)
      requires Valid() && IsRandom(u)
      modifies this
      ensures Valid()
      ensures Snapshot() == T.RunNode(old(Snapshot()), story, next, u)
    {
      var id := Resolve(next, u);
      currentEpisode := id;
      RenderNode(id);
    }

    /** `renderNode`. */
    method RenderNode(id: Option<string>)
      requires Valid()
      modifies this
      ensures Valid()
      ensures Snapshot() == T.RenderNode(old(Snapshot()), story, id)
    {
      var key := KeyOf(id);
      var node: Node;
      if key in story {
        node := story[key];
      } else {
        PauseLifeTimer();
        node := story[CLEAR_NODE_ID];
      }
      RenderMsg(node, 0);
    }

    /** `renderMsg`: the message replaces the screen; its text is drawn and
        `afterTextRender` follows unless its type is unknown. */
    method RenderMsg(node: Node, idx: nat)
      requires Valid() && idx < |node.msgs|
      modifies this
      ensures Valid()
      ensures Snapshot() == T.RenderMsg(old(Snapshot()), node, idx)
    {
      screen := T.Showing(node, idx, NoButtons);
      if node.msgs[idx].tp != OtherMsg {
        AfterTextRender(node, idx);
      }
    }

    /** `afterTextRender`. */
    method AfterTextRender(node: Node, idx: nat)
      requires Valid() && idx < |node.msgs|
      modifies this
      ensures Valid()
      ensures Snapshot() == T.AfterTextRender(old(Snapshot()), node, idx)
    {
      var isLastMsg := idx == |node.msgs| - 1;
      if node.id != CLEAR_NODE_ID {
        screen := T.Showing(node, idx, ButtonsFor(node, idx));
        if isLastMsg {
          ApplyPlayStats(node);
        }
      } else {
        screen := T.Showing(node, idx, RestartButton);
      }
    }

    /** `_applyPlayStats`. */
    method ApplyPlayStats(node: Node)
      requires Valid()
      modifies this
      ensures Valid()
      ensures Snapshot() == old(Snapshot()).(stats := PlayStats(old(Snapshot()).stats, node))
    {
      if node.txtCnt.Some? && node.txtCnt.value != 0 {
        readTextCnt := readTextCnt + node.txtCnt.value;
      }
      if node.tp == ChoiceNode {
        choiceMomentCnt := choiceMomentCnt + 1;
        choiceOptionCnt := choiceOptionCnt + |node.choices|;
      }
    }

    /** `nextLine`. */
    method NextLine(node: Node, startIdx: nat, u: real)
      requires Valid() && IsRandom(u)
      modifies this
      ensures Valid()
      ensures Snapshot() == T.NextLine(old(Snapshot()), story, node, startIdx, u)
    {
      var nextIdx := startIdx + 1;
      if nextIdx < |node.msgs| {
        RenderMsg(node, nextIdx);
      } else {
        RunNode(node.next, u);
      }
    }

    /** The handler of the "next" button. */
    method ClickNext(u: real)
      requires Valid() && IsRandom(u)
      requires screen.Showing? && screen.offer == NextButton
      modifies this
      ensures Valid()
      ensures Snapshot() == T.ClickNext(old(Snapshot()), story, u)
    {
      NextLine(screen.node, screen.idx, u);
    }

    /** The handler of choice button `k`. */
    method ClickChoice(k: nat)
      requires Valid()
      requires screen.Showing? && screen.offer.ChoiceButtons? && k < |screen.offer.choices|
      modifies this
      ensures Valid()
      ensures Snapshot() == T.ClickChoice(old(Snapshot()), k)
    {
      if screen.offer.locked {
        return;
      }
      var choice := screen.offer.choices[k];
      screen := screen.(offer := screen.offer.(locked := true));
      pending := pending + [choice.next];
    }

    /** The 400 ms timeout of the oldest clicked choice fires. */
    method ChoiceDelayElapsed(u: real)
      requires Valid() && IsRandom(u) && |pending| > 0
      modifies this
      ensures Valid()
      ensures Snapshot() == T.ChoiceDelayElapsed(old(Snapshot()), story, u)
    {
      var next := pending[0];
      pending := pending[1..];
      RunNode(next, u);
    }
  }
}
