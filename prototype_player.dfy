/** The prototype player (main.js) as the script runs it: `gameState`
    updated in place by the handlers. Each method is proved to leave the
    object in the state the matching `Prototype` function describes. */
module PrototypePlayer {
  import opened Common
  import P = Prototype

  class Session {
    /** `STORY.nodes`, loaded before the game starts. */
    const nodes: P.Nodes

    var currentEpisode: P.Target
    var currentPromptIndex: Option<nat>
    var timeLimit: int
    var timeRemaining: int
    /** The interval set by `startLifeTimer` has not been cleared. */
    var ticking: bool
    /** What `storyWrap` holds. */
    var screen: P.Screen

    function Snapshot(): P.State
      reads this
    {
      P.State(currentEpisode, currentPromptIndex, P.Timer(timeLimit, timeRemaining, ticking), screen)
    }

    constructor (nodes: P.Nodes)
      ensures this.nodes == nodes
      ensures Snapshot() == P.Initial()
    {
      this.nodes := nodes;
      currentEpisode := P.Undefined;
      currentPromptIndex := None;
      timeLimit, timeRemaining := 0, 0;
      ticking := false;
      screen := P.Title;
    }

    /** `startLifeTimer`, with `u` the draw of `Math.random()`. */
    method StartLifeTimer(u: real)
      requires IsRandom(u)
      modifies this
      ensures Snapshot() == P.StartLifeTimer(old(Snapshot()), u)
    {
      timeLimit := TimeLimit(u);
      timeRemaining := timeLimit;
      ticking := true;
    }

    /** The interval callback of `startLifeTimer`. */
    method Tick()
      requires ticking
      modifies this
      ensures Snapshot() == P.Tick(old(Snapshot()), nodes)
    {
      timeRemaining := timeRemaining - 1;
      if timeRemaining <= 0 {
        ticking := false;
        GoToEpisode(P.Id(P.END_EPISODE));
      }
    }

    /** `goToEpisode`. */
    method GoToEpisode(epId: P.Target)
      modifies this
      ensures Snapshot() == P.GoToEpisode(old(Snapshot()), nodes, epId)
    {
      currentEpisode := epId;
      currentPromptIndex := Some(0);
      RenderEpisode(epId);
    }

    /** `renderEpisode`. */
    method RenderEpisode(epId: P.Target)
      modifies this
      ensures Snapshot() == P.RenderEpisode(old(Snapshot()), nodes, epId)
    {
      var key := P.KeyOf(epId);
      if key !in nodes {
        return;
      }
      var node := nodes[key];
      screen := P.Blank;
      RenderPrompt(node, 0);
    }

    /** `renderPrompt`. */
    method RenderPrompt(node: P.Node, index: nat)
      modifies this
      ensures Snapshot() == P.RenderPrompt(old(Snapshot()), node, index)
    {
      if index >= |node.prompts| {
        return;
      }
      screen := P.Showing(node, index, P.ButtonsFor(node, index));
    }

    /** `nextLine`. */
    method NextLine(node: P.Node, index: nat)
      modifies this
      ensures Snapshot() == P.NextLine(old(Snapshot()), nodes, node, index)
    {
      var nextIndex := index + 1;
      if nextIndex < |node.prompts| {
        RenderPrompt(node, nextIndex);
      } else {
        GoToEpisode(node.next);
      }
    }

    /** The handler of the "next" button. */
    method ClickNext()
      requires screen.Showing? && screen.offer == P.NextButton
      modifies this
      ensures Snapshot() == P.ClickNext(old(Snapshot()), nodes)
    {
      NextLine(screen.node, screen.index);
    }

    /** The handler of choice button `k`. */
    method ClickChoice(k: nat)
      requires screen.Showing? && screen.offer.ChoiceButtons? && k < |screen.offer.choices|
      modifies this
      ensures Snapshot() == P.ClickChoice(old(Snapshot()), nodes, k)
    {
      GoToEpisode(screen.offer.choices[k].next);
    }
  }
}
