/**
 The component as a whole: the events the page can deliver, one step per event, runs
 of events from the initial state, the invariant every run keeps, and concrete
 sessions from the component's behaviour.
 */
module Console {
  import opened Wrappers
  import opened Strings
  import opened Catalog
  import opened Session
  import opened Interpreter

  /** What can happen to the component: typing, the buttons, and the timer. */
  datatype Event =
    | TypeCommand(text: string)
    | PressExecute
    | PressAutomation(id: string)
    | TypeFeedback(text: string)
    | PressSubmitFeedback
    | PressCancel
    | PressGame(name: string)
    | PressConnect
    | TimerElapsed

  /** The page only offers catalog games and catalog automations. */
  predicate WellFormed(e: Event) {
    && (e.PressAutomation? ==> IsFeatureId(e.id))
    && (e.PressGame? ==> IsGameName(e.name))
  }

  function Step(s: State, e: Event): State {
    match e
    case TypeCommand(text) => EditCommand(s, text)
    case PressExecute => SubmitCommand(s)
    case PressAutomation(id) => ToggleAutomation(s, id)
    case TypeFeedback(text) => EditFeedback(s, text)
    case PressSubmitFeedback => SubmitFeedback(s)
    case PressCancel => CancelFeedback(s)
    case PressGame(name) => SelectGame(s, name)
    case PressConnect => ConnectButton(s)
    case TimerElapsed => TimerFires(s)
  }

  /** The state after the events `es`, in order. */
  function Run(s: State, es: seq<Event>): State
    decreases |es|
  {
    if es == [] then s else Run(Step(s, es[0]), es[1..])
  }

  /** `b` is `a` with zero or more lines appended. */
  predicate Extends(a: seq<string>, b: seq<string>) {
    |b| >= |a| && b[..|a|] == a
  }

  lemma ExecuteAppendOnly(s: State)
    ensures Extends(s.output, Step(s, PressExecute).output)
  {
    var n := |s.output|;
    var r := SubmitCommand(s);
    assert Step(s, PressExecute) == r;
    if !IsBlank(s.command) {
      assert r.output[..n] == r.output[..n + 1][..n];
    }
  }

  lemma AutomationAppendOnly(s: State, id: string)
    ensures Extends(s.output, Step(s, PressAutomation(id)).output)
  {
    assert Step(s, PressAutomation(id)).output[..|s.output|] == s.output;
  }

  lemma SubmitFeedbackAppendOnly(s: State)
    ensures Extends(s.output, Step(s, PressSubmitFeedback).output)
  {
    assert Step(s, PressSubmitFeedback).output[..|s.output|] == s.output;
  }

  lemma ConnectAppendOnly(s: State)
    ensures Extends(s.output, Step(s, PressConnect).output)
  {
    assert Step(s, PressConnect).output[..|s.output|] == s.output;
  }

  lemma TimerAppendOnly(s: State)
    ensures Extends(s.output, Step(s, TimerElapsed).output)
  {
    assert Step(s, TimerElapsed).output[..|s.output|] == s.output;
  }

  /** No event edits or removes a transcript line; at most it appends. */
  lemma StepAppendOnly(s: State, e: Event)
    ensures Extends(s.output, Step(s, e).output)
  {
    match e
    case PressExecute => ExecuteAppendOnly(s);
    case PressAutomation(id) => AutomationAppendOnly(s, id);
    case PressSubmitFeedback => SubmitFeedbackAppendOnly(s);
    case PressConnect => ConnectAppendOnly(s);
    case TimerElapsed => TimerAppendOnly(s);
    case TypeCommand(text) => assert Step(s, e).output == s.output;
    case TypeFeedback(text) => assert Step(s, e).output == s.output;
    case PressCancel => assert Step(s, e).output == s.output;
    case PressGame(name) => assert Step(s, e).output == s.output;
  }

  /** The transcript is append-only over any run: earlier lines are never edited or
      removed. */
  lemma {:induction false} RunAppendOnly(s: State, es: seq<Event>)
    ensures Extends(s.output, Run(s, es).output)
    decreases |es|
  {
    if es != [] {
      var t := Step(s, es[0]);
      StepAppendOnly(s, es[0]);
      RunAppendOnly(t, es[1..]);
      assert Run(s, es).output[..|t.output|] == t.output;
      assert t.output[..|s.output|] == s.output;
    }
  }

  /** What holds of every reachable state:
      - the selection is empty or a catalog game, and a scheduled completion is always
        for the current selection (a new selection cancels the old one);
      - the status reads "Disconnected", "Connecting..." or "Connected to" the
        selected game, and "Disconnected" is only shown while not connected, any
        "Connected to" only while connected;
      - active automations are catalog ids, each listed once. */
  ghost predicate Inv(s: State) {
    && (s.selectedGame == "" || IsGameName(s.selectedGame))
    && (s.pending.Some? ==> s.pending.value == s.selectedGame && s.selectedGame != "")
    && (|| s.status == Disconnected
        || s.status == Connecting
        || (s.selectedGame != "" && s.status == ConnectedTo(s.selectedGame)))
    && (s.status == Disconnected ==> !s.connected)
    && (s.status != Disconnected && s.status != Connecting ==> s.connected)
    && (forall x :: x in s.active ==> IsFeatureId(x))
    && NoDuplicates(s.active)
  }

  lemma InitialInv()
    ensures Inv(Initial)
  {
  }

  lemma ToggleKeepsInv(s: State, id: string)
    requires Inv(s) && IsFeatureId(id)
    ensures Inv(ToggleAutomation(s, id))
  {
  }

  lemma SelectKeepsInv(s: State, name: string)
    requires Inv(s) && IsGameName(name)
    ensures Inv(SelectGame(s, name))
  {
  }

  /** The invariant only looks at the connection fields and the automations. */
  lemma SameSessionKeepsInv(s: State, r: State)
    requires Inv(s)
    requires r.selectedGame == s.selectedGame && r.pending == s.pending && r.status == s.status
    requires r.connected == s.connected && r.active == s.active
    ensures Inv(r)
  {
  }

  lemma SubmitToggleKeepsInv(s: State)
    requires Inv(s) && !IsBlank(s.command) && IsToggle(Classify(Lower(s.command)))
    ensures Inv(SubmitCommand(s))
  {
    var id := FeatureOf(Classify(Lower(s.command))).id;
    var t := ToggleAutomation(s, id);
    SubmitCommandToggle(s);
    assert IsFeatureId(id);
    ToggleKeepsInv(s, id);
    SameSessionKeepsInv(t, SubmitCommand(s));
  }

  lemma SubmitConnectKeepsInv(s: State)
    requires Inv(s) && !IsBlank(s.command) && Classify(Lower(s.command)) == Connect
    ensures Inv(SubmitCommand(s))
  {
    var q := ConnectQuery(Lower(s.command));
    if FindGame(q).Some? {
      var name := Games[FindGame(q).value].name;
      var t := SelectGame(s, name);
      SubmitCommandConnectHit(s);
      assert IsGameName(name);
      SelectKeepsInv(s, name);
      SameSessionKeepsInv(t, SubmitCommand(s));
    } else {
      SubmitCommandConnectMiss(s);
      SameSessionKeepsInv(s, SubmitCommand(s));
    }
  }

  lemma SubmitCommandKeepsInv(s: State)
    requires Inv(s)
    ensures Inv(SubmitCommand(s))
  {
    if !IsBlank(s.command) {
      var k := Classify(Lower(s.command));
      if IsToggle(k) {
        SubmitToggleKeepsInv(s);
      } else if k == Connect {
        SubmitConnectKeepsInv(s);
      } else {
        SubmitCommandReply(s);
        SameSessionKeepsInv(s, SubmitCommand(s));
      }
    }
  }

  /** Every well-formed event keeps the invariant. */
  lemma StepKeepsInv(s: State, e: Event)
    requires Inv(s) && WellFormed(e)
    ensures Inv(Step(s, e))
  {
    match e
    case PressExecute => SubmitCommandKeepsInv(s);
    case PressAutomation(id) => ToggleKeepsInv(s, id);
    case PressGame(name) => SelectKeepsInv(s, name);
    case _ =>
  }

  lemma {:induction false} RunKeepsInv(s: State, es: seq<Event>)
    requires Inv(s)
    requires forall i :: 0 <= i < |es| ==> WellFormed(es[i])
    ensures Inv(Run(s, es))
    decreases |es|
  {
    if es != [] {
      StepKeepsInv(s, es[0]);
      RunKeepsInv(Step(s, es[0]), es[1..]);
    }
  }

  /** The `status` command reports one of the three connection descriptions, naming
      only the selected catalog game. */
  lemma StatusReport(s: State)
    requires Inv(s) && !IsBlank(s.command) && Classify(Lower(s.command)) == Status
    ensures var line := SubmitCommand(s).output[|s.output| + 1];
      || line == "Game Status: " + Disconnected
      || line == "Game Status: " + Connecting
      || (IsGameName(s.selectedGame) && line == "Game Status: " + ConnectedTo(s.selectedGame))
  {
    SubmitCommandReply(s);
  }

  /** When the timer fires in a reachable state it connects to the selected game. */
  lemma CompletionConnectsSelected(s: State)
    requires Inv(s) && s.pending.Some?
    ensures var r := Step(s, TimerElapsed);
      && r.connected && r.status == ConnectedTo(s.selectedGame)
      && r.output == s.output + ["System: Successfully connected to " + s.selectedGame]
  {
  }

  /** Picking game `a` and then game `b` before the timer fires: the completion that
      fires connects to `b`, never to `a`, and nothing is left to fire after it. */
  lemma SupersededCompletion(s: State, a: string, b: string)
    requires Inv(s) && IsGameName(a) && IsGameName(b) && a != b
    ensures var t := Run(s, [PressGame(a), PressGame(b), TimerElapsed]);
      && t.connected && t.status == ConnectedTo(b)
      && t.output == s.output + ["System: Successfully connected to " + b]
      && t.pending == None
      && Step(t, TimerElapsed) == t
  {
    assert IsGameName(a) ==> a != "";
    assert IsGameName(b) ==> b != "";
    var s1 := Step(s, PressGame(a));
    var s2 := Step(s1, PressGame(b));
    assert s2.pending == Some(b);
    var es := [PressGame(a), PressGame(b), TimerElapsed];
    assert es[1..] == [PressGame(b), TimerElapsed];
    assert es[1..][1..] == [TimerElapsed];
    assert Run(s, es) == Run(s1, es[1..]);
    assert Run(s1, es[1..]) == Run(s2, [TimerElapsed]);
    assert Run(s2, [TimerElapsed]) == Run(Step(s2, TimerElapsed), []);
  }

  /** Switching games while connected keeps the session flagged connected while the
      status reads "Connecting...". */
  lemma SwitchWhileConnected(s: State, name: string)
    requires s.connected && name != s.selectedGame && name != ""
    ensures var r := Step(s, PressGame(name));
      r.connected && r.status == Connecting && r.pending == Some(name)
  {
  }

  /** A manual disconnect does not cancel a scheduled completion: when it fires, the
      session is connected again. */
  lemma DisconnectThenCompletion(s: State)
    requires s.connected && s.selectedGame != "" && s.pending.Some?
    ensures var d := Step(s, PressConnect);
            var r := Step(d, TimerElapsed);
      && !d.connected && d.active == [] && d.pending == s.pending
      && r.connected && r.status == ConnectedTo(s.pending.value)
  {
  }

  /** Two events in a row. */
  lemma RunTwo(s: State, a: Event, b: Event)
    ensures Run(s, [a, b]) == Step(Step(s, a), b)
  {
    var es := [a, b];
    assert es[1..] == [b];
    assert Run(s, es) == Run(Step(s, a), [b]);
    assert Run(Step(s, a), [b]) == Run(Step(Step(s, a), b), []);
  }

  /** Typing a line and pressing Execute echoes exactly what was typed and clears the
      box; a blank line leaves both the box and the transcript as they were. */
  lemma TypedLineIsEchoed(s: State, text: string)
    ensures var r := Run(s, [TypeCommand(text), PressExecute]);
      && (!IsBlank(text) ==> r.command == "" && |r.output| >= |s.output| + 2
                              && r.output[|s.output|] == "> " + text)
      && (IsBlank(text) ==> r == s.(command := text))
  {
    RunTwo(s, TypeCommand(text), PressExecute);
    var t := EditCommand(s, text);
    if !IsBlank(text) {
      assert SubmitCommand(t).output[..|s.output| + 1] == s.output + ["> " + text];
      assert SubmitCommand(t).output[|s.output|] == (s.output + ["> " + text])[|s.output|];
    }
  }

  /** Typing a draft and submitting it: a non-blank draft is thanked for, cleared and
      the panel closed; a blank draft is kept and nothing else changes. */
  lemma FeedbackRoundTrip(s: State, text: string)
    ensures var r := Run(s, [TypeFeedback(text), PressSubmitFeedback]);
      && (!IsBlank(text) ==> r.output == s.output + [FeedbackThanks] && r.feedback == ""
                              && !r.showFeedback)
      && (IsBlank(text) ==> r == s.(feedback := text))
  {
    RunTwo(s, TypeFeedback(text), PressSubmitFeedback);
  }

  /** Cancel then Execute is Cancel's transition followed by the command handler. */
  lemma CancelThenExecute(s: State)
    ensures Run(s, [PressCancel, PressExecute]) == SubmitCommand(CancelFeedback(s))
  {
    RunTwo(s, PressCancel, PressExecute);
  }

  /** Cancel only hides the panel: the draft survives, and the `feedback` command
      shows it again with the same draft. */
  lemma CancelThenReopen(s: State)
    requires !IsBlank(s.command) && Classify(Lower(s.command)) == Feedback
    ensures var r := Run(s, [PressCancel, PressExecute]);
      && r.showFeedback && r.feedback == s.feedback
      && r.output == s.output + ["> " + s.command, FeedbackOpened]
  {
    CancelThenExecute(s);
    SubmitCommandReply(CancelFeedback(s));
  }
}
