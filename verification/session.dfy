/**
 The session state of the console component and the handlers that change it
 outside the command line: the automation toggle, feedback submission, game
 selection with its simulated delayed connection, and the Connect/Disconnect button.
 Every handler is one atomic transition from the current state to the next.
 */
module Session {
  import opened Wrappers
  import opened Strings

  /** Everything the component keeps in React state, plus the one timer it may hold.
      `pending` is the game whose delayed completion is scheduled, if any. */
  datatype State = State(
    command: string,
    output: seq<string>,
    active: seq<string>,
    feedback: string,
    showFeedback: bool,
    connected: bool,
    status: string,
    selectedGame: string,
    pending: Option<string>)

  /** The component as first mounted. */
  const Initial := State("", [], [], "", false, false, "Disconnected", "", None)

  const NotConnectedWarning := "Warning: Not connected to any game. Automation may not work."
  const FeedbackThanks := "Feedback submitted. Thank you!"
  const Connecting := "Connecting..."
  const Disconnected := "Disconnected"

  function ConnectedTo(game: string): string {
    "Connected to " + game
  }

  /** `xs` without duplicates. */
  predicate NoDuplicates(xs: seq<string>) {
    forall i, j :: 0 <= i < j < |xs| ==> xs[i] != xs[j]
  }

  /** `xs.filter(a => a !== id)`: every occurrence of `id` goes, everything else stays. */
  function RemoveAll(xs: seq<string>, id: string): (r: seq<string>)
    ensures id !in r
    ensures forall x :: x != id ==> multiset(r)[x] == multiset(xs)[x]
    ensures NoDuplicates(xs) ==> NoDuplicates(r)
  {
    if xs == [] then []
    else
      var rest := RemoveAll(xs[1..], id);
      assert xs == [xs[0]] + xs[1..];
      if xs[0] == id then rest
      else
        assert xs[0] !in xs[1..] ==> xs[0] !in rest by {
          if xs[0] !in xs[1..] {
            assert multiset(xs[1..])[xs[0]] == 0;
          }
        }
        [xs[0]] + rest
  }

  /** The list update of `toggleAutomation`: present ids are removed, absent ones appended. */
  function Toggle(xs: seq<string>, id: string): (r: seq<string>)
    ensures id in r <==> id !in xs
    ensures forall x :: x != id ==> (x in r <==> x in xs)
    ensures NoDuplicates(xs) ==> NoDuplicates(r)
  {
    if id in xs then
      var r := RemoveAll(xs, id);
      assert forall x :: x != id ==> (x in r <==> multiset(r)[x] > 0);
      r
    else xs + [id]
  }

  /** `toggleAutomation(id)`: flips `id`'s membership and, when no game is connected,
      appends the warning whether the id was added or removed. */
  function ToggleAutomation(s: State, id: string): (r: State)
    ensures id in r.active <==> id !in s.active
    ensures forall x :: x != id ==> (x in r.active <==> x in s.active)
    ensures r.output == s.output + (if s.connected then [] else [NotConnectedWarning])
    ensures r.(active := s.active, output := s.output) == s
  {
    var warning := if s.connected then [] else [NotConnectedWarning];
    s.(active := Toggle(s.active, id), output := s.output + warning)
  }

  /** Setting `selectedGame` and the effect it triggers: a change of selection cancels
      the scheduled completion and, for a non-empty name, shows "Connecting..." and
      schedules a new one. Selecting the current game again changes nothing. */
  function SelectGame(s: State, name: string): (r: State)
    ensures r.selectedGame == name
    ensures name == s.selectedGame ==> r == s
    ensures name != s.selectedGame && name != "" ==>
              r.pending == Some(name) && r.status == Connecting
    ensures name != s.selectedGame && name == "" ==> r.pending == None && r.status == s.status
    ensures r.(selectedGame := s.selectedGame, pending := s.pending, status := s.status) == s
  {
    if name == s.selectedGame then s
    else if name == "" then s.(selectedGame := name, pending := None)
    else s.(selectedGame := name, pending := Some(name), status := Connecting)
  }

  /** The scheduled completion firing: it connects to the game it was scheduled for and
      is then spent. With nothing scheduled the event changes nothing. */
  function TimerFires(s: State): (r: State)
    ensures s.pending.None? ==> r == s
    ensures s.pending.Some? ==> var g := s.pending.value;
              && r.connected && r.status == ConnectedTo(g)
              && r.output == s.output + ["System: Successfully connected to " + g]
    ensures r.pending == None
    ensures r.(connected := s.connected, status := s.status, output := s.output, pending := s.pending) == s
  {
    match s.pending
    case None => s
    case Some(g) =>
      s.(connected := true, status := ConnectedTo(g),
         output := s.output + ["System: Successfully connected to " + g],
         pending := None)
  }

  /** The Connect/Disconnect button. Without a selected game it does nothing; when
      connected it disconnects and drops every automation; otherwise it connects at
      once. Neither branch touches the scheduled completion. */
  function ConnectButton(s: State): (r: State)
    ensures s.selectedGame == "" ==> r == s
    ensures s.selectedGame != "" && s.connected ==>
              && !r.connected && r.status == Disconnected && r.active == []
              && r.output == s.output + ["System: Disconnected from " + s.selectedGame]
    ensures s.selectedGame != "" && !s.connected ==>
              && r.connected && r.status == ConnectedTo(s.selectedGame) && r.active == s.active
              && r.output == s.output + ["System: Connected to " + s.selectedGame]
    ensures r.pending == s.pending && r.selectedGame == s.selectedGame
    ensures r.command == s.command && r.feedback == s.feedback && r.showFeedback == s.showFeedback
  {
    if s.selectedGame == "" then s
    else if s.connected then
      s.(connected := false, status := Disconnected, active := [],
         output := s.output + ["System: Disconnected from " + s.selectedGame])
    else
      s.(connected := true, status := ConnectedTo(s.selectedGame),
         output := s.output + ["System: Connected to " + s.selectedGame])
  }

  /** The feedback form's submit: a blank draft is ignored; otherwise the thanks line is
      appended, the draft cleared and the panel closed. */
  function SubmitFeedback(s: State): (r: State)
    ensures IsBlank(s.feedback) ==> r == s
    ensures !IsBlank(s.feedback) ==>
              && r.output == s.output + [FeedbackThanks]
              && r.feedback == "" && !r.showFeedback
              && r.(output := s.output, feedback := s.feedback, showFeedback := s.showFeedback) == s
  {
    if IsBlank(s.feedback) then s
    else s.(output := s.output + [FeedbackThanks], feedback := "", showFeedback := false)
  }

  /** The feedback form's Cancel button. */
  function CancelFeedback(s: State): (r: State)
    ensures !r.showFeedback
    ensures r.(showFeedback := s.showFeedback) == s
  {
    s.(showFeedback := false)
  }

  /** Typing into the feedback text area. */
  function EditFeedback(s: State, text: string): (r: State)
    ensures r.feedback == text
    ensures r.(feedback := s.feedback) == s
  {
    s.(feedback := text)
  }

  /** Typing into the command box. */
  function EditCommand(s: State, text: string): (r: State)
    ensures r.command == text
    ensures r.(command := s.command) == s
  {
    s.(command := text)
  }

  /** Toggling the same id twice restores every id's membership and adds one warning
      per toggle made while disconnected. */
  lemma ToggleTwice(s: State, id: string)
    ensures var r := ToggleAutomation(ToggleAutomation(s, id), id);
      && (forall x :: x in r.active <==> x in s.active)
      && r.output == s.output + (if s.connected then [] else [NotConnectedWarning, NotConnectedWarning])
      && r.(active := s.active, output := s.output) == s
  {
  }

  /** A successful feedback submission leaves nothing to submit a second time. */
  lemma SubmitFeedbackOnce(s: State)
    ensures SubmitFeedback(SubmitFeedback(s)) == SubmitFeedback(s)
  {
    if !IsBlank(s.feedback) {
      assert IsBlank("");
    }
  }

  /** A completion fires at most once. */
  lemma TimerFiresOnce(s: State)
    ensures TimerFires(TimerFires(s)) == TimerFires(s)
  {
  }
}
