/**
 The console's command interpreter, `handleCommandSubmit`
 (src/components/ProGamingAgent.tsx:46-91): blank input is ignored; anything else is
 echoed, lower-cased and matched by substring against a fixed list of keywords, and
 the first keyword found decides the one response line.
 */
module Interpreter {
  import opened Wrappers
  import opened Strings
  import opened Catalog
  import opened Session

  /** The branch of the dispatch a command line takes. */
  datatype Kind = Help | Loot | Target | Heal | Farm | Feedback | Connect | Status | Unknown

  /** The branches in the order they are tried. */
  const Order: seq<Kind> := [Help, Loot, Target, Heal, Farm, Feedback, Connect, Status, Unknown]

  const HelpLine := "Available commands: help, loot, target, heal, farm, feedback, connect, status"
  const UnknownLine := "Command not recognized. Type \"help\" for available commands."
  const FeedbackOpened := "Opening feedback form"

  /** Whether the lower-cased line `cmd` satisfies the test of branch `k` on its own,
      regardless of the branches before it. */
  predicate Triggers(cmd: string, k: Kind) {
    match k
    case Help => Contains(cmd, "help") || cmd == "?"
    case Loot => Contains(cmd, Keyword(k))
    case Target => Contains(cmd, Keyword(k))
    case Heal => Contains(cmd, Keyword(k))
    case Farm => Contains(cmd, Keyword(k))
    case Feedback => Contains(cmd, "feedback")
    case Connect => Contains(cmd, "connect")
    case Status => Contains(cmd, "status")
    case Unknown => true
  }

  /** The position of branch `k` in `Order`. */
  function Rank(k: Kind): (i: nat)
    ensures i < |Order| && Order[i] == k
  {
    match k
    case Help => 0
    case Loot => 1
    case Target => 2
    case Heal => 3
    case Farm => 4
    case Feedback => 5
    case Connect => 6
    case Status => 7
    case Unknown => 8
  }

  /** The if/else-if chain of the handler: the branch taken is one whose test holds,
      and the test of every branch before it fails. */
  function Classify(cmd: string): (k: Kind)
    ensures Triggers(cmd, k)
    ensures forall j :: 0 <= j < Rank(k) ==> !Triggers(cmd, Order[j])
  {
    if Contains(cmd, "help") || cmd == "?" then Help
    else if Contains(cmd, "loot") then Loot
    else if Contains(cmd, "target") then Target
    else if Contains(cmd, "heal") then Heal
    else if Contains(cmd, "farm") then Farm
    else if Contains(cmd, "feedback") then Feedback
    else if Contains(cmd, "connect") then Connect
    else if Contains(cmd, "status") then Status
    else Unknown
  }

  /** The chain picks branch `Order[i]` exactly when that branch's test holds and the
      tests of all earlier branches fail. */
  lemma ClassifyIsFirstMatch(cmd: string, i: nat)
    requires i < |Order|
    ensures Classify(cmd) == Order[i] <==>
              Triggers(cmd, Order[i]) && forall j :: 0 <= j < i ==> !Triggers(cmd, Order[j])
  {
    assert Order[0] == Help && Order[1] == Loot && Order[2] == Target && Order[3] == Heal;
    assert Order[4] == Farm && Order[5] == Feedback && Order[6] == Connect && Order[7] == Status;
    assert Order[8] == Unknown;
  }

  /** The toggle commands and the automation each one flips. */
  predicate IsToggle(k: Kind) {
    k.Loot? || k.Target? || k.Heal? || k.Farm?
  }

  /** The word a toggle command's branch tests for. */
  function Keyword(k: Kind): string
    requires IsToggle(k)
  {
    match k
    case Loot => "loot"
    case Target => "target"
    case Heal => "heal"
    case Farm => "farm"
  }

  /** The automation a toggle command flips: the branches are tried in catalog order. */
  function FeatureOf(k: Kind): (e: Entry)
    requires IsToggle(k)
    ensures e == Automations[Rank(k) - 1]
    ensures e.id == "auto-" + Keyword(k)
  {
    match k
    case Loot => Automations[0]
    case Target => Automations[1]
    case Heal => Automations[2]
    case Farm => Automations[3]
  }

  /** The game query of a `connect` line: the line with its first "connect" removed,
      then trimmed. */
  function ConnectQuery(cmd: string): (q: string)
    ensures Contains(cmd, "connect") ==> |q| <= |cmd| - 7
  {
    Trim(ReplaceFirst(cmd, "connect", ""))
  }

  /** Everything the handler does after the echo, for the lower-cased line `cmd`
      that took branch `k`. */
  function Respond(s: State, k: Kind, cmd: string): (r: State)
    ensures |r.output| > |s.output| && r.output[..|s.output|] == s.output
    ensures r.command == s.command
  {
    match k
    case Help => s.(output := s.output + [HelpLine])
    case Feedback => s.(showFeedback := true, output := s.output + [FeedbackOpened])
    case Connect =>
      (match FindGame(ConnectQuery(cmd))
       case Some(i) =>
         var name := Games[i].name;
         var t := SelectGame(s, name);
         t.(output := t.output + ["Attempting to connect to " + name + "..."])
       case None => s.(output := s.output + [NotFoundLine()]))
    case Status => s.(output := s.output + ["Game Status: " + s.status])
    case Unknown => s.(output := s.output + [UnknownLine])
    case _ =>
      var f := FeatureOf(k);
      var t := ToggleAutomation(s, f.id);
      t.(output := t.output + ["Toggled " + f.name])
  }

  /** `handleCommandSubmit`: blank input is ignored and the box keeps its text;
      otherwise the raw line is echoed, dispatched on its lower-cased form, and the
      box is cleared. */
  function SubmitCommand(s: State): (r: State)
    ensures IsBlank(s.command) ==> r == s
    ensures !IsBlank(s.command) ==> r.command == ""
    ensures !IsBlank(s.command) ==>
              |r.output| >= |s.output| + 2 && r.output[..|s.output| + 1] == s.output + ["> " + s.command]
  {
    if IsBlank(s.command) then s
    else
      var echoed := s.(output := s.output + ["> " + s.command]);
      var cmd := Lower(s.command);
      Respond(echoed, Classify(cmd), cmd).(command := "")
  }

  /** The transcript after the echo of a non-blank command. */
  function Echoed(s: State): seq<string> {
    s.output + ["> " + s.command]
  }

  /** Exactly one response line per command, plus the not-connected warning only for a
      toggle command issued while disconnected. */
  lemma RespondGrowth(s: State, k: Kind, cmd: string)
    ensures |Respond(s, k, cmd).output| == |s.output| + 1 + (if IsToggle(k) && !s.connected then 1 else 0)
  {
    if k.Connect? {
      match FindGame(ConnectQuery(cmd))
      case Some(i) =>
        assert |SelectGame(s, Games[i].name).output| == |s.output|;
      case None =>
    }
  }

  lemma SubmitCommandGrowth(s: State)
    requires !IsBlank(s.command)
    ensures var k := Classify(Lower(s.command));
      |SubmitCommand(s).output| == |s.output| + 2 + (if IsToggle(k) && !s.connected then 1 else 0)
  {
    var cmd := Lower(s.command);
    RespondGrowth(s.(output := Echoed(s)), Classify(cmd), cmd);
  }

  /** `help`, `feedback`, `status` and unrecognised lines answer with one fixed line and
      change nothing else, apart from `feedback` opening the panel. */
  lemma SubmitCommandReply(s: State)
    requires !IsBlank(s.command)
    ensures var k := Classify(Lower(s.command));
            var r := SubmitCommand(s);
      && (k == Help ==> r == s.(command := "", output := Echoed(s) + [HelpLine]))
      && (k == Feedback ==>
            r == s.(command := "", showFeedback := true, output := Echoed(s) + [FeedbackOpened]))
      && (k == Status ==> r == s.(command := "", output := Echoed(s) + ["Game Status: " + s.status]))
      && (k == Unknown ==> r == s.(command := "", output := Echoed(s) + [UnknownLine]))
  {
    var cmd := Lower(s.command);
    assert SubmitCommand(s) == Respond(s.(output := Echoed(s)), Classify(cmd), cmd).(command := "");
  }

  /** A toggle command flips its automation, and the warning, when due, sits between the
      echo and the "Toggled" line. */
  lemma SubmitCommandToggle(s: State)
    requires !IsBlank(s.command) && IsToggle(Classify(Lower(s.command)))
    ensures var f := FeatureOf(Classify(Lower(s.command)));
            var r := SubmitCommand(s);
      && (f.id in r.active <==> f.id !in s.active)
      && (forall x :: x != f.id ==> (x in r.active <==> x in s.active))
      && r.output == Echoed(s) + (if s.connected then [] else [NotConnectedWarning]) + ["Toggled " + f.name]
      && r.(active := s.active, output := s.output, command := s.command) == s
  {
    var cmd := Lower(s.command);
    assert SubmitCommand(s) == Respond(s.(output := Echoed(s)), Classify(cmd), cmd).(command := "");
  }

  /** A `connect` line whose query matches no game only reports the miss. */
  lemma SubmitCommandConnectMiss(s: State)
    requires !IsBlank(s.command) && Classify(Lower(s.command)) == Connect
    requires FindGame(ConnectQuery(Lower(s.command))).None?
    ensures SubmitCommand(s) == s.(command := "", output := Echoed(s) + [NotFoundLine()])
  {
    var cmd := Lower(s.command);
    assert SubmitCommand(s) == Respond(s.(output := Echoed(s)), Connect, cmd).(command := "");
  }

  /** A `connect` line whose query matches selects the first matching game. A new
      selection starts connecting; repeating the current selection schedules nothing. */
  lemma SubmitCommandConnectHit(s: State)
    requires !IsBlank(s.command) && Classify(Lower(s.command)) == Connect
    requires FindGame(ConnectQuery(Lower(s.command))).Some?
    ensures var name := Games[FindGame(ConnectQuery(Lower(s.command))).value].name;
            var r := SubmitCommand(s);
      && r.output == Echoed(s) + ["Attempting to connect to " + name + "..."]
      && r.selectedGame == name
      && (name != s.selectedGame ==> r.pending == Some(name) && r.status == Connecting)
      && (name == s.selectedGame ==> r.pending == s.pending && r.status == s.status)
      && r.connected == s.connected && r.active == s.active
      && r.feedback == s.feedback && r.showFeedback == s.showFeedback && r.command == ""
  {
    var cmd := Lower(s.command);
    var e := s.(output := Echoed(s));
    assert SubmitCommand(s) == Respond(e, Connect, cmd).(command := "");
    RespondConnectHit(e, cmd);
  }

  /** The `connect` branch on a hit: select the game, then report the attempt. */
  lemma RespondConnectHit(e: State, cmd: string)
    requires FindGame(ConnectQuery(cmd)).Some?
    ensures var name := Games[FindGame(ConnectQuery(cmd)).value].name;
            var t := SelectGame(e, name);
      Respond(e, Connect, cmd) == t.(output := t.output + ["Attempting to connect to " + name + "..."])
  {
  }

  /** For a line of the form "connect<rest>", the query is `rest` trimmed. */
  lemma ConnectQueryOfPrefixed(rest: string)
    ensures ConnectQuery("connect" + rest) == Trim(rest)
  {
    ReplaceFirstAtStart("connect", rest);
  }

  /** "connect " followed by a word without surrounding whitespace queries that word. */
  lemma ConnectQueryOfWord(w: string)
    requires w != [] ==> !IsSpace(w[0]) && !IsSpace(w[|w| - 1])
    ensures ConnectQuery("connect " + w) == w
  {
    assert "connect " + w == "connect" + (" " + w);
    ConnectQueryOfPrefixed(" " + w);
    TrimSkipsLeadingSpace(' ', w);
    TrimOfTrimmed(w);
  }

  /** "connect " followed by a game's id selects exactly that game. */
  lemma ConnectById(k: nat)
    requires k < |Games|
    ensures FindGame(ConnectQuery("connect " + Games[k].id)) == Some(k)
  {
    var id := Games[k].id;
    if k == 0 { assert id == "valorant"; }
    else if k == 1 { assert id == "league"; }
    else if k == 2 { assert id == "fortnite"; }
    else { assert id == "wow"; }
    ConnectQueryOfWord(id);
    FindGameById(k);
  }

  /** A bare "connect" has an empty query and so selects Valorant. */
  lemma BareConnectSelectsFirst()
    ensures FindGame(ConnectQuery("connect")) == Some(0)
  {
    ConnectQueryOfPrefixed("");
    assert "connect" + "" == "connect";
    TrimOfTrimmed("");
    FindGameById(0);
  }
}
