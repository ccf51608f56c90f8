/**
 Concrete command lines and button presses, each stated for every state in which it
 can be issued.
 */
module Scenarios {
  import opened Wrappers
  import opened Strings
  import opened Catalog
  import opened Session
  import opened Interpreter
  import opened Console

  /** A line that starts with a word contains that word. */
  lemma StartsWithWord(line: string, w: string, rest: string)
    requires line == w + rest
    ensures Contains(line, w)
  {
    ContainsSelf(w);
    ContainsAppendRight(w, rest, w);
  }

  /** A line of spaces is ignored: nothing is echoed and the box keeps its text. */
  lemma BlankLineIgnored(s: State)
    requires s.command == "   "
    ensures SubmitCommand(s) == s
  {
    assert IsSpace(' ');
    assert "   "[1..] == "  " && "  "[1..] == " " && " "[1..] == "";
  }

  /** "help" answers with the command list and changes nothing else. */
  lemma HelpScenario(s: State)
    requires s.command == "help"
    ensures SubmitCommand(s) == s.(command := "", output := Echoed(s) + [HelpLine])
  {
    var line := s.command;
    assert !IsBlank(line);
    assert Lower(line) == line by { LowerOfLower(line); }
    assert Classify(line) == Help by { ContainsSelf(line); }
    SubmitCommandReply(s);
  }

  /** Matching ignores case: "HELP" is lowered to "help" and answered with the command
      list, while the echo keeps the capitals as typed. */
  lemma UpperCaseHelpScenario(s: State)
    requires s.command == "HELP"
    ensures SubmitCommand(s) == s.(command := "", output := s.output + ["> " + "HELP", HelpLine])
  {
    var line := s.command;
    assert !IsBlank(line);
    assert Lower(line) == "help";
    assert Classify(Lower(line)) == Help by { ContainsSelf("help"); }
    SubmitCommandReply(s);
  }

  /** "loot target" holds `loot` but not `help`, so it takes the `loot` branch although
      it also holds `target`. */
  lemma ParseLootTarget(line: string)
    requires line == "loot target"
    ensures !IsBlank(line) && Lower(line) == line
    ensures Classify(line) == Loot
  {
    assert NoUpper(line) && Lacks(line, 'h');
    LowerOfLower(line);
    NotContainsByChar(line, "help", 0);
    StartsWithWord(line, "loot", " target");
  }

  /** A line holding two keywords takes the earlier branch only: "loot target" toggles
      Auto Loot, leaves Auto Target alone, and warns when no game is connected. */
  lemma FirstKeywordWins(s: State)
    requires s.command == "loot target" && !s.connected
    ensures var r := SubmitCommand(s);
      && ("auto-loot" in r.active <==> "auto-loot" !in s.active)
      && ("auto-target" in r.active <==> "auto-target" in s.active)
      && r.output == s.output + ["> " + "loot target", NotConnectedWarning, "Toggled " + "Auto Loot"]
  {
    ParseLootTarget(s.command);
    SubmitCommandToggle(s);
  }

  /** "connect valorant" has no upper-case letter and none of h, g, f: so no `help`,
      `heal`, `target`, `farm` or `feedback`, and its only l is not followed by "oo". */
  lemma ValorantLineLetters()
    ensures NoUpper("connect valorant")
    ensures Lacks("connect valorant", 'h') && Lacks("connect valorant", 'g') && Lacks("connect valorant", 'f')
    ensures Lacks("connect va", 'l') && Lacks("orant", 'l')
  {
  }

  /** "connect valorant" holds none of the keywords tested before `connect`. */
  lemma ValorantLineMisses(line: string)
    requires line == "connect valorant"
    ensures !Contains(line, "help") && !Contains(line, "loot") && !Contains(line, "target")
    ensures !Contains(line, "heal") && !Contains(line, "farm") && !Contains(line, "feedback")
  {
    ValorantLineLetters();
    NotContainsByChar(line, "help", 0);
    NotContainsByChar(line, "target", 3);
    NotContainsByChar(line, "heal", 0);
    NotContainsByChar(line, "farm", 0);
    NotContainsByChar(line, "feedback", 0);
    assert line == "connect va" + ['l'] + "orant";
    NotContainsAtSoleAnchor("connect va", 'l', "orant", "loot", 2);
  }

  /** "connect valorant" is not blank, already lower case and takes the `connect`
      branch. */
  lemma ParseConnectValorant(line: string)
    requires line == "connect valorant"
    ensures !IsBlank(line) && Lower(line) == line
    ensures Classify(line) == Connect
  {
    ValorantLineLetters();
    LowerOfLower(line);
    ValorantLineMisses(line);
    StartsWithWord(line, "connect", " valorant");
  }

  /** The query of "connect valorant" is "valorant", which finds Valorant first. */
  lemma QueryConnectValorant(line: string)
    requires line == "connect valorant"
    ensures ConnectQuery(line) == "valorant"
    ensures FindGame(ConnectQuery(line)) == Some(0)
  {
    assert line == "connect " + "valorant";
    ConnectQueryOfWord("valorant");
    FindGameById(0);
  }

  /** "connect valorant" echoes the line, reports the attempt, selects Valorant and
      schedules its completion without touching the connection flag. */
  lemma ConnectValorantScenario(s: State)
    requires s.command == "connect valorant" && s.selectedGame != "Valorant"
    ensures var s1 := SubmitCommand(s);
      && s1.output == Echoed(s) + ["Attempting to connect to " + "Valorant" + "..."]
      && s1.selectedGame == "Valorant" && s1.status == Connecting
      && s1.pending == Some("Valorant") && s1.connected == s.connected
  {
    ParseConnectValorant(s.command);
    QueryConnectValorant(s.command);
    assert Games[0].name == "Valorant";
    ConnectSelectsNewGame(s, 0);
  }

  /** A `connect` line whose query finds a game other than the selected one reports the
      attempt and starts connecting to that game. */
  lemma ConnectSelectsNewGame(s: State, i: nat)
    requires !IsBlank(s.command) && Classify(Lower(s.command)) == Connect
    requires FindGame(ConnectQuery(Lower(s.command))) == Some(i)
    requires Games[i].name != s.selectedGame
    ensures var s1 := SubmitCommand(s);
      && s1.output == Echoed(s) + ["Attempting to connect to " + Games[i].name + "..."]
      && s1.selectedGame == Games[i].name && s1.status == Connecting
      && s1.pending == Some(Games[i].name) && s1.connected == s.connected
  {
    SubmitCommandConnectHit(s);
  }

  /** When the timer of "connect valorant" fires the session is connected to Valorant
      and the success line follows the attempt line. */
  lemma ConnectValorantCompletes(s: State)
    requires s.command == "connect valorant" && s.selectedGame != "Valorant"
    ensures var s2 := TimerFires(SubmitCommand(s));
      && s2.connected && s2.status == ConnectedTo("Valorant")
      && s2.output == Echoed(s) + ["Attempting to connect to " + "Valorant" + "...",
                                   "System: Successfully connected to " + "Valorant"]
  {
    ConnectValorantScenario(s);
  }

  /** "connect minecraft" has no upper-case letter and none of h, l, g, d: so no
      `help`, `loot`, `target`, `heal` or `feedback`, and its only f is not followed by
      "arm". */
  lemma MinecraftLineLetters()
    ensures NoUpper("connect minecraft")
    ensures Lacks("connect minecraft", 'h') && Lacks("connect minecraft", 'l')
    ensures Lacks("connect minecraft", 'g') && Lacks("connect minecraft", 'd')
    ensures Lacks("connect minecra", 'f') && Lacks("t", 'f')
  {
  }

  /** "connect minecraft" holds none of the keywords tested before `connect`. */
  lemma MinecraftLineMisses(line: string)
    requires line == "connect minecraft"
    ensures !Contains(line, "help") && !Contains(line, "loot") && !Contains(line, "target")
    ensures !Contains(line, "heal") && !Contains(line, "farm") && !Contains(line, "feedback")
  {
    MinecraftLineLetters();
    NotContainsByChar(line, "help", 0);
    NotContainsByChar(line, "loot", 0);
    NotContainsByChar(line, "target", 3);
    NotContainsByChar(line, "heal", 0);
    NotContainsByChar(line, "feedback", 3);
    assert line == "connect minecra" + ['f'] + "t";
    NotContainsAtSoleAnchor("connect minecra", 'f', "t", "farm", 1);
  }

  /** "connect minecraft" takes the `connect` branch. */
  lemma ParseConnectMinecraft(line: string)
    requires line == "connect minecraft"
    ensures !IsBlank(line) && Lower(line) == line
    ensures Classify(line) == Connect
  {
    MinecraftLineLetters();
    LowerOfLower(line);
    MinecraftLineMisses(line);
    StartsWithWord(line, "connect", " minecraft");
  }

  /** The game's name lacks the letter m in either case, and so does its id. */
  predicate AvoidsM(g: Entry) {
    Lacks(g.name, 'm') && Lacks(g.name, 'M') && Lacks(g.id, 'm')
  }

  lemma ValorantAvoidsM() ensures AvoidsM(Entry("valorant", "Valorant")) {}
  lemma LeagueAvoidsM() ensures AvoidsM(Entry("league", "League of Legends")) {}
  lemma FortniteAvoidsM() ensures AvoidsM(Entry("fortnite", "Fortnite")) {}
  lemma WowAvoidsM() ensures AvoidsM(Entry("wow", "World of Warcraft")) {}

  /** No catalog game has the letter m in its name or id. */
  lemma GameAvoidsM(j: nat)
    requires j < |Games|
    ensures AvoidsM(Games[j])
  {
    if j == 0 {
      ValorantAvoidsM();
      assert Games[j] == Entry("valorant", "Valorant");
    } else if j == 1 {
      LeagueAvoidsM();
      assert Games[j] == Entry("league", "League of Legends");
    } else if j == 2 {
      FortniteAvoidsM();
      assert Games[j] == Entry("fortnite", "Fortnite");
    } else {
      WowAvoidsM();
      assert Games[j] == Entry("wow", "World of Warcraft");
    }
  }

  /** A query that starts with m matches no game. */
  lemma QueryStartingWithMMisses(q: string)
    requires q != [] && q[0] == 'm'
    ensures FindGame(q).None?
  {
    forall j | 0 <= j < |Games|
      ensures !Matches(Games[j], q)
    {
      GameAvoidsM(j);
      LowerAvoids(Games[j].name, 'm');
      NotContainsByChar(Lower(Games[j].name), q, 0);
      NotContainsByChar(Games[j].id, q, 0);
    }
  }

  /** The query of "connect minecraft" is "minecraft", which matches no game. */
  lemma QueryConnectMinecraft(line: string)
    requires line == "connect minecraft"
    ensures ConnectQuery(line) == "minecraft"
    ensures FindGame(ConnectQuery(line)).None?
  {
    assert line == "connect " + "minecraft";
    ConnectQueryOfWord("minecraft");
    QueryStartingWithMMisses("minecraft");
  }

  /** "connect minecraft" names no catalog game: the miss is reported and nothing else
      changes. */
  lemma ConnectUnknownGameScenario(s: State)
    requires s.command == "connect minecraft"
    ensures SubmitCommand(s) == s.(command := "", output := Echoed(s) + [NotFoundLine()])
  {
    ParseConnectMinecraft(s.command);
    QueryConnectMinecraft(s.command);
    SubmitCommandConnectMiss(s);
  }

  /** Pressing Auto Loot on the fresh component adds it and warns. */
  lemma ToggleDisconnectedScenario()
    ensures var r := Step(Initial, PressAutomation("auto-loot"));
      r.active == ["auto-loot"] && r.output == [NotConnectedWarning]
  {
  }

  /** Submitting an empty feedback draft changes nothing, not even the open panel. */
  lemma EmptyFeedbackScenario(s: State)
    requires s.feedback == ""
    ensures Step(s, PressSubmitFeedback) == s
  {
  }

  /** An unknown word gets the fallback line and changes nothing else. */
  lemma UnknownCommandScenario(s: State)
    requires s.command == "xyzzy"
    ensures SubmitCommand(s) == s.(command := "", output := s.output + ["> " + "xyzzy", UnknownLine])
  {
    var line := s.command;
    assert !IsBlank(line);
    assert Lower(line) == line by { LowerOfLower(line); }
    assert Classify(line) == Unknown by {
      NotContainsByChar(line, "help", 0);
      NotContainsByChar(line, "loot", 0);
      NotContainsByChar(line, "target", 0);
      NotContainsByChar(line, "heal", 0);
      NotContainsByChar(line, "farm", 0);
      NotContainsByChar(line, "feedback", 0);
      NotContainsByChar(line, "connect", 0);
      NotContainsByChar(line, "status", 0);
    }
    SubmitCommandReply(s);
  }
}
