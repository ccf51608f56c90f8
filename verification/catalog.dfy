/**
 The two static catalogs of the console (src/components/ProGamingAgent.tsx:19-31):
 the games one can connect to and the automation features one can toggle, and the
 game lookup the `connect` command performs.
 */
module Catalog {
  import opened Wrappers
  import opened Strings

  /** A catalog entry: a stable id and the name shown to the player. */
  datatype Entry = Entry(id: string, name: string)

  /** The games, in the order the lookup tries them. */
  const Games: seq<Entry> := [
    Entry("valorant", "Valorant"),
    Entry("league", "League of Legends"),
    Entry("fortnite", "Fortnite"),
    Entry("wow", "World of Warcraft")
  ]

  /** The automation features, one per toggle command. */
  const Automations: seq<Entry> := [
    Entry("auto-loot", "Auto Loot"),
    Entry("auto-target", "Auto Target"),
    Entry("auto-heal", "Auto Heal"),
    Entry("auto-farm", "Auto Farm")
  ]

  /** The fixed start of the reply to a lookup miss. */
  const NotFoundPrefix := "Game not found. Available games: "

  /** The display names of the games, in catalog order. */
  function GameNames(): (r: seq<string>)
    ensures |r| == |Games|
    ensures forall i :: 0 <= i < |Games| ==> r[i] == Games[i].name
  {
    seq(|Games|, i requires 0 <= i < |Games| => Games[i].name)
  }

  /** `name` is the display name of some game. */
  predicate IsGameName(name: string) {
    exists i :: 0 <= i < |Games| && Games[i].name == name
  }

  /** `id` is the id of some automation feature. */
  predicate IsFeatureId(id: string) {
    exists i :: 0 <= i < |Automations| && Automations[i].id == id
  }

  /** The lookup's test of one entry: its lower-cased name or its id contains the query. */
  predicate Matches(g: Entry, query: string) {
    Contains(Lower(g.name), query) || Contains(g.id, query)
  }

  /** `games.find(...)` from position `k` on. */
  function FindFrom(query: string, k: nat): (r: Option<nat>)
    requires k <= |Games|
    ensures r.Some? ==> k <= r.value < |Games| && Matches(Games[r.value], query)
    ensures r.Some? ==> forall j :: k <= j < r.value ==> !Matches(Games[j], query)
    ensures r.None? ==> forall j :: k <= j < |Games| ==> !Matches(Games[j], query)
    decreases |Games| - k
  {
    if k == |Games| then None
    else if Matches(Games[k], query) then Some(k)
    else FindFrom(query, k + 1)
  }

  /** The index of the first game whose lower-cased name or id contains `query`. */
  function FindGame(query: string): (r: Option<nat>)
    ensures r.Some? ==> r.value < |Games| && Matches(Games[r.value], query)
    ensures r.Some? ==> forall j :: 0 <= j < r.value ==> !Matches(Games[j], query)
    ensures r.None? <==> forall j :: 0 <= j < |Games| ==> !Matches(Games[j], query)
  {
    FindFrom(query, 0)
  }

  /** Every game's id finds exactly that game (no earlier game's name or id contains
      it), and the empty query finds the first game. */
  lemma FindGameById(k: nat)
    requires k < |Games|
    ensures FindGame(Games[k].id) == Some(k)
    ensures FindGame("") == Some(0)
  {
    ContainsSelf(Games[0].id);
    if k == 0 {
      assert Games[k].id == Games[0].id;
    } else if k == 1 {
      FindLeague();
    } else if k == 2 {
      FindFortnite();
    } else {
      FindWow();
    }
  }

  /** Letters that tell the games apart: neither Valorant has g, f or w, nor League of
      Legends r or w, nor Fortnite w, in its name (in either case) or its id. */
  lemma CatalogLetters()
    ensures Lacks("Valorant", 'g') && Lacks("Valorant", 'G') && Lacks("valorant", 'g')
    ensures Lacks("Valorant", 'f') && Lacks("Valorant", 'F') && Lacks("valorant", 'f')
    ensures Lacks("Valorant", 'w') && Lacks("Valorant", 'W') && Lacks("valorant", 'w')
    ensures Lacks("League of Legends", 'r') && Lacks("League of Legends", 'R') && Lacks("league", 'r')
    ensures Lacks("League of Legends", 'w') && Lacks("League of Legends", 'W') && Lacks("league", 'w')
    ensures Lacks("Fortnite", 'w') && Lacks("Fortnite", 'W') && Lacks("fortnite", 'w')
  {
  }

  lemma FindLeague()
    ensures FindGame(Games[1].id) == Some(1)
  {
    CatalogLetters();
    assert Games[0] == Entry("valorant", "Valorant") && Games[1].id == "league";
    MissByLetter(Games[0], "league", 3, 'G');
    ContainsSelf("league");
  }

  lemma FindFortnite()
    ensures FindGame(Games[2].id) == Some(2)
  {
    CatalogLetters();
    assert Games[0] == Entry("valorant", "Valorant") && Games[2].id == "fortnite";
    assert Games[1] == Entry("league", "League of Legends");
    MissByLetter(Games[0], "fortnite", 0, 'F');
    MissByLetter(Games[1], "fortnite", 2, 'R');
    ContainsSelf("fortnite");
  }

  lemma FindWow()
    ensures FindGame(Games[3].id) == Some(3)
  {
    CatalogLetters();
    assert Games[0] == Entry("valorant", "Valorant") && Games[3].id == "wow";
    assert Games[1] == Entry("league", "League of Legends");
    assert Games[2] == Entry("fortnite", "Fortnite");
    MissByLetter(Games[0], "wow", 0, 'W');
    MissByLetter(Games[1], "wow", 0, 'W');
    MissByLetter(Games[2], "wow", 0, 'W');
    ContainsSelf("wow");
  }

  /** A game whose name, in either case, and id both lack some letter of the query does
      not match it. */
  lemma MissByLetter(g: Entry, q: string, i: nat, upper: char)
    requires i < |q| && 'a' <= q[i] <= 'z' && upper as int == q[i] as int - 32
    requires Lacks(g.name, q[i]) && Lacks(g.name, upper) && Lacks(g.id, q[i])
    ensures !Matches(g, q)
  {
    assert upper == (q[i] as int - 32) as char;
    LowerAvoids(g.name, q[i]);
    NotContainsByChar(Lower(g.name), q, i);
    NotContainsByChar(g.id, q, i);
  }

  /** The reply to a lookup miss: a fixed prefix, then the games' names joined by
      commas. */
  function NotFoundLine(): string {
    NotFoundPrefix + Join(GameNames(), ", ")
  }

  /** The miss reply starts with its prefix and names every game. */
  lemma NotFoundLineListsGames()
    ensures |NotFoundLine()| >= |NotFoundPrefix| && NotFoundLine()[..|NotFoundPrefix|] == NotFoundPrefix
    ensures forall i :: 0 <= i < |Games| ==> Contains(NotFoundLine(), Games[i].name)
  {
    var names := GameNames();
    forall i | 0 <= i < |Games|
      ensures Contains(NotFoundLine(), Games[i].name)
    {
      JoinContains(names, ", ", i);
      ContainsAppendLeft(NotFoundPrefix, Join(names, ", "), names[i]);
    }
  }

  /** The miss reply spelled out. */
  lemma NotFoundLineText()
    ensures NotFoundLine() == NotFoundPrefix + "Valorant" + ", " + "League of Legends" + ", "
                              + "Fortnite" + ", " + "World of Warcraft"
  {
    var names := GameNames();
    assert names == ["Valorant", "League of Legends", "Fortnite", "World of Warcraft"];
    assert Join(names[3..], ", ") == "World of Warcraft";
    assert Join(names[2..], ", ") == "Fortnite" + ", " + "World of Warcraft";
    assert Join(names[1..], ", ") == "League of Legends" + ", " + "Fortnite" + ", " + "World of Warcraft";
  }
}
