/**
 Facts about the shipped six-record catalog.
 */
module Scenarios {
  import opened Catalog
  import opened Filter
  import opened Gallery

  /** How `Keep` treats six rows of which exactly the 1st, 3rd, 5th and 6th match. */
  lemma KeepSixRows(rows: seq<Row>, selected: seq<string>)
    requires |rows| == 6
    requires Matches(rows[0].app.tags, selected) && !Matches(rows[1].app.tags, selected)
    requires Matches(rows[2].app.tags, selected) && !Matches(rows[3].app.tags, selected)
    requires Matches(rows[4].app.tags, selected) && Matches(rows[5].app.tags, selected)
    ensures Keep(rows, selected) == [rows[0], rows[2], rows[4], rows[5]]
  {
    KeepLastThree(rows[3..], selected);
    KeepFirstThree(rows, selected, Keep(rows[3..], selected));
  }

  lemma KeepFirstThree(rows: seq<Row>, selected: seq<string>, rest: seq<Row>)
    requires |rows| == 6 && Keep(rows[3..], selected) == rest
    requires Matches(rows[0].app.tags, selected) && !Matches(rows[1].app.tags, selected)
    requires Matches(rows[2].app.tags, selected)
    ensures Keep(rows, selected) == [rows[0], rows[2]] + rest
  {
    assert rows[3..] == rows[2..][1..] && rows[2..] == rows[1..][1..];
    assert Keep(rows[2..], selected) == [rows[2]] + rest;
  }

  lemma KeepLastThree(rows: seq<Row>, selected: seq<string>)
    requires |rows| == 3
    requires !Matches(rows[0].app.tags, selected)
    requires Matches(rows[1].app.tags, selected) && Matches(rows[2].app.tags, selected)
    ensures Keep(rows, selected) == [rows[1], rows[2]]
  {
    assert rows[2..][1..] == [];
    assert rows[1..][1..] == rows[2..];
    assert Keep(rows[2..], selected) == [rows[2]];
  }

  /** Selecting `#AI` keeps GPT Lab, HugChat, rephraise and GPT-4 Auto Coder, under labels 0, 2, 4, 5. */
  lemma SelectAI()
    ensures FilterApps(Frame(Apps), ["#AI"]) ==
      [Row(0, Apps[0]), Row(2, Apps[2]), Row(4, Apps[4]), Row(5, Apps[5])]
  {
    var selected := ["#AI"];
    assert selected[0] in Apps[0].tags && selected[0] in Apps[2].tags;
    assert selected[0] in Apps[4].tags && selected[0] in Apps[5].tags;
    KeepSixRows(Frame(Apps), selected);
  }

  lemma InColumnOfFour(cards: seq<Card>)
    requires |cards| == 4
    requires cards[0].column == 0 && cards[1].column == 0
    requires cards[2].column == 0 && cards[3].column == 1
    ensures InColumn(cards, 0) == cards[..3]
    ensures InColumn(cards, 1) == [cards[3]]
  {
    assert cards[3..][1..] == [];
    assert cards[2..][1..] == cards[3..];
    assert cards[1..][1..] == cards[2..];
    assert InColumn(cards[3..], 0) == [];
    assert InColumn(cards[3..], 1) == [cards[3]];
    assert InColumn(cards[2..], 0) == [cards[2]];
    assert InColumn(cards[1..], 0) == [cards[1], cards[2]];
    assert InColumn(cards[2..], 1) == [cards[3]];
    assert InColumn(cards[1..], 1) == [cards[3]];
  }

  /** The cards of four rows labelled 0, 2, 4 and 5. */
  lemma CardsOfEvenEvenEvenOdd(rows: seq<Row>, apps: seq<App>)
    requires |apps| == 6
    requires rows == [Row(0, apps[0]), Row(2, apps[2]), Row(4, apps[4]), Row(5, apps[5])]
    ensures var cards := Cards(rows);
      && |cards| == 4
      && [cards[0].index, cards[1].index, cards[2].index, cards[3].index] == [0, 2, 4, 5]
      && [cards[0].column, cards[1].column, cards[2].column, cards[3].column] == [0, 0, 0, 1]
      && [cards[0].name, cards[1].name, cards[2].name, cards[3].name] ==
         [apps[0].name, apps[2].name, apps[4].name, apps[5].name]
      && InColumn(cards, 0) == cards[..3]
      && InColumn(cards, 1) == [cards[3]]
  {
    InColumnOfFour(Cards(rows));
  }

  /**
   On the page those four cards go to columns 0, 0, 0, 1: the first three
   share the left column because their labels are even.
   */
  lemma SelectAIColumns()
    ensures var cards := Render(Apps, ["#AI"]).cards;
      && |cards| == 4
      && [cards[0].index, cards[1].index, cards[2].index, cards[3].index] == [0, 2, 4, 5]
      && [cards[0].column, cards[1].column, cards[2].column, cards[3].column] == [0, 0, 0, 1]
      && [cards[0].name, cards[1].name, cards[2].name, cards[3].name] ==
         ["GPT Lab", "HugChat", "rephraise", "GPT-4 Auto Coder"]
      && InColumn(cards, 0) == cards[..3]
      && InColumn(cards, 1) == [cards[3]]
  {
    SelectAI();
    CardsOfEvenEvenEvenOdd(FilterApps(Frame(Apps), ["#AI"]), Apps);
  }

  /** Tags compare exactly: `#ai` is not `#AI`, so selecting it shows the notice. */
  lemma LowerCaseTagMatchesNothing()
    ensures Render(Apps, ["#ai"]).noAppsMessage
  {
    CatalogTags();
    LowerCaseTagOf(Apps);
  }

  lemma LowerCaseTagOf(apps: seq<App>)
    requires AllTags(apps) == Vocabulary()
    ensures Render(apps, ["#ai"]).noAppsMessage
  {
    var selected := ["#ai"];
    NoTagIn(AllTags(apps), selected[0]);
    NoAppsMessageIff(apps, selected);
  }

  lemma NoTagIn(tags: seq<string>, t: string)
    requires tags == Vocabulary() && t == "#ai"
    ensures t !in tags
  {
    assert forall k :: 0 <= k < |tags| ==> tags[k][1] != t[1];
  }

  /** Any non-empty selection made from the selector's options shows at least one app. */
  lemma OptionsAlwaysShowApps(selected: seq<string>)
    requires |selected| > 0
    requires forall k :: 0 <= k < |selected| ==> selected[k] in AllTags(Apps)
    ensures !Render(Apps, selected).noAppsMessage
  {
    NoAppsMessageIff(Apps, selected);
    assert selected[0] in AllTags(Apps);
  }
}
