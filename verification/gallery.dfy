/**
 One render of the gallery page as a value: the cards shown (one per
 filtered row, in table order), the column each card goes to, and whether
 the "No apps found" notice appears. The column of a
 card is its row's index label modulo 2 — the label the row had in the full
 table, not its position among the filtered rows.
 */
module Gallery {
  import opened Catalog
  import opened Filter
  import opened Badges

  /** What the page shows for one app. */
  datatype Card = Card(
    index: nat,
    column: nat,
    name: string,
    description: string,
    image: string,
    badges: string,
    link: string,
    repo: string)

  datatype View = View(cards: seq<Card>, noAppsMessage: bool)

  /** The column a row is drawn in. */
  function ColumnOf(row: Row): (c: nat)
    ensures c < 2
    ensures c == 0 <==> row.index % 2 == 0
  {
    row.index % 2
  }

  /** The card drawn for one row: every field comes from that row's record. */
  function CardOf(row: Row): (card: Card)
    ensures card.index == row.index && card.column == ColumnOf(row)
    ensures card.name == row.app.name && card.description == row.app.description
    ensures card.image == row.app.image && card.badges == StyleTags(row.app.tags)
    ensures card.link == row.app.link && card.repo == row.app.repo
  {
    Card(row.index, ColumnOf(row), row.app.name, row.app.description, row.app.image,
         StyleTags(row.app.tags), row.app.link, row.app.repo)
  }

  function Cards(rows: seq<Row>): (cards: seq<Card>)
    ensures |cards| == |rows|
    ensures forall k :: 0 <= k < |rows| ==> cards[k] == CardOf(rows[k])
  {
    seq(|rows|, k requires 0 <= k < |rows| => CardOf(rows[k]))
  }

  /** The page for catalog `apps` when `selected` is the tag selection. */
  function Render(apps: seq<App>, selected: seq<string>): (v: View)
    ensures v.noAppsMessage <==> |v.cards| == 0
  {
    var shown := FilterApps(Frame(apps), selected);
    View(Cards(shown), |shown| == 0)
  }

  /**
   Every card shows a catalog record under its own label: its name,
   description, image, badges, app link and repository link. Cards come in
   catalog order, and each sits in column 0 or 1 according to the parity of
   its label.
   */
  lemma RenderCards(apps: seq<App>, selected: seq<string>)
    ensures var cards := Render(apps, selected).cards;
      && (forall k :: 0 <= k < |cards| ==>
            && cards[k].index < |apps|
            && cards[k].name == apps[cards[k].index].name
            && cards[k].description == apps[cards[k].index].description
            && cards[k].image == apps[cards[k].index].image
            && cards[k].badges == StyleTags(apps[cards[k].index].tags)
            && cards[k].link == apps[cards[k].index].link
            && cards[k].repo == apps[cards[k].index].repo
            && cards[k].column < 2
            && (cards[k].column == 1 <==> cards[k].index % 2 == 1))
      && (forall j, k :: 0 <= j < k < |cards| ==> cards[j].index < cards[k].index)
  {
    FilterFrame(apps, selected);
    var shown := FilterApps(Frame(apps), selected);
    forall k | 0 <= k < |shown|
      ensures shown[k].index < |apps| && shown[k].app == apps[shown[k].index]
    {
      assert shown[k] in shown;
    }
  }

  /** Without a selection every record is shown and the columns alternate 0, 1, 0, 1, ... */
  lemma UnfilteredColumnsAlternate(apps: seq<App>)
    ensures var cards := Render(apps, []).cards;
      && |cards| == |apps|
      && forall k :: 0 <= k < |cards| ==> cards[k].index == k && cards[k].column == k % 2
  {
  }

  /**
   The notice appears exactly when nothing is shown: for an empty selection
   only if the catalog is empty, and otherwise when no selected tag is one of
   the selector's options.
   */
  lemma NoAppsMessageIff(apps: seq<App>, selected: seq<string>)
    ensures Render(apps, selected).noAppsMessage <==>
      if |selected| == 0 then |apps| == 0
      else forall k :: 0 <= k < |selected| ==> selected[k] !in AllTags(apps)
  {
    FilterFrame(apps, selected);
    var shown := FilterApps(Frame(apps), selected);
    if |selected| > 0 {
      if |shown| > 0 {
        var x := shown[0];
        assert x in shown;
        var i := x.index;
        assert Matches(apps[i].tags, selected);
        var k :| 0 <= k < |selected| && selected[k] in apps[i].tags;
        assert apps[i] in apps;
        assert selected[k] in AllTags(apps);
      } else {
        forall k, a | 0 <= k < |selected| && a in apps
          ensures selected[k] !in a.tags
        {
          var i :| 0 <= i < |apps| && apps[i] == a;
          assert Row(i, apps[i]) !in shown;
          assert !Matches(apps[i].tags, selected);
        }
      }
    }
  }

  /** Adding a tag no record carries to a non-empty selection changes nothing on the page. */
  lemma RenderIgnoresUnknownTag(apps: seq<App>, selected: seq<string>, u: string)
    requires |selected| > 0
    requires u !in AllTags(apps)
    ensures Render(apps, selected + [u]) == Render(apps, selected)
  {
    var rows := Frame(apps);
    forall x | x in rows
      ensures u !in x.app.tags
    {
      var k :| 0 <= k < |rows| && rows[k] == x;
      assert apps[k] in apps;
    }
    KeepIgnoresUnknownTag(rows, selected, u);
  }

  /** The cards of one column, in the order they are drawn. */
  function InColumn(cards: seq<Card>, c: nat): (r: seq<Card>)
    ensures forall x :: x in r <==> x in cards && x.column == c
    ensures |r| <= |cards|
  {
    if |cards| == 0 then []
    else
      var rest := InColumn(cards[1..], c);
      assert forall x :: x in cards <==> x == cards[0] || x in cards[1..] by {
        assert cards == [cards[0]] + cards[1..];
      }
      if cards[0].column == c then [cards[0]] + rest else rest
  }

  lemma {:induction false} InColumnSnoc(cards: seq<Card>, x: Card, c: nat)
    ensures InColumn(cards + [x], c) ==
      InColumn(cards, c) + (if x.column == c then [x] else [])
  {
    if |cards| == 0 {
      assert cards + [x] == [x];
      assert [x][1..] == [];
    } else {
      assert (cards + [x])[1..] == cards[1..] + [x];
      InColumnSnoc(cards[1..], x, c);
    }
  }

  lemma CardsSnoc(rows: seq<Row>, i: nat)
    requires i < |rows|
    ensures Cards(rows[..i + 1]) == Cards(rows[..i]) + [CardOf(rows[i])]
  {
    assert rows[..i + 1] == rows[..i] + [rows[i]];
  }

  /**
   The `iterrows` loop: each row's card is appended to the column picked by
   its label, so each column receives its cards in table order and every
   card lands in exactly one of the two columns.
   */
  method DrawColumns(rows: seq<Row>) returns (left: seq<Card>, right: seq<Card>)
    ensures left == InColumn(Cards(rows), 0)
    ensures right == InColumn(Cards(rows), 1)
    ensures |left| + |right| == |rows|
  {
    left, right := [], [];
    var i := 0;
    while i < |rows|
      invariant 0 <= i <= |rows|
      invariant left == InColumn(Cards(rows[..i]), 0)
      invariant right == InColumn(Cards(rows[..i]), 1)
      invariant |left| + |right| == i
    {
      var card := CardOf(rows[i]);
      CardsSnoc(rows, i);
      InColumnSnoc(Cards(rows[..i]), card, 0);
      InColumnSnoc(Cards(rows[..i]), card, 1);
      if card.column == 0 {
        left := left + [card];
      } else {
        right := right + [card];
      }
      i := i + 1;
    }
    assert rows[..i] == rows;
  }
}
