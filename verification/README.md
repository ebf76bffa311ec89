# Adalflow community app gallery — tag filtering, as a Dafny model

The gallery page (`streamlit_app.py`) lists a fixed catalog of six demo
apps. Each app has a name, a description, a thumbnail, a link to the live
app, a link to its repository and a list of tags. The page builds a pandas
table from the catalog. It offers the sorted, de-duplicated tag vocabulary
in a multi-select. It keeps the rows that carry at least one selected tag,
or every row when nothing is selected. It draws the kept rows in two
columns, choosing the column from the row's index label modulo 2, and
renders each app's tags as `<span class='tag'>…</span>` badges joined by
single spaces. When no row is kept, it shows the notice "No apps found".

This project models that logic as pure functions over immutable values:

- `wrappers.dfy` (`Wrappers`): `Option`, used by the badge reader.
- `strings.dfy` (`Strings`): Python's `<` on `str`, which `sorted` uses.
  It is lexicographic on code points, and a proper prefix sorts first.
  The module proves it is a strict total order.
- `sorting.dfy` (`Sorting`): `sorted(set(xs))` as insertion into a strictly
  ascending sequence, plus a proof that a strictly ascending sequence is
  determined by its elements.
- `catalog.dfy` (`Catalog`): the `App` record, the six shipped records
  (`Apps`), the table rows with their index labels (`Frame`), and `all_tags`
  (`AllTags`).
- `filter.dfy` (`Filter`): the row test `any(tag in x for tag in
  selected_tags)` (`Matches`, exact string equality, so case-sensitive), the
  tag filter built on it (`Keep`, `FilterApps`) and its laws.
- `badges.dfy` (`Badges`): `style_tags` (`StyleTags`) and a reader
  (`ParseBadges`) that inverts it on tags containing no `<`.
- `gallery.dfy` (`Gallery`): one render of the page as a value (`Render`,
  `View`, `Card`), the card drawn for one row (`CardOf`, lines 152-159), the
  column choice, the two-column drawing loop and the empty-result notice.
- `scenarios.dfy` (`Scenarios`): facts about the shipped catalog. Examples
  are the `#AI` selection and the case-sensitive match.

A pandas table is modelled as a sequence of `Row(index, app)` values, and
`Frame(apps)` labels record `k` with `k`. Boolean-mask selection keeps rows
with their labels, and `iterrows` walks them in order.

Two points where a natural reading of the page differs from what the code
does; the model follows the code:
- Columns do not alternate by position in the filtered result. The code
  uses the row's original index label, so selecting `#AI` puts labels 0, 2
  and 4 all in column 0 (`Scenarios.SelectAIColumns`).
- Tags are not an unordered set. The code stores a list, and `style_tags`
  keeps the list's order.

## Model

| member | source | states |
|---|---|---|
| `Strings.LessIrreflexive` | streamlit_app.py:113 | No string sorts before itself under Python's string order. |
| `Strings.LessAsymmetric` | streamlit_app.py:113 | Two strings are never each below the other. |
| `Strings.LessTransitive` | streamlit_app.py:113 | The string order is transitive. |
| `Strings.LessTotal` | streamlit_app.py:113 | Any two distinct strings are ordered one way or the other, so `sorted` has one answer. |
| `Sorting.Insert` | streamlit_app.py:113 | Inserting into a strictly ascending list keeps it strictly ascending; the result holds the old elements plus the new one, with no duplicate. |
| `Sorting.SortedUnique` | streamlit_app.py:113 | `sorted(set(xs))` is strictly ascending and holds exactly the values of `xs`. |
| `Sorting.AscendingUnique` | streamlit_app.py:113 | Two strictly ascending lists with the same elements are equal, so `sorted(set(...))` is fixed by the set alone. |
| `Catalog.FlatTags` | streamlit_app.py:113 | The generator over all records' tags yields exactly the tags that some record carries. |
| `Catalog.AllTags` | streamlit_app.py:113 | `all_tags` is strictly ascending (so duplicate-free), and a string is in it exactly when some record lists it as a tag. |
| `Catalog.VocabularyAscending` | streamlit_app.py:113 | The written-out ten-tag vocabulary is strictly ascending in Python's string order. |
| `Catalog.CatalogFlatTags` | streamlit_app.py:58-107 | The shipped records' tag lists, concatenated in catalog order. |
| `Catalog.VocabularyHoldsTagLists` | streamlit_app.py:58-107 | The tags used in the shipped catalog are exactly the ten vocabulary tags. |
| `Catalog.AllTagsOfTagLists` | streamlit_app.py:113 | A catalog whose tags are exactly the vocabulary's has the vocabulary as `all_tags`. |
| `Catalog.CatalogTags` | streamlit_app.py:58-113 | `all_tags` of the shipped catalog is `#AI, #Automation, #Coding, #Content, #Crypto, #Data, #Finance, #Knowledge, #LLM, #NLP`. |
| `Filter.Keep` | streamlit_app.py:120 | A row is kept exactly when it is in the table and some selected tag is in its tag list; nothing is added. |
| `Filter.KeepPreservesOrder` | streamlit_app.py:120 | The mask never reorders rows: labels still strictly increase after filtering. |
| `Filter.KeepNoneMatching` | streamlit_app.py:120 | When no row carries a selected tag, the mask keeps nothing. |
| `Filter.FilterApps` | streamlit_app.py:119-122 | An empty selection returns the table unchanged; a non-empty one keeps exactly the rows carrying a selected tag. |
| `Filter.FilterFrame` | streamlit_app.py:119-122 | Filtering the catalog table yields records under their original labels in catalog order; record `i` is shown exactly when the selection is empty or shares a tag with it. |
| `Filter.KeepSelectionAsSet` | streamlit_app.py:120 | Two selections with the same tags give the same result, whatever their order or repeats. |
| `Filter.KeepIgnoresUnknownTag` | streamlit_app.py:120 | Adding a tag that no row carries to the selection changes nothing. |
| `Filter.UnknownSelectionIsEmpty` | streamlit_app.py:119-122 | A non-empty selection of tags no row carries keeps nothing; only the empty selection falls back to the whole table. |
| `Badges.StyleTags` | streamlit_app.py:125-126 | `style_tags([])` is the empty string. |
| `Badges.StyleTagsCons` | streamlit_app.py:126 | For two or more tags, the output is the first badge, one space, then the badges of the rest. |
| `Badges.StyleTagsSingle` | streamlit_app.py:126 | A single tag gives exactly its badge, with no separator. |
| `Badges.ParseStyleTagsList` | streamlit_app.py:125-126 | For a non-empty list of tags without `<`, the badge string reads back as exactly that list. |
| `Badges.ParseStyleTags` | streamlit_app.py:125-126 | Reading the output of `style_tags` back gives the original tag list, in order, when no tag contains `<`. |
| `Badges.StyleTagsOfParsed` | streamlit_app.py:125-126 | Every string the reader accepts is `style_tags` of the list it reads: one or more badges separated by single spaces. |
| `Badges.BadgesRoundTrip` | streamlit_app.py:125-126 | For tags without `<`, `style_tags(tags) == s` holds exactly when reading `s` gives `tags`. So the output has exactly `len(tags)` badges, in input order, separated by single spaces. |
| `Badges.MarkupInTagIsNotEscaped` | streamlit_app.py:126 | Tags are inserted verbatim: one tag holding `</span> <span class='tag'>` renders the same as two tags. |
| `Gallery.Render` | streamlit_app.py:119-164 | The "No apps found" notice appears exactly when no card is drawn. |
| `Gallery.RenderCards` | streamlit_app.py:119-159 | Each card shows a catalog record under its own label: that record's name, description, image, badges, app link and repository link, in column `label % 2`; cards come in catalog order. |
| `Gallery.UnfilteredColumnsAlternate` | streamlit_app.py:119-122 | With no selection every record is drawn, and card `k` has label `k` and column `k % 2`. |
| `Gallery.NoAppsMessageIff` | streamlit_app.py:163-164 | The notice appears exactly when the selection is empty and the catalog is empty, or the selection is non-empty and none of its tags is in `all_tags`. |
| `Gallery.RenderIgnoresUnknownTag` | streamlit_app.py:120 | Adding a tag outside `all_tags` to a non-empty selection leaves the page unchanged. |
| `Gallery.InColumn` | streamlit_app.py:151-153 | A column holds exactly the cards with that column number, and no more cards than were drawn. |
| `Gallery.InColumnSnoc` | streamlit_app.py:151-153 | An appended card goes to the end of its own column only; the other column is unchanged. |
| `Gallery.DrawColumns` | streamlit_app.py:149-160 | The drawing loop puts each card at the end of column `label % 2`, so each column gets its cards in table order and every card lands in one column. |
| `Scenarios.SelectAI` | streamlit_app.py:58-122 | Selecting `#AI` keeps GPT Lab, HugChat, rephraise and GPT-4 Auto Coder, under labels 0, 2, 4 and 5. |
| `Scenarios.SelectAIColumns` | streamlit_app.py:151-152 | Selecting `#AI` draws those four apps in columns 0, 0, 0, 1: three in the left column and one in the right. |
| `Scenarios.LowerCaseTagMatchesNothing` | streamlit_app.py:113-122 | An instance of `Filter.Matches` comparing tags by exact string equality: `#ai` is not in the shipped `all_tags`, so selecting it keeps no app and shows the notice. |
| `Scenarios.OptionsAlwaysShowApps` | streamlit_app.py:116-122 | Any non-empty selection drawn from the multi-select's options shows at least one app. |

## Left out

- The Streamlit calls are not modelled. These are the page configuration,
  navbar, logo, title, multi-select widget, column containers, images,
  subheaders, markdown links, the separator and the `info` box
  (streamlit_app.py:5-55, 116, 129-160, 164). They only render; the model
  keeps their inputs (`View`, `Card`) but not the drawing.
- The CSS and navbar HTML strings are not modelled: they are constants with
  no behaviour.
- pandas mechanics (streamlit_app.py:110) are replaced by a sequence of
  labelled rows. In pandas an empty catalog would have no `tags` column,
  so line 113 would fail. The model accepts any catalog and, for an empty
  one, shows the notice.
- The multi-select is not modelled as a widget. Any string list can be a
  selection, although the widget only offers `all_tags`;
  `Scenarios.OptionsAlwaysShowApps` covers the widget's case.
- No HTML escaping or validation of tags, names or URLs is modelled,
  because the source does none. `Badges.MarkupInTagIsNotEscaped` shows
  what follows from that.
- Badges.BadgesRoundTrip: stated only for tags without `<`. Without
  escaping, a tag holding markup can read as several badges, so no reader
  can invert `style_tags` on all inputs.
- Image and link resolution is not modelled: the browser and the hosting
  runtime do it.
- Free-text keyword search and snippet highlighting are not modelled:
  they are not part of this file.
