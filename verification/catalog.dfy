/**
 The gallery's catalog: a fixed, ordered list of app records, the table
 built from it (each row carries the index label 0..n-1 it was given when
 the table was built), and the tag vocabulary offered by the tag selector.
 */
module Catalog {
  import opened Strings
  import opened Sorting

  /** One entry of the catalog. */
  datatype App = App(
    name: string,
    description: string,
    image: string,
    link: string,
    repo: string,
    tags: seq<string>)

  /** A table row: the record together with its index label. */
  datatype Row = Row(index: nat, app: App)

  /** The six hard-coded records, in their source order. */
  const Apps: seq<App> :=
    [ App("GPT Lab",
          "Interactively explore data with GPT Lab, focusing on NYC Uber pickups.",
          "images/GPTLab.png",
          "https://gptlab.streamlit.app/",
          "https://github.com/dclin/gptlab-streamlit",
          ["#LLM", "#AI"]),
      App("Ask my PDF",
          "Explore data by uploading your PDFs and turning them into interactive dataframes.",
          "images/AskMyPDF.png",
          "https://ask-my-pdf.streamlit.app/",
          "https://github.com/mobarski/ask-my-pdf",
          ["#Data", "#Finance"]),
      App("HugChat",
          "Analyze live crypto data using the Binance API and visualizing trends.",
          "images/HugChat.png",
          "https://hugchat.streamlit.app/",
          "https://github.com/dataprofessor/hugchat",
          ["#Crypto", "#AI"]),
      App("KnowledgeGPT",
          "Explore knowledge bases interactively with KnowledgeGPT.",
          "images/KnowledgeGPT.png",
          "https://knowledgegpt.streamlit.app/",
          "https://github.com/mmz-001/knowledge_gpt",
          ["#NLP", "#Knowledge"]),
      App("rephraise",
          "Generate paraphrased emails and content using AI.",
          "images/rephraise.png",
          "https://stefanrmmr-gpt3-email-generator-streamlit-app-ku3fbq.streamlit.app/",
          "https://github.com/stefanrmmr/GPT_email_generator",
          ["#AI", "#Content"]),
      App("GPT-4 Auto Coder",
          "Automatically generate code with GPT-4 based on user input.",
          "images/gpt-4-auto-coder.png",
          "https://gpt4autocoder.streamlit.app/",
          "https://github.com/echohive42/gpt4_autocoder",
          ["#Coding", "#AI", "#Automation"])
    ]

  /** Rows are labelled 0..n-1 in catalog order. */
  function Frame(apps: seq<App>): (rows: seq<Row>)
    ensures |rows| == |apps|
    ensures forall k :: 0 <= k < |rows| ==> rows[k] == Row(k, apps[k])
  {
    seq(|apps|, k requires 0 <= k < |apps| => Row(k, apps[k]))
  }

  /** Some record of `apps` lists `t` among its tags. */
  ghost predicate Tagged(apps: seq<App>, t: string) {
    exists a :: a in apps && t in a.tags
  }

  /** Every tag of every record, record by record, duplicates kept. */
  function FlatTags(apps: seq<App>): (r: seq<string>)
    ensures forall t :: t in r <==> Tagged(apps, t)
  {
    if |apps| == 0 then []
    else
      var rest := FlatTags(apps[1..]);
      assert forall t :: Tagged(apps, t) <==> t in apps[0].tags || Tagged(apps[1..], t) by {
        forall t ensures Tagged(apps, t) <==> t in apps[0].tags || Tagged(apps[1..], t) {
          if Tagged(apps, t) {
            var a :| a in apps && t in a.tags;
            if a != apps[0] {
              assert a in apps[1..];
            }
          }
          if Tagged(apps[1..], t) {
            var a :| a in apps[1..] && t in a.tags;
            assert a in apps;
          }
        }
      }
      apps[0].tags + rest
  }

  /** The selector's options: the distinct tags of the catalog, ascending. */
  function AllTags(apps: seq<App>): (r: seq<string>)
    ensures StrictlyAscending(r)
    ensures forall t :: t in r <==> Tagged(apps, t)
  {
    SortedUnique(FlatTags(apps))
  }

  /** The vocabulary of the shipped catalog, written out. */
  function Vocabulary(): seq<string> {
    ["#AI", "#Automation", "#Coding", "#Content", "#Crypto",
     "#Data", "#Finance", "#Knowledge", "#LLM", "#NLP"]
  }

  lemma VocabularyAscending()
    ensures StrictlyAscending(Vocabulary())
  {
    VocabularyAdjacentLow();
    VocabularyAdjacentHigh();
    AdjacentIsStrict(Vocabulary());
  }

  lemma VocabularyAdjacentLow()
    ensures forall i :: 0 <= i < 5 ==> Less(Vocabulary()[i], Vocabulary()[i + 1])
  {
    var v := Vocabulary();
    assert Less(v[0], v[1]);
    assert Less(v[1], v[2]);
    assert Less(v[2], v[3]);
    assert Less(v[3], v[4]);
    assert Less(v[4], v[5]);
  }

  lemma VocabularyAdjacentHigh()
    ensures forall i :: 5 <= i < 9 ==> Less(Vocabulary()[i], Vocabulary()[i + 1])
  {
    var v := Vocabulary();
    assert Less(v[5], v[6]);
    assert Less(v[6], v[7]);
    assert Less(v[7], v[8]);
    assert Less(v[8], v[9]);
  }

  lemma FlatTagsOfThree(apps: seq<App>)
    requires |apps| == 3
    ensures FlatTags(apps) == apps[0].tags + (apps[1].tags + apps[2].tags)
  {
    assert apps[2..][1..] == [];
    assert FlatTags(apps[2..]) == apps[2].tags + [];
    assert apps[1..][1..] == apps[2..];
    assert FlatTags(apps[1..]) == apps[1].tags + FlatTags(apps[2..]);
  }

  lemma FlatTagsOfSix(apps: seq<App>)
    requires |apps| == 6
    ensures FlatTags(apps) ==
      apps[0].tags + (apps[1].tags + (apps[2].tags +
        (apps[3].tags + (apps[4].tags + apps[5].tags))))
  {
    FlatTagsOfThree(apps[3..]);
    assert apps[3..] == apps[2..][1..] && apps[2..] == apps[1..][1..];
    assert FlatTags(apps[2..]) == apps[2].tags + FlatTags(apps[3..]);
    assert FlatTags(apps[1..]) == apps[1].tags + FlatTags(apps[2..]);
  }

  /** The shipped records' tag lists, concatenated in catalog order. */
  lemma CatalogFlatTags()
    ensures FlatTags(Apps) ==
      ["#LLM", "#AI"] + (["#Data", "#Finance"] + (["#Crypto", "#AI"] +
        (["#NLP", "#Knowledge"] + (["#AI", "#Content"] + ["#Coding", "#AI", "#Automation"]))))
  {
    FlatTagsOfSix(Apps);
  }

  /** The tags occurring in the shipped records are those of the vocabulary. */
  lemma VocabularyHoldsTagLists()
    ensures forall t ::
      t in ["#LLM", "#AI"] + (["#Data", "#Finance"] + (["#Crypto", "#AI"] +
        (["#NLP", "#Knowledge"] + (["#AI", "#Content"] + ["#Coding", "#AI", "#Automation"]))))
      <==> t in Vocabulary()
  {
  }

  /** `all_tags` for the shipped catalog. */
  lemma CatalogTags()
    ensures AllTags(Apps) == Vocabulary()
  {
    CatalogFlatTags();
    VocabularyHoldsTagLists();
    AllTagsOfTagLists(Apps);
  }

  lemma AllTagsOfTagLists(apps: seq<App>)
    requires forall t :: t in FlatTags(apps) <==> t in Vocabulary()
    ensures AllTags(apps) == Vocabulary()
  {
    VocabularyAscending();
    AscendingUnique(AllTags(apps), Vocabulary());
  }
}
