/**
 Tag badges: each tag becomes `<span class='tag'>TAG</span>` and the badges
 are joined with single spaces. Tags are inserted verbatim, without any
 HTML escaping. `ParseBadges` reads such a string back into its tag list; it
 is the inverse of `StyleTags` on tags that contain no `<`.
 */
module Badges {
  import opened Wrappers

  const Open: string := "<span class='tag'>"
  const Close: string := "</span>"

  /** One badge. */
  function Span(tag: string): string {
    Open + tag + Close
  }

  /** `sep.join(parts)`. */
  function Join(parts: seq<string>, sep: string): (r: string)
    ensures |parts| == 0 ==> r == ""
    ensures |parts| == 1 ==> r == parts[0]
  {
    if |parts| == 0 then ""
    else if |parts| == 1 then parts[0]
    else parts[0] + sep + Join(parts[1..], sep)
  }

  /** `style_tags(tags)`: the badges of `tags`, in order, separated by single spaces. */
  function StyleTags(tags: seq<string>): (r: string)
    ensures |tags| == 0 ==> r == ""
  {
    Join(Spans(tags), " ")
  }

  /** `[f"<span class='tag'>{tag}</span>" for tag in tags]`. */
  function Spans(tags: seq<string>): (spans: seq<string>)
    ensures |spans| == |tags|
    ensures forall i :: 0 <= i < |tags| ==> spans[i] == Span(tags[i])
  {
    seq(|tags|, i requires 0 <= i < |tags| => Span(tags[i]))
  }

  /** Tags that contain no `<`, the only ones a reader can tell apart from markup. */
  ghost predicate Plain(tags: seq<string>) {
    forall i :: 0 <= i < |tags| ==> '<' !in tags[i]
  }

  /** Position of the first `<` in `s`, or `|s|` if there is none. */
  function TagEnd(s: string): (k: nat)
    ensures k <= |s|
    ensures '<' !in s[..k]
    ensures k < |s| ==> s[k] == '<'
  {
    if |s| == 0 then 0
    else if s[0] == '<' then 0
    else
      var k := TagEnd(s[1..]);
      assert s[..k + 1] == [s[0]] + s[1..][..k];
      k + 1
  }

  lemma SpanThen(tag: string, tail: string)
    ensures Span(tag) + tail == Open + (tag + (Close + tail))
  {
  }

  /** Reads one leading badge: its tag and what follows the badge. */
  function ParseHead(s: string): (r: Option<(string, string)>)
    ensures r.Some? ==> s == Span(r.value.0) + r.value.1
    ensures r.Some? ==> '<' !in r.value.0
  {
    if |s| < |Open| || s[..|Open|] != Open then None
    else
      var rest := s[|Open|..];
      var k := TagEnd(rest);
      var after := rest[k..];
      if |after| < |Close| || after[..|Close|] != Close then None
      else
        var tag := rest[..k];
        var tail := after[|Close|..];
        assert s == Open + rest by {
          assert s == s[..|Open|] + rest;
        }
        assert rest == tag + after;
        assert after == Close + tail by {
          assert after == after[..|Close|] + tail;
        }
        SpanThen(tag, tail);
        Some((tag, tail))
  }

  /** Reads one or more space-separated badges covering all of `s`. */
  function ParseBadgeList(s: string): Option<seq<string>>
    decreases |s|
  {
    match ParseHead(s)
    case None => None
    case Some((tag, tail)) =>
      if |tail| == 0 then Some([tag])
      else if tail[0] != ' ' then None
      else
        match ParseBadgeList(tail[1..])
        case None => None
        case Some(ts) => Some([tag] + ts)
  }

  /** Reads the output of `StyleTags` back into a tag list. */
  function ParseBadges(s: string): Option<seq<string>> {
    if |s| == 0 then Some([]) else ParseBadgeList(s)
  }

  lemma StyleTagsCons(tags: seq<string>)
    requires |tags| >= 2
    ensures StyleTags(tags) == Span(tags[0]) + " " + StyleTags(tags[1..])
  {
    assert Spans(tags)[1..] == Spans(tags[1..]);
  }

  lemma TagEndStopsAtOpenBracket(t: string, u: string)
    requires '<' !in t
    requires |u| > 0 && u[0] == '<'
    ensures TagEnd(t + u) == |t|
  {
    var s := t + u;
    assert s[|t|] == '<';
    forall i | 0 <= i < |t|
      ensures s[i] != '<'
    {
      assert s[i] == t[i];
    }
  }

  /** The head of a badge followed by anything is that badge's tag. */
  lemma ParseHeadOfSpan(t: string, suffix: string)
    requires '<' !in t
    ensures ParseHead(Span(t) + suffix) == Some((t, suffix))
  {
    var s := Span(t) + suffix;
    assert s == Open + (t + (Close + suffix));
    assert Open <= s;
    var rest := s[|Open|..];
    assert rest == t + (Close + suffix);
    TagEndStopsAtOpenBracket(t, Close + suffix);
    assert rest[..|t|] == t;
    assert rest[|t|..] == Close + suffix;
    assert (Close + suffix)[|Close|..] == suffix;
  }

  /** Parsing undoes `StyleTags` on plain tags. */
  lemma {:induction false} ParseStyleTags(tags: seq<string>)
    requires Plain(tags)
    ensures ParseBadges(StyleTags(tags)) == Some(tags)
  {
    if |tags| > 0 {
      ParseStyleTagsList(tags);
    }
  }

  lemma ParseBadgeListOfSpan(t: string, suffix: string)
    requires '<' !in t
    ensures |suffix| == 0 ==> ParseBadgeList(Span(t) + suffix) == Some([t])
    ensures |suffix| > 0 && suffix[0] == ' ' && ParseBadgeList(suffix[1..]).Some? ==>
      ParseBadgeList(Span(t) + suffix) == Some([t] + ParseBadgeList(suffix[1..]).value)
  {
    ParseHeadOfSpan(t, suffix);
  }

  lemma ParseStyleTagsSingle(t: string)
    requires '<' !in t
    ensures ParseBadgeList(StyleTags([t])) == Some([t])
  {
    assert StyleTags([t]) == Span(t) + "";
    ParseBadgeListOfSpan(t, "");
  }

  lemma ParseSpanThenList(t: string, rest: string, ts: seq<string>)
    requires '<' !in t
    requires ParseBadgeList(rest) == Some(ts)
    ensures ParseBadgeList(Span(t) + " " + rest) == Some([t] + ts)
  {
    var suffix := " " + rest;
    assert Span(t) + " " + rest == Span(t) + suffix;
    assert suffix[1..] == rest;
    ParseBadgeListOfSpan(t, suffix);
  }

  lemma ParseStyleTagsCons(tags: seq<string>)
    requires |tags| >= 2 && '<' !in tags[0]
    requires ParseBadgeList(StyleTags(tags[1..])) == Some(tags[1..])
    ensures ParseBadgeList(StyleTags(tags)) == Some(tags)
  {
    var t, tail := tags[0], tags[1..];
    StyleTagsCons(tags);
    ParseSpanThenList(t, StyleTags(tail), tail);
    assert [t] + tail == tags;
  }

  lemma {:induction false} ParseStyleTagsList(tags: seq<string>)
    requires |tags| > 0 && Plain(tags)
    ensures ParseBadgeList(StyleTags(tags)) == Some(tags)
  {
    assert '<' !in tags[0];
    if |tags| == 1 {
      ParseStyleTagsSingle(tags[0]);
      assert tags == [tags[0]];
    } else {
      var tail := tags[1..];
      assert Plain(tail) by {
        forall i | 0 <= i < |tail| ensures '<' !in tail[i] {
          assert tail[i] == tags[i + 1];
        }
      }
      ParseStyleTagsList(tail);
      ParseStyleTagsCons(tags);
    }
  }

  lemma StyleTagsOfParsedCons(t: string, tail: string, ts: seq<string>)
    requires |tail| > 0 && tail[0] == ' '
    requires StyleTags(ts) == tail[1..] && |ts| > 0
    ensures StyleTags([t] + ts) == Span(t) + tail
  {
    var tags := [t] + ts;
    assert tags[0] == t && tags[1..] == ts;
    StyleTagsCons(tags);
    assert tail == " " + tail[1..];
    ConcatAssoc(Span(t), " ", tail[1..]);
  }

  lemma ConcatAssoc(a: string, b: string, c: string)
    ensures a + b + c == a + (b + c)
  {
  }

  /** One step of `ParseBadgeList`, as a fact about its result. */
  lemma ParseBadgeListStep(s: string, tags: seq<string>)
    requires ParseBadgeList(s) == Some(tags)
    ensures ParseHead(s).Some?
    ensures var (t, tail) := ParseHead(s).value;
      || (|tail| == 0 && tags == [t])
      || (|tail| > 0 && tail[0] == ' ' && ParseBadgeList(tail[1..]).Some? &&
          tags == [t] + ParseBadgeList(tail[1..]).value)
  {
  }

  /** Whatever parses was produced by `StyleTags`, from plain tags. */
  lemma {:induction false} StyleTagsOfParsed(s: string, tags: seq<string>)
    requires ParseBadgeList(s) == Some(tags)
    ensures |tags| > 0 && Plain(tags)
    ensures StyleTags(tags) == s
    decreases |s|
  {
    ParseBadgeListStep(s, tags);
    var (t, tail) := ParseHead(s).value;
    if |tail| == 0 {
      StyleTagsSingle(t);
      assert s == Span(t) + "";
    } else {
      var ts := ParseBadgeList(tail[1..]).value;
      StyleTagsOfParsed(tail[1..], ts);
      StyleTagsOfParsedCons(t, tail, ts);
      PlainCons(t, ts);
    }
  }

  lemma StyleTagsSingle(t: string)
    ensures StyleTags([t]) == Span(t)
  {
  }

  lemma PlainCons(t: string, ts: seq<string>)
    requires '<' !in t && Plain(ts)
    ensures Plain([t] + ts)
  {
    var tags := [t] + ts;
    forall i | 0 <= i < |tags| ensures '<' !in tags[i] {
      if i > 0 {
        assert tags[i] == ts[i - 1];
      }
    }
  }

  /** `ParseBadges` and `StyleTags` are inverse bijections between plain tag lists and their badge strings. */
  lemma BadgesRoundTrip(s: string, tags: seq<string>)
    ensures Plain(tags) && StyleTags(tags) == s <==> ParseBadges(s) == Some(tags)
  {
    if Plain(tags) && StyleTags(tags) == s {
      ParseStyleTags(tags);
    }
    if ParseBadges(s) == Some(tags) {
      if |s| == 0 {
        assert tags == [];
      } else {
        StyleTagsOfParsed(s, tags);
      }
    }
  }

  /** A tag holding markup can read as two tags: nothing is escaped. */
  lemma MarkupInTagIsNotEscaped(a: string, b: string)
    ensures StyleTags([a + Close + " " + Open + b]) == StyleTags([a, b])
  {
    StyleTagsCons([a, b]);
    assert [a, b][1..] == [b];
    assert Span(a + Close + " " + Open + b) == Span(a) + " " + Span(b);
  }
}
