/** `_calculate_relevance_score`: per query word, 2 points for every searched
    field in which it is a whole word and 1 point for one in which it is only a
    substring, divided by the number of words in the searched fields. The
    source computes in floating point; here the score is an exact `real`. */
module Relevance {
  import opened Text

  /** Points one query word earns in one lower-cased field text. */
  function WordHit(queryWord: string, text: string): (points: nat)
    ensures points <= 2
    ensures points > 0 <==> IsSubstring(queryWord, text)
  {
    if IsSubstring(queryWord, text) then (if queryWord in Words(text) then 2 else 1) else 0
  }

  /** Points all query words earn in one field text. */
  function FieldHits(queryWords: seq<string>, text: string): (points: nat) {
    if queryWords == [] then 0
    else FieldHits(queryWords[..|queryWords| - 1], text) + WordHit(queryWords[|queryWords| - 1], text)
  }

  /** The lower-cased texts of the fields that are searched: an empty field is
      skipped (`if field in item and item[field]`). */
  function SearchedTexts(fields: seq<string>): (texts: seq<string>) {
    if fields == [] then []
    else
      var last := fields[|fields| - 1];
      SearchedTexts(fields[..|fields| - 1]) + (if last != "" then [Lower(last)] else [])
  }

  function TotalWords(texts: seq<string>): (count: nat) {
    if texts == [] then 0 else TotalWords(texts[..|texts| - 1]) + |Words(texts[|texts| - 1])|
  }

  function TotalHits(queryWords: seq<string>, texts: seq<string>): (points: nat) {
    if texts == [] then 0
    else TotalHits(queryWords, texts[..|texts| - 1]) + FieldHits(queryWords, texts[|texts| - 1])
  }

  /** The score of an item whose searched field values are `fields`. */
  function RelevanceScore(queryWords: seq<string>, fields: seq<string>): (score: real)
    ensures score >= 0.0
    ensures TotalWords(SearchedTexts(fields)) == 0 ==> score == 0.0
  {
    var texts := SearchedTexts(fields);
    var total := TotalWords(texts);
    if total > 0 then TotalHits(queryWords, texts) as real / total as real else 0.0
  }

  /** The loop of `_calculate_relevance_score`, accumulating the points and
      the word count field by field. */
  method CalculateRelevanceScore(queryWords: seq<string>, fields: seq<string>) returns (score: real)
    ensures score == RelevanceScore(queryWords, fields)
  {
    var hits: nat := 0;
    var total: nat := 0;
    for i := 0 to |fields|
      invariant hits == TotalHits(queryWords, SearchedTexts(fields[..i]))
      invariant total == TotalWords(SearchedTexts(fields[..i]))
    {
      SearchedStep(fields, i);
      if fields[i] != "" {
        var text := Lower(fields[i]);
        var words := Words(text);
        TotalsStep(queryWords, SearchedTexts(fields[..i]), text);
        total := total + |words|;
        ghost var before := hits;
        for j := 0 to |queryWords|
          invariant hits == before + FieldHits(queryWords[..j], text)
        {
          assert queryWords[..j + 1][..j] == queryWords[..j];
          if IsSubstring(queryWords[j], text) {
            hits := hits + if queryWords[j] in words then 2 else 1;
          }
        }
        assert queryWords[..|queryWords|] == queryWords;
      } else {
        assert SearchedTexts(fields[..i + 1]) == SearchedTexts(fields[..i]);
      }
    }
    assert fields[..|fields|] == fields;
    var divisor := if total > 1 then total else 1;
    assert total > 0 ==> divisor == total;
    score := if total > 0 then hits as real / divisor as real else 0.0;
  }

  lemma SearchedStep(fields: seq<string>, i: nat)
    requires i < |fields|
    ensures SearchedTexts(fields[..i + 1])
      == SearchedTexts(fields[..i]) + (if fields[i] != "" then [Lower(fields[i])] else [])
  {
    assert fields[..i + 1][..i] == fields[..i];
  }

  lemma TotalsStep(queryWords: seq<string>, texts: seq<string>, text: string)
    ensures TotalHits(queryWords, texts + [text]) == TotalHits(queryWords, texts) + FieldHits(queryWords, text)
    ensures TotalWords(texts + [text]) == TotalWords(texts) + |Words(text)|
  {
    assert (texts + [text])[..|texts|] == texts;
  }

  lemma {:induction false} FieldHitsPositive(queryWords: seq<string>, text: string)
    ensures FieldHits(queryWords, text) > 0 <==> exists qw :: qw in queryWords && IsSubstring(qw, text)
  {
    if queryWords != [] {
      var init := queryWords[..|queryWords| - 1];
      var last := queryWords[|queryWords| - 1];
      FieldHitsPositive(init, text);
      assert FieldHits(queryWords, text) == FieldHits(init, text) + WordHit(last, text);
      if exists qw :: qw in queryWords && IsSubstring(qw, text) {
        var qw :| qw in queryWords && IsSubstring(qw, text);
        if qw != last {
          assert qw in init;
        }
      }
      if FieldHits(queryWords, text) > 0 && WordHit(last, text) > 0 {
        assert last in queryWords && IsSubstring(last, text);
      }
    }
  }

  lemma {:induction false} TotalHitsPositive(queryWords: seq<string>, texts: seq<string>)
    ensures TotalHits(queryWords, texts) > 0 <==>
      exists qw, t :: qw in queryWords && t in texts && IsSubstring(qw, t)
  {
    if texts != [] {
      var init := texts[..|texts| - 1];
      var last := texts[|texts| - 1];
      TotalHitsPositive(queryWords, init);
      FieldHitsPositive(queryWords, last);
      assert forall t :: t in texts <==> t in init || t == last;
    }
  }

  lemma {:induction false} WordsCounted(texts: seq<string>, t: string)
    requires t in texts && |Words(t)| > 0
    ensures TotalWords(texts) > 0
  {
    var init := texts[..|texts| - 1];
    if t != texts[|texts| - 1] {
      WordsCounted(init, t);
    }
  }

  /** An item scores above zero exactly when some query word occurs in one of
      its non-empty, lower-cased fields; query words are words, as the
      tokeniser produces them. So `search_memory` keeps exactly such items. */
  lemma ScorePositiveIffMatch(queryWords: seq<string>, fields: seq<string>)
    requires forall qw :: qw in queryWords ==> IsWord(qw)
    ensures RelevanceScore(queryWords, fields) > 0.0 <==>
      exists qw, t :: qw in queryWords && t in SearchedTexts(fields) && IsSubstring(qw, t)
  {
    var texts := SearchedTexts(fields);
    var hits := TotalHits(queryWords, texts);
    var total := TotalWords(texts);
    TotalHitsPositive(queryWords, texts);
    if qw, t :| qw in queryWords && t in texts && IsSubstring(qw, t) {
      SubstringWordGivesWord(qw, t);
      WordsCounted(texts, t);
      PositiveRatio(hits, total);
    } else if total > 0 {
      PositiveRatio(hits, total);
    }
  }

  lemma PositiveRatio(hits: nat, total: nat)
    requires total > 0
    ensures hits as real / total as real > 0.0 <==> hits > 0
  {
  }

  /** With no query words (an empty or punctuation-only query) nothing scores. */
  lemma {:induction false} NoQueryWordsNoScore(fields: seq<string>)
    ensures RelevanceScore([], fields) == 0.0
  {
    TotalHitsPositive([], SearchedTexts(fields));
  }
}
