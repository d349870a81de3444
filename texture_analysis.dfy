/** The text-processing part of src/data_process/TextureAnalysis.py, on an
    already tokenised word list: stop-word filtering, the word-frequency
    table, tag selection and the mode dispatch of `analysis`. Tokenisation,
    the TF-IDF weights, the stop-word file and `str.isnumeric` are inputs. */
module Texts {
  import opened Wrappers
  import opened PyStrings
  import opened StableSort

  // ---------------------------------------------------------------------
  // Stop-word filtering

  /** A token survives `clean_text` when, for every stop word, neither string
      occurs in the other. */
  predicate Kept(word: string, stopwords: set<string>)
  {
    forall stopword | stopword in stopwords :: !(word == stopword || Contains(stopword, word) || Contains(word, stopword))
  }

  /** The tokens that survive, in order, with their repetitions. */
  function FilterKept(words: seq<string>, stopwords: set<string>): (r: seq<string>)
    decreases |words|
  {
    if words == [] then []
    else
      var w := words[|words| - 1];
      FilterKept(words[..|words| - 1], stopwords) + (if Kept(w, stopwords) then [w] else [])
  }

  /** `a` is `b` with some elements dropped. */
  predicate IsSubsequence<T(==)>(a: seq<T>, b: seq<T>)
    decreases |b|
  {
    a == [] || (b != [] && if a[|a| - 1] == b[|b| - 1] then IsSubsequence(a[..|a| - 1], b[..|b| - 1])
                          else IsSubsequence(a, b[..|b| - 1]))
  }

  /** Filtering keeps only kept tokens. */
  lemma {:induction false} FilterKeptOnlyKept(words: seq<string>, stopwords: set<string>)
    ensures forall w | w in FilterKept(words, stopwords) :: Kept(w, stopwords)
    decreases |words|
  {
    if words != [] {
      FilterKeptOnlyKept(words[..|words| - 1], stopwords);
    }
  }

  /** Filtering keeps every kept token as often as it occurs, and no other. */
  lemma {:induction false} FilterKeptCounts(words: seq<string>, stopwords: set<string>)
    ensures forall w :: multiset(FilterKept(words, stopwords))[w] == if Kept(w, stopwords) then multiset(words)[w] else 0
    decreases |words|
  {
    if words != [] {
      var prefix := words[..|words| - 1];
      FilterKeptCounts(prefix, stopwords);
      assert words == prefix + [words[|words| - 1]];
    }
  }

  /** Filtering keeps the surviving tokens in their original order. */
  lemma {:induction false} FilterKeptInOrder(words: seq<string>, stopwords: set<string>)
    ensures IsSubsequence(FilterKept(words, stopwords), words)
    decreases |words|
  {
    if words != [] {
      var prefix := words[..|words| - 1];
      var w := words[|words| - 1];
      FilterKeptInOrder(prefix, stopwords);
      assert words == prefix + [w];
      var r := FilterKept(words, stopwords);
      if Kept(w, stopwords) {
        assert r[..|r| - 1] == FilterKept(prefix, stopwords);
      } else {
        assert r == FilterKept(prefix, stopwords);
        SubsequenceOfPrefix(r, prefix, w);
      }
    }
  }

  lemma {:induction false} SubsequenceOfPrefix<T>(a: seq<T>, b: seq<T>, x: T)
    requires IsSubsequence(a, b)
    ensures IsSubsequence(a, b + [x])
    decreases |b|, 1
  {
    assert (b + [x])[..|b + [x]| - 1] == b;
    if a != [] && a[|a| - 1] == x {
      DropLast(a, b);
    }
  }

  lemma {:induction false} DropLast<T>(a: seq<T>, b: seq<T>)
    requires a != [] && IsSubsequence(a, b)
    ensures IsSubsequence(a[..|a| - 1], b)
    decreases |b|, 0
  {
    var b' := b[..|b| - 1];
    assert b' + [b[|b| - 1]] == b;
    if a[|a| - 1] != b[|b| - 1] {
      DropLast(a, b');
    }
    SubsequenceOfPrefix(a[..|a| - 1], b', b[|b| - 1]);
  }

  /** A stop word that is the empty string (a blank line of the stop-word
      file) occurs in every token, so every token is dropped. */
  lemma {:induction false} EmptyStopwordDropsAll(words: seq<string>, stopwords: set<string>)
    requires "" in stopwords
    ensures FilterKept(words, stopwords) == []
    decreases |words|
  {
    if words != [] {
      ContainsTrivial(words[|words| - 1]);
      EmptyStopwordDropsAll(words[..|words| - 1], stopwords);
    }
  }

  lemma {:induction false} PrefixIsSubsequence<T>(a: seq<T>, b: seq<T>, n: nat)
    requires IsSubsequence(a, b) && n <= |a|
    ensures IsSubsequence(a[..n], b)
    decreases |a| - n
  {
    if n < |a| {
      PrefixIsSubsequence(a, b, n + 1);
      DropLast(a[..n + 1], b);
      assert a[..n + 1][..n] == a[..n];
    } else {
      assert a[..n] == a;
    }
  }

  // ---------------------------------------------------------------------
  // The word-frequency table

  /** The keys of the frequency dict in insertion order: each word of length
      other than 1, at its first occurrence. */
  function FirstOccurrences(words: seq<string>): (r: seq<string>)
    ensures forall w :: w in r <==> w in words && |w| != 1
    ensures forall i, j | 0 <= i < j < |r| :: r[i] != r[j]
    decreases |words|
  {
    if words == [] then []
    else
      var prev := FirstOccurrences(words[..|words| - 1]);
      var w := words[|words| - 1];
      assert words == words[..|words| - 1] + [w];
      if |w| != 1 && w !in prev then prev + [w] else prev
  }

  /** The index of the first occurrence of `w`. */
  function FirstIndex(words: seq<string>, w: string): (i: nat)
    requires w in words
    ensures i < |words| && words[i] == w && w !in words[..i]
  {
    if words[0] == w then 0
    else
      var k := FirstIndex(words[1..], w);
      assert words[..k + 1] == [words[0]] + words[1..][..k];
      k + 1
  }

  lemma FirstIndexUnique(words: seq<string>, w: string, i: nat)
    requires i < |words| && words[i] == w && w !in words[..i]
    ensures FirstIndex(words, w) == i
  {
    var k := FirstIndex(words, w);
    forall a | 0 <= a < i ensures words[a] != w {
      assert words[a] == words[..i][a];
    }
    forall a | 0 <= a < k ensures words[a] != w {
      assert words[a] == words[..k][a];
    }
  }

  /** The dict's keys come in the order of their first occurrences, which is
      the order the sort keeps among equal counts. */
  lemma {:induction false} FirstOccurrencesInOrder(words: seq<string>)
    ensures forall i, j | 0 <= i < j < |FirstOccurrences(words)| ::
              FirstIndex(words, FirstOccurrences(words)[i]) < FirstIndex(words, FirstOccurrences(words)[j])
    decreases |words|
  {
    if words != [] {
      var init := words[..|words| - 1];
      var w := words[|words| - 1];
      assert words == init + [w];
      var prev := FirstOccurrences(init);
      FirstOccurrencesInOrder(init);
      forall x | x in prev ensures FirstIndex(words, x) == FirstIndex(init, x) < |init| {
        var i := FirstIndex(init, x);
        assert words[..i] == init[..i];
        FirstIndexUnique(words, x, i);
      }
      if |w| != 1 && w !in prev {
        assert words[..|init|] == init;
        FirstIndexUnique(words, w, |init|);
      }
    }
  }

  lemma FirstOccurrencesAppend(words: seq<string>, w: string)
    ensures FirstOccurrences(words + [w])
         == if |w| != 1 && w !in FirstOccurrences(words) then FirstOccurrences(words) + [w] else FirstOccurrences(words)
  {
    assert (words + [w])[..|words + [w]| - 1] == words;
  }

  /** The dict items: each word with its number of occurrences. */
  function Tabulate(keys: seq<string>, words: seq<string>): (r: seq<Entry>)
    ensures |r| == |keys|
    ensures forall i | 0 <= i < |r| :: r[i] == Entry(keys[i], multiset(words)[keys[i]])
  {
    seq(|keys|, i requires 0 <= i < |keys| => Entry(keys[i], multiset(words)[keys[i]]))
  }

  /** The dict `get_words_frequency` returns, as its sequence of items. */
  function FrequencyTable(words: seq<string>): (r: seq<Entry>)
    ensures SortedDesc(r)
    ensures forall i | 0 <= i < |r| :: |r[i].word| != 1 && r[i].count == multiset(words)[r[i].word] > 0
    ensures forall w | w in words && |w| != 1 :: Entry(w, multiset(words)[w]) in r
    ensures forall c: nat :: WithCount(r, c) == WithCount(Tabulate(FirstOccurrences(words), words), c)
  {
    var keys := FirstOccurrences(words);
    var items := Tabulate(keys, words);
    var r := SortByCountDesc(items);
    SortIsStable(items);
    forall i | 0 <= i < |r| ensures |r[i].word| != 1 && r[i].count == multiset(words)[r[i].word] > 0 {
      assert r[i] in multiset(r);
      assert r[i] in items;
    }
    forall w | w in words && |w| != 1 ensures Entry(w, multiset(words)[w]) in r {
      var k :| 0 <= k < |keys| && keys[k] == w;
      assert items[k] in multiset(items);
    }
    r
  }

  /** The counting dict after the words `prefix`: its keys in insertion order and its counts. */
  ghost predicate Tallied(prefix: seq<string>, keys: seq<string>, counts: map<string, nat>)
  {
    && keys == FirstOccurrences(prefix)
    && (forall w :: w in counts <==> w in keys)
    && (forall w | w in counts :: counts[w] == multiset(prefix)[w])
  }

  /** One iteration of the counting loop keeps the dict tallied. */
  lemma TallyStep(prefix: seq<string>, word: string, keys: seq<string>, counts: map<string, nat>,
                  keys': seq<string>, counts': map<string, nat>)
    requires Tallied(prefix, keys, counts)
    requires |word| == 1 ==> keys' == keys && counts' == counts
    requires |word| != 1 ==> keys' == (if word in counts then keys else keys + [word])
    requires |word| != 1 ==> counts' == counts[word := (if word in counts then counts[word] else 0) + 1]
    ensures Tallied(prefix + [word], keys', counts')
  {
    FirstOccurrencesAppend(prefix, word);
  }

  /** The items of a dict that maps each first-occurring word to its count are the tabulation. */
  lemma CountedItems(words: seq<string>, keys: seq<string>, counts: map<string, nat>, items: seq<Entry>)
    requires Tallied(words, keys, counts)
    requires |items| == |keys| && forall j | 0 <= j < |keys| :: items[j] == Entry(keys[j], counts[keys[j]])
    ensures items == Tabulate(FirstOccurrences(words), words)
  {
  }

  lemma FrequencyTableSortsItems(words: seq<string>)
    ensures FrequencyTable(words) == SortByCountDesc(Tabulate(FirstOccurrences(words), words))
  {
  }

  /** The keys of a table, in order. */
  function Words<V>(items: seq<(string, V)>): (r: seq<string>)
    ensures |r| == |items| && forall i | 0 <= i < |r| :: r[i] == items[i].0
  {
    seq(|items|, i requires 0 <= i < |items| => items[i].0)
  }

  function EntryWords(es: seq<Entry>): (r: seq<string>)
    ensures |r| == |es| && forall i | 0 <= i < |r| :: r[i] == es[i].word
  {
    seq(|es|, i requires 0 <= i < |es| => es[i].word)
  }

  // ---------------------------------------------------------------------
  // Tags

  /** `words_filter`: the weight-table words that are not numeric and do not contain "http". */
  predicate Eligible(w: string, weightWords: seq<string>, isNumeric: string -> bool)
  {
    w in weightWords && !isNumeric(w) && !Contains(w, "http")
  }

  /** `[word for word in words_frequency if word in words_filter]`. */
  function Candidates(table: seq<string>, weightWords: seq<string>, isNumeric: string -> bool): (r: seq<string>)
    ensures forall w | w in r :: Eligible(w, weightWords, isNumeric)
    ensures forall w | w in table && Eligible(w, weightWords, isNumeric) :: w in r
    ensures IsSubsequence(r, table)
    decreases |table|
  {
    if table == [] then []
    else
      var prefix := table[..|table| - 1];
      var w := table[|table| - 1];
      var prev := Candidates(prefix, weightWords, isNumeric);
      assert table == prefix + [w];
      SubsequenceOfPrefix(prev, prefix, w);
      if Eligible(w, weightWords, isNumeric) then
        assert (prev + [w])[..|prev + [w]| - 1] == prev;
        prev + [w]
      else prev
  }

  /** Python's `s[:n]`: a negative `n` counts from the end. */
  function SliceTo<T>(s: seq<T>, n: int): (r: seq<T>)
    requires n <= |s|
    ensures n >= 0 ==> |r| == n
    ensures n < 0 ==> |r| == if |s| + n > 0 then |s| + n else 0
    ensures r == s[..|r|]
    ensures forall x | x in r :: x in s
    ensures n == |s| ==> r == s
  {
    if n >= 0 then s[..n] else if |s| + n > 0 then s[..|s| + n] else []
  }

  lemma SliceToSubsequence<T>(s: seq<T>, b: seq<T>, n: int)
    requires n <= |s| && IsSubsequence(s, b)
    ensures IsSubsequence(SliceTo(s, n), b)
  {
    PrefixIsSubsequence(s, b, |SliceTo(s, n)|);
  }

  /** `tags` before truncation: the frequency-table words that pass
      `words_filter`, given the weight table. */
  function TagCandidates(cleaned: seq<string>, weights: seq<(string, real)>, isNumeric: string -> bool): seq<string>
  {
    Candidates(EntryWords(FrequencyTable(cleaned)), Words(weights), isNumeric)
  }

  /** `get_tags(cleaned_wordlist, tag_number)`. `tfidf` stands for
      `get_words_weight`, None being the ValueError it raises on an empty
      vocabulary, and `isNumeric` for `str.isnumeric`. The tags are the
      leading `min(tag_number, len(tags))` candidates, a negative bound
      counting from the end as Python's slice does. */
  function GetTags(cleaned: seq<string>, tagNumber: int, tfidf: seq<string> -> Option<seq<(string, real)>>,
                   isNumeric: string -> bool): (tags: Option<seq<string>>)
    ensures tags.None? <==> tfidf(cleaned).None?
    ensures tags.Some? ==>
              var c := TagCandidates(cleaned, tfidf(cleaned).value, isNumeric);
              && (0 <= tagNumber ==> tags.value == c[..if tagNumber < |c| then tagNumber else |c|])
              && (tagNumber < 0 ==> tags.value == c[..if |c| + tagNumber > 0 then |c| + tagNumber else 0])
    ensures tags.Some? ==> forall w | w in tags.value :: Eligible(w, Words(tfidf(cleaned).value), isNumeric)
    ensures tags.Some? ==> IsSubsequence(tags.value, EntryWords(FrequencyTable(cleaned)))
  {
    match tfidf(cleaned)
    case None => None
    case Some(weights) =>
      var candidates := TagCandidates(cleaned, weights, isNumeric);
      var n := if tagNumber < |candidates| then tagNumber else |candidates|;
      SliceToSubsequence(candidates, EntryWords(FrequencyTable(cleaned)), n);
      Some(SliceTo(candidates, n))
  }

  /** When `tag_number` is at least the number of eligible words, every
      eligible word of the frequency table is a tag. */
  lemma AllTagsWhenEnoughRoom(cleaned: seq<string>, tagNumber: int, weights: seq<(string, real)>,
                              tfidf: seq<string> -> Option<seq<(string, real)>>, isNumeric: string -> bool, w: string)
    requires tfidf(cleaned) == Some(weights)
    requires tagNumber >= |TagCandidates(cleaned, weights, isNumeric)|
    requires w in cleaned && |w| != 1 && Eligible(w, Words(weights), isNumeric)
    ensures GetTags(cleaned, tagNumber, tfidf, isNumeric).Some?
    ensures w in GetTags(cleaned, tagNumber, tfidf, isNumeric).value
  {
    var table := FrequencyTable(cleaned);
    var e := Entry(w, multiset(cleaned)[w]);
    assert e in table;
    var k :| 0 <= k < |table| && table[k] == e;
    assert EntryWords(table)[k] == w;
    var c := TagCandidates(cleaned, weights, isNumeric);
    assert c[..|c|] == c;
  }

  // ---------------------------------------------------------------------
  // The analyser

  /** What `analysis` returns in each mode. */
  datatype Analysed = Tags(tags: seq<string>) | Frequency(table: seq<Entry>) | Weight(weights: seq<(string, real)>)

  /** The ValueErrors of `analysis`: an unknown mode, or the empty
      vocabulary `get_words_weight` rejects in the "tag" and "weight" modes. */
  datatype AnalysisError = InvalidMode(mode: string) | EmptyVocabulary

  /** The stop words read from the lines of a stop-word file. */
  function StrippedLines(lines: seq<string>): set<string>
  {
    set line | line in lines :: Strip(line)
  }

  lemma StrippedLinesAppend(lines: seq<string>, line: string)
    ensures StrippedLines(lines + [line]) == StrippedLines(lines) + {Strip(line)}
  {
    assert forall l | l in lines + [line] :: l in lines || l == line;
  }

  /** Reading line `i` adds its stripped form to the stop words of the lines before it. */
  lemma StrippedLinesPrefix(lines: seq<string>, i: nat)
    requires i < |lines|
    ensures StrippedLines(lines[..i + 1]) == StrippedLines(lines[..i]) + {Strip(lines[i])}
  {
    assert lines[..i + 1] == lines[..i] + [lines[i]];
    StrippedLinesAppend(lines[..i], lines[i]);
  }

  class TextureAnalysis {
    var stopwords: set<string>

    /** `TextureAnalysis(stopwords_filepath)`, given the file's lines. */
    constructor (lines: seq<string>)
      ensures stopwords == StrippedLines(lines)
    {
      stopwords := {};
      new;
      SetStopwords(lines);
    }

    /** `set_stopwords`: adds each stripped line; earlier stop words stay. */
    method SetStopwords(lines: seq<string>)
      modifies this
      ensures stopwords == old(stopwords) + StrippedLines(lines)
    {
      for i := 0 to |lines|
        invariant stopwords == old(stopwords) + StrippedLines(lines[..i])
      {
        StrippedLinesPrefix(lines, i);
        stopwords := stopwords + {Strip(lines[i])};
      }
      assert lines[..|lines|] == lines;
    }

    /** `clean_text`, given the token list `jieba.lcut` produces. */
    method CleanText(words: seq<string>) returns (cleaned: seq<string>)
      ensures cleaned == FilterKept(words, stopwords)
    {
      cleaned := [];
      for i := 0 to |words|
        invariant cleaned == FilterKept(words[..i], stopwords)
      {
        var word := words[i];
        var allowAdd := true;
        var rest := stopwords;
        while rest != {}
          invariant rest <= stopwords
          invariant allowAdd
          invariant forall stopword | stopword in stopwords - rest ::
                      !(word == stopword || Contains(stopword, word) || Contains(word, stopword))
          decreases rest
        {
          var stopword :| stopword in rest;
          if word == stopword || Contains(stopword, word) || Contains(word, stopword) {
            allowAdd := false;
            break;
          }
          assert stopwords - (rest - {stopword}) == (stopwords - rest) + {stopword};
          rest := rest - {stopword};
        }
        assert allowAdd <==> Kept(word, stopwords);
        assert words[..i + 1][..i] == words[..i] && words[..i + 1][i] == word;
        if allowAdd {
          cleaned := cleaned + [word];
        }
      }
      assert words[..|words|] == words;
    }

    /** `get_words_frequency`: counts the words of length other than 1 in a
        dict (keys in first-occurrence order), then sorts its items. */
    static method GetWordsFrequency(words: seq<string>) returns (frequency: seq<Entry>)
      ensures frequency == FrequencyTable(words)
    {
      var keys, counts := CountWords(words);
      var items := seq(|keys|, j requires 0 <= j < |keys| => Entry(keys[j], counts[keys[j]]));
      CountedItems(words, keys, counts, items);
      frequency := SortByCountDesc(items);
      FrequencyTableSortsItems(words);
    }

    /** The counting loop of `get_words_frequency`: the dict's keys in
        insertion order, and the dict itself. */
    static method CountWords(words: seq<string>) returns (keys: seq<string>, counts: map<string, nat>)
      ensures Tallied(words, keys, counts)
    {
      keys, counts := [], map[];
      for i := 0 to |words|
        invariant Tallied(words[..i], keys, counts)
      {
        var word := words[i];
        ghost var keys0, counts0 := keys, counts;
        if |word| != 1 {
          var count := if word in counts then counts[word] else 0;
          if word !in counts {
            keys := keys + [word];
          }
          counts := counts[word := count + 1];
        }
        TallyStep(words[..i], word, keys0, counts0, keys, counts);
        assert words[..i + 1] == words[..i] + [word];
      }
      assert words[..|words|] == words;
    }

    /** `analysis(text, mode, tag_number)`, given the tokens of `text`.
        The mode is checked only after `clean_text`, and `get_words_weight`
        runs only in the "tag" and "weight" modes. */
    method Analysis(tokens: seq<string>, mode: string, tagNumber: int,
                    tfidf: seq<string> -> Option<seq<(string, real)>>, isNumeric: string -> bool)
      returns (r: Result<Analysed, AnalysisError>)
      ensures r.Failure? <==> mode !in {"tag", "frequency", "weight"}
                              || (mode in {"tag", "weight"} && tfidf(FilterKept(tokens, stopwords)).None?)
      ensures mode !in {"tag", "frequency", "weight"} ==> r == Failure(InvalidMode(mode))
      ensures mode in {"tag", "weight"} && r.Failure? ==> r.error == EmptyVocabulary
      ensures mode == "tag" && r.Success? ==> r.value == Tags(GetTags(FilterKept(tokens, stopwords), tagNumber, tfidf, isNumeric).value)
      ensures mode == "frequency" ==> r == Success(Frequency(FrequencyTable(FilterKept(tokens, stopwords))))
      ensures mode == "weight" && r.Success? ==> r.value == Weight(tfidf(FilterKept(tokens, stopwords)).value)
    {
      var cleaned := CleanText(tokens);
      if mode == "tag" {
        var tags := GetTags(cleaned, tagNumber, tfidf, isNumeric);
        r := if tags.Some? then Success(Tags(tags.value)) else Failure(EmptyVocabulary);
      } else if mode == "frequency" {
        var frequency := GetWordsFrequency(cleaned);
        r := Success(Frequency(frequency));
      } else if mode == "weight" {
        var weights := tfidf(cleaned);
        r := if weights.Some? then Success(Weight(weights.value)) else Failure(EmptyVocabulary);
      } else {
        r := Failure(InvalidMode(mode));
      }
    }
  }
}
