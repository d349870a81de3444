/** Python's `sorted(d.items(), key=lambda x: x[1], reverse=True)` on a
    word-count table: a stable sort by descending count (reverse=True keeps
    entries with equal counts in their original order). */
module StableSort {

  /** One `(word, count)` item of a frequency dict. */
  datatype Entry = Entry(word: string, count: nat)

  ghost predicate SortedDesc(es: seq<Entry>)
  {
    forall i, j | 0 <= i < j < |es| :: es[i].count >= es[j].count
  }

  /** The entries with count `c`, in their order in `es`. */
  function WithCount(es: seq<Entry>, c: nat): seq<Entry>
    decreases |es|
  {
    if es == [] then [] else (if es[0].count == c then [es[0]] else []) + WithCount(es[1..], c)
  }

  lemma WithCountCons(e: Entry, es: seq<Entry>, c: nat)
    ensures WithCount([e] + es, c) == (if e.count == c then [e] else []) + WithCount(es, c)
  {
    assert ([e] + es)[1..] == es;
  }

  /** Inserts `e` into the descending `s` before the first entry whose count is not larger. */
  function Insert(e: Entry, s: seq<Entry>): (r: seq<Entry>)
    ensures multiset(r) == multiset(s) + multiset{e}
    ensures |r| == |s| + 1
    ensures r[0] == e || (s != [] && r[0] == s[0])
    decreases |s|
  {
    if s == [] || e.count >= s[0].count then [e] + s
    else
      assert s == [s[0]] + s[1..];
      [s[0]] + Insert(e, s[1..])
  }

  lemma ConsSorted(x: Entry, t: seq<Entry>)
    requires SortedDesc(t)
    requires t == [] || x.count >= t[0].count
    ensures SortedDesc([x] + t)
  {
    forall i, j | 0 <= i < j < |[x] + t| ensures ([x] + t)[i].count >= ([x] + t)[j].count {
      if i == 0 && j > 1 {
        assert t[0].count >= t[j - 1].count;
      }
    }
  }

  lemma {:induction false} InsertSorted(e: Entry, s: seq<Entry>)
    requires SortedDesc(s)
    ensures SortedDesc(Insert(e, s))
    decreases |s|
  {
    if s == [] || e.count >= s[0].count {
      ConsSorted(e, s);
    } else {
      var t := Insert(e, s[1..]);
      InsertSorted(e, s[1..]);
      assert t[0] == e || t[0] == s[1];
      ConsSorted(s[0], t);
    }
  }

  /** Inserting keeps the entries of every count in order, `e` ahead of the
      entries of its own count. */
  lemma {:induction false} InsertWithCount(e: Entry, s: seq<Entry>, c: nat)
    ensures WithCount(Insert(e, s), c) == (if e.count == c then [e] else []) + WithCount(s, c)
    decreases |s|
  {
    if s == [] || e.count >= s[0].count {
      WithCountCons(e, s, c);
    } else {
      var t := Insert(e, s[1..]);
      assert s == [s[0]] + s[1..];
      assert Insert(e, s) == [s[0]] + t;
      InsertWithCount(e, s[1..], c);
      WithCountCons(s[0], t, c);
      WithCountCons(s[0], s[1..], c);
      if e.count == c {
        assert WithCount(Insert(e, s), c) == WithCount(t, c);
        assert WithCount(s, c) == WithCount(s[1..], c);
      } else if s[0].count == c {
        assert WithCount(t, c) == WithCount(s[1..], c);
      }
    }
  }

  /** The stable descending sort. */
  function SortByCountDesc(es: seq<Entry>): (r: seq<Entry>)
    ensures multiset(r) == multiset(es)
    ensures |r| == |es|
    decreases |es|
  {
    if es == [] then [] else
      assert es == [es[0]] + es[1..];
      Insert(es[0], SortByCountDesc(es[1..]))
  }

  /** The sort orders by non-increasing count and, within one count, keeps
      the entries in their original order. */
  lemma {:induction false} SortIsStable(es: seq<Entry>)
    ensures SortedDesc(SortByCountDesc(es))
    ensures forall c: nat :: WithCount(SortByCountDesc(es), c) == WithCount(es, c)
    decreases |es|
  {
    if es != [] {
      SortIsStable(es[1..]);
      var t := SortByCountDesc(es[1..]);
      InsertSorted(es[0], t);
      assert es == [es[0]] + es[1..];
      forall c: nat ensures WithCount(SortByCountDesc(es), c) == WithCount(es, c) {
        InsertWithCount(es[0], t, c);
        WithCountCons(es[0], es[1..], c);
      }
    }
  }
}
