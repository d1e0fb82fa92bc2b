/** The category index behind the filter dropdown (populateCategories) and the
    category selection (filterQuotes). */
module Categories {
  import opened QuoteData

  /** The dropdown value that stands for every category. */
  const AllSentinel: string := "all"

  predicate NoDuplicates<T(==)>(s: seq<T>) {
    forall i, j :: 0 <= i < j < |s| ==> s[i] != s[j]
  }

  /** `quotes.map(quote => quote.category)` */
  function CategoriesOf(quotes: seq<Quote>): seq<string> {
    seq(|quotes|, i requires 0 <= i < |quotes| => quotes[i].category)
  }

  /** `[...new Set(s)]`: a Set remembers insertion order and ignores a value it
      already holds, so each element is kept where it first occurs. */
  function Distinct(s: seq<string>): (r: seq<string>)
    ensures NoDuplicates(r)
    ensures forall x :: x in r <==> x in s
    ensures |r| <= |s|
  {
    if s == [] then []
    else
      var d := Distinct(s[..|s| - 1]);
      var last := s[|s| - 1];
      assert s == s[..|s| - 1] + [last];
      if last in d then d else d + [last]
  }

  /** One step of the Set spread: a value already seen is skipped, a new one
      goes to the end. */
  lemma DistinctSnoc(p: seq<string>, x: string)
    ensures Distinct(p + [x]) == if x in Distinct(p) then Distinct(p) else Distinct(p) + [x]
  {
    assert (p + [x])[..|p|] == p;
  }

  /** The position of the first occurrence of `x` in `s`. */
  function FirstIndex<T(==)>(s: seq<T>, x: T): (k: nat)
    requires x in s
    ensures k < |s| && s[k] == x && x !in s[..k]
  {
    if s[0] == x then 0 else 1 + FirstIndex(s[1..], x)
  }

  lemma FirstIndexAppend<T>(s: seq<T>, y: T, x: T)
    requires x in s
    ensures FirstIndex(s + [y], x) == FirstIndex(s, x)
  {
    var k := FirstIndex(s, x);
    assert (s + [y])[k] == x;
    assert (s + [y])[..k] == s[..k];
  }

  /** Distinct lists its elements in the order in which they first occur. */
  lemma {:induction false} DistinctFirstSeenOrder(s: seq<string>)
    ensures forall i, j :: 0 <= i < j < |Distinct(s)| ==>
              Distinct(s)[i] in s && Distinct(s)[j] in s &&
              FirstIndex(s, Distinct(s)[i]) < FirstIndex(s, Distinct(s)[j])
  {
    if s != [] {
      var p := s[..|s| - 1];
      var last := s[|s| - 1];
      assert s == p + [last];
      DistinctFirstSeenOrder(p);
      var d := Distinct(p);
      var r := Distinct(s);
      DistinctSnoc(p, last);
      if last !in d {
        assert last !in p;
        assert s[..|p|] == p;
        assert FirstIndex(s, last) == |p|;
      }
      forall i, j | 0 <= i < j < |r|
        ensures r[i] in s && r[j] in s && FirstIndex(s, r[i]) < FirstIndex(s, r[j])
      {
        assert r[i] == d[i] && d[i] in p;
        FirstIndexAppend(p, last, d[i]);
        if j < |d| {
          assert r[j] == d[j] && d[j] in p;
          FirstIndexAppend(p, last, d[j]);
          assert FirstIndex(p, d[i]) < FirstIndex(p, d[j]);
        } else {
          assert r[j] == last;
        }
      }
      assert forall i, j :: 0 <= i < j < |r| ==>
              r[i] in s && r[j] in s && FirstIndex(s, r[i]) < FirstIndex(s, r[j]);
    } else {
      assert Distinct(s) == [];
    }
  }

  /** The distinct categories in first-seen order. */
  function DistinctCategories(quotes: seq<Quote>): seq<string> {
    Distinct(CategoriesOf(quotes))
  }

  /** The option values of the dropdown: the sentinel, then each category. */
  function CategoryOptions(quotes: seq<Quote>): seq<string> {
    [AllSentinel] + DistinctCategories(quotes)
  }

  /** The distinct categories are exactly the categories of the list, each once,
      in order of first occurrence. */
  lemma DistinctCategoriesSpec(quotes: seq<Quote>)
    ensures NoDuplicates(DistinctCategories(quotes))
    ensures forall c :: c in DistinctCategories(quotes) <==>
              exists i :: 0 <= i < |quotes| && quotes[i].category == c
    ensures forall i, j :: 0 <= i < j < |DistinctCategories(quotes)| ==>
              FirstIndex(CategoriesOf(quotes), DistinctCategories(quotes)[i])
              < FirstIndex(CategoriesOf(quotes), DistinctCategories(quotes)[j])
  {
    var cs := CategoriesOf(quotes);
    DistinctFirstSeenOrder(cs);
    forall c ensures c in cs <==> exists i :: 0 <= i < |quotes| && quotes[i].category == c {
      if c in cs {
        var i :| 0 <= i < |cs| && cs[i] == c;
        assert quotes[i].category == c;
      }
      if exists i :: 0 <= i < |quotes| && quotes[i].category == c {
        var i :| 0 <= i < |quotes| && quotes[i].category == c;
        assert cs[i] == c;
      }
    }
  }

  /** Categories Life, Inspiration, Life give Life then Inspiration, whatever
      the quote texts. */
  lemma DistinctCategoriesExample(a: string, b: string, c: string)
    ensures DistinctCategories([Quote(a, "Life"), Quote(b, "Inspiration"), Quote(c, "Life")])
            == ["Life", "Inspiration"]
  {
    var qs := [Quote(a, "Life"), Quote(b, "Inspiration"), Quote(c, "Life")];
    var s1: seq<string> := ["Life"];
    var s2 := s1 + ["Inspiration"];
    var s3 := s2 + ["Life"];
    assert CategoriesOf(qs) == s3;
    DistinctSnoc([], "Life");
    assert [] + ["Life"] == s1;
    DistinctSnoc(s1, "Inspiration");
    DistinctSnoc(s2, "Life");
  }

  /** The dropdown offers each value once unless some quote's category is the
      literal "all", which then appears twice (and selecting it shows everything). */
  lemma {:induction false} CategoryOptionsDistinct(quotes: seq<Quote>)
    ensures NoDuplicates(CategoryOptions(quotes)) <==> AllSentinel !in CategoriesOf(quotes)
  {
    var d := DistinctCategories(quotes);
    var o := CategoryOptions(quotes);
    if AllSentinel in CategoriesOf(quotes) {
      var k :| 0 <= k < |d| && d[k] == AllSentinel;
      assert o[0] == o[k + 1];
    } else {
      forall i, j | 0 <= i < j < |o| ensures o[i] != o[j] {
        if i == 0 {
          assert o[j] == d[j - 1];
        } else {
          assert o[i] == d[i - 1] && o[j] == d[j - 1];
        }
      }
    }
  }

  /** `quotes.filter(quote => quote.category === category)` */
  function WithCategory(quotes: seq<Quote>, category: string): (r: seq<Quote>)
    ensures |r| <= |quotes|
    ensures forall i :: 0 <= i < |r| ==> r[i].category == category
    ensures forall q :: q in r <==> q in quotes && q.category == category
  {
    if quotes == [] then []
    else
      var rest := WithCategory(quotes[..|quotes| - 1], category);
      var last := quotes[|quotes| - 1];
      assert quotes == quotes[..|quotes| - 1] + [last];
      if last.category == category then rest + [last] else rest
  }

  /** The selection filterQuotes displays: everything for the sentinel, otherwise
      the quotes of the selected category. */
  function FilterBy(quotes: seq<Quote>, selection: string): seq<Quote> {
    if selection == AllSentinel then quotes else WithCategory(quotes, selection)
  }

  /** `sub` keeps some of the elements of `s`, in their original order. */
  predicate IsSubsequence<T(==)>(sub: seq<T>, s: seq<T>)
    decreases |s|
  {
    if sub == [] then true
    else if s == [] then false
    else if sub[0] == s[0] then IsSubsequence(sub[1..], s[1..])
    else IsSubsequence(sub, s[1..])
  }

  lemma {:induction false} WithCategoryAppend(a: seq<Quote>, b: seq<Quote>, category: string)
    ensures WithCategory(a + b, category) == WithCategory(a, category) + WithCategory(b, category)
    decreases |b|
  {
    if b != [] {
      var b' := b[..|b| - 1];
      assert (a + b)[..|a + b| - 1] == a + b';
      WithCategoryAppend(a, b', category);
    } else {
      assert a + b == a;
    }
  }

  lemma {:induction false} WithCategoryIsSubsequence(quotes: seq<Quote>, category: string)
    ensures IsSubsequence(WithCategory(quotes, category), quotes)
    decreases |quotes|
  {
    if quotes != [] {
      var head := quotes[0];
      var tail := quotes[1..];
      assert quotes == [head] + tail;
      WithCategoryAppend([head], tail, category);
      assert [head][..0] == [];
      WithCategoryIsSubsequence(tail, category);
      var sub := WithCategory(quotes, category);
      var rest := WithCategory(tail, category);
      if head.category == category {
        assert sub == [head] + rest && sub[1..] == rest;
      } else {
        assert sub == rest;
        assert sub != [] ==> sub[0] != head;
      }
    }
  }

  /** Filtering keeps each quote of the selected category as often as it occurs
      and drops every other quote. */
  lemma {:induction false} WithCategoryMultiplicity(quotes: seq<Quote>, category: string, q: Quote)
    ensures multiset(WithCategory(quotes, category))[q] ==
            if q.category == category then multiset(quotes)[q] else 0
  {
    if quotes != [] {
      var init := quotes[..|quotes| - 1];
      assert quotes == init + [quotes[|quotes| - 1]];
      WithCategoryMultiplicity(init, category, q);
    }
  }

  /** "all" shows the whole list; any other selection shows, in list order, the
      quotes of that category, each as often as it occurs and nothing else. */
  lemma FilterBySpec(quotes: seq<Quote>, selection: string)
    ensures selection == AllSentinel ==> FilterBy(quotes, selection) == quotes
    ensures selection != AllSentinel ==>
              |FilterBy(quotes, selection)| <= |quotes|
              && IsSubsequence(FilterBy(quotes, selection), quotes)
              && (forall i :: 0 <= i < |FilterBy(quotes, selection)| ==>
                    FilterBy(quotes, selection)[i].category == selection)
              && (forall q :: multiset(FilterBy(quotes, selection))[q] ==
                    if q.category == selection then multiset(quotes)[q] else 0)
  {
    if selection != AllSentinel {
      WithCategoryIsSubsequence(quotes, selection);
      forall q ensures multiset(FilterBy(quotes, selection))[q] ==
                       if q.category == selection then multiset(quotes)[q] else 0 {
        WithCategoryMultiplicity(quotes, selection, q);
      }
    }
  }

  /** Appending a quote of the selected category extends that selection by
      exactly that quote; one of another category leaves it as it was. */
  lemma FilterAfterAppend(quotes: seq<Quote>, q: Quote, selection: string)
    requires selection != AllSentinel
    ensures FilterBy(quotes + [q], selection) ==
            if q.category == selection then FilterBy(quotes, selection) + [q]
            else FilterBy(quotes, selection)
  {
    WithCategoryAppend(quotes, [q], selection);
    assert [q][..0] == [];
  }
}
