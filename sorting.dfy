/** `ChatScraper._sorted_category_items`: Python's `sorted(items, key=link_text)`, a stable
    sort by display text under Python's string order. */
module Sorting {
  import opened Types
  import opened Strings

  /** No link is followed by one whose text sorts strictly before its own. */
  ghost predicate SortedByText(s: seq<Link>)
  {
    forall i, j :: 0 <= i < j < |s| ==> !Below(s[j].text, s[i].text)
  }

  /** `[l]` when `l` has text `t`, otherwise nothing. */
  function Keep(l: Link, t: string): seq<Link>
  {
    if l.text == t then [l] else []
  }

  /** The links of `s` whose text is `t`, in their order in `s`. */
  function WithText(s: seq<Link>, t: string): seq<Link>
  {
    if s == [] then [] else WithText(s[..|s| - 1], t) + Keep(s[|s| - 1], t)
  }

  /** Places `x` after every link of `r` whose text does not sort after its own. */
  function Insert(r: seq<Link>, x: Link): seq<Link>
  {
    if r == [] then [x]
    else if Below(x.text, r[|r| - 1].text) then Insert(r[..|r| - 1], x) + [r[|r| - 1]]
    else r + [x]
  }

  /** `sorted(items, key=lambda k: k['link_text'])`. */
  function SortByText(s: seq<Link>): seq<Link>
  {
    if s == [] then [] else Insert(SortByText(s[..|s| - 1]), s[|s| - 1])
  }

  /** "Does not sort before" is transitive. */
  lemma NotBelowTransitive(a: string, b: string, c: string)
    requires !Below(b, a) && !Below(c, b)
    ensures !Below(c, a)
  {
    if Below(c, a) && a != b {
      BelowTotal(a, b);
      BelowTransitive(c, a, b);
    }
  }

  lemma {:induction false} InsertPermutes(r: seq<Link>, x: Link)
    ensures multiset(Insert(r, x)) == multiset(r) + multiset{x}
    decreases |r|
  {
    if r != [] {
      var r', last := r[..|r| - 1], r[|r| - 1];
      assert r == r' + [last];
      if Below(x.text, last.text) {
        InsertPermutes(r', x);
      }
    }
  }

  lemma {:induction false} InsertSorted(r: seq<Link>, x: Link)
    requires SortedByText(r)
    ensures SortedByText(Insert(r, x))
    decreases |r|
  {
    if r != [] {
      var r', last := r[..|r| - 1], r[|r| - 1];
      if Below(x.text, last.text) {
        InsertSorted(r', x);
        InsertPermutes(r', x);
        var front := Insert(r', x);
        forall y | y in front ensures !Below(last.text, y.text) {
          assert y in multiset(front);
          if y == x {
            BelowAsymmetric(x.text, last.text);
          } else {
            assert y in r';
            var i :| 0 <= i < |r'| && r'[i] == y;
            assert r[i] == y;
          }
        }
        var res := front + [last];
        forall i, j | 0 <= i < j < |res| ensures !Below(res[j].text, res[i].text) {
          if j == |res| - 1 {
            assert res[i] in front;
          }
        }
      } else {
        var res := r + [x];
        forall i, j | 0 <= i < j < |res| ensures !Below(res[j].text, res[i].text) {
          if j == |res| - 1 && i < |r| - 1 {
            NotBelowTransitive(r[i].text, last.text, x.text);
          }
        }
      }
    }
  }

  lemma {:induction false} WithTextConcat(a: seq<Link>, b: seq<Link>, t: string)
    ensures WithText(a + b, t) == WithText(a, t) + WithText(b, t)
    decreases |b|
  {
    if b == [] {
      assert a + b == a;
    } else {
      assert (a + b)[..|a + b| - 1] == a + b[..|b| - 1];
      WithTextConcat(a, b[..|b| - 1], t);
    }
  }

  /** Inserting `x` keeps the links of each text in their order, `x` after those of its text. */
  lemma {:induction false} InsertStable(r: seq<Link>, x: Link, t: string)
    ensures WithText(Insert(r, x), t) == WithText(r, t) + Keep(x, t)
    decreases |r|
  {
    if r == [] {
      assert WithText([x], t) == WithText([], t) + Keep(x, t);
    } else {
      var r', last := r[..|r| - 1], r[|r| - 1];
      assert WithText(r, t) == WithText(r', t) + Keep(last, t);
      if Below(x.text, last.text) {
        var front := Insert(r', x);
        InsertStable(r', x, t);
        WithTextConcat(front, [last], t);
        assert WithText([last], t) == Keep(last, t);
        if x.text == t {
          BelowIrreflexive(t);
        }
        assert Keep(x, t) == [] || Keep(last, t) == [];
      } else {
        WithTextConcat(r, [x], t);
        assert WithText([x], t) == Keep(x, t);
      }
    }
  }

  /** The result is ordered by text. */
  lemma {:induction false} SortIsSorted(s: seq<Link>)
    ensures SortedByText(SortByText(s))
    decreases |s|
  {
    if s != [] {
      SortIsSorted(s[..|s| - 1]);
      InsertSorted(SortByText(s[..|s| - 1]), s[|s| - 1]);
    }
  }

  /** The result holds exactly the input links, each as often as the input does. */
  lemma {:induction false} SortPermutes(s: seq<Link>)
    ensures multiset(SortByText(s)) == multiset(s)
    decreases |s|
  {
    if s != [] {
      SortPermutes(s[..|s| - 1]);
      InsertPermutes(SortByText(s[..|s| - 1]), s[|s| - 1]);
      assert s == s[..|s| - 1] + [s[|s| - 1]];
    }
  }

  /** Stability: links with equal text come out in their input order. */
  lemma {:induction false} SortIsStable(s: seq<Link>, t: string)
    ensures WithText(SortByText(s), t) == WithText(s, t)
    decreases |s|
  {
    if s != [] {
      SortIsStable(s[..|s| - 1], t);
      InsertStable(SortByText(s[..|s| - 1]), s[|s| - 1], t);
    }
  }

  /** The project's own example: B, C, A sorts to A, B, C. */
  lemma SortExample()
    ensures SortByText([Link("B", "https://wwww.bbc.com"), Link("C", "https://wwww.cbc.com"),
      Link("A", "https://wwww.abc.com")])
      == [Link("A", "https://wwww.abc.com"), Link("B", "https://wwww.bbc.com"), Link("C", "https://wwww.cbc.com")]
  {
    var a, b, c := Link("A", "https://wwww.abc.com"), Link("B", "https://wwww.bbc.com"), Link("C", "https://wwww.cbc.com");
    var s := [b, c, a];
    assert Below("A", "B") && Below("A", "C") && !Below("C", "B");
    assert s[..1] == [b] && s[..2] == [b, c] && [b][..0] == [];
    assert SortByText([b]) == [b];
    assert SortByText([b, c]) == [b, c];
    assert Insert([b], a) == [a, b];
    assert [b, c][..1] == [b];
  }
}
