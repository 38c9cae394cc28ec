/** `ChatScraper.categorise_links`: drop the footer links, then file each remaining link
    under the first category, in a fixed priority order, whose rule accepts it, and
    under `Misc` when none does. */
module Classifier {
  import opened Types
  import opened Predicates

  datatype Category = Film | Book | Podcast | WebClip | Music | TvShow | Misc

  /** The order in which the rules are tried (the insertion order of the result dictionary). */
  const PRIORITY: seq<Category> := [Film, Book, Podcast, WebClip, Music, TvShow]

  /** Every key of the result, the residual `Misc` last. */
  const CATEGORIES: seq<Category> := PRIORITY + [Misc]

  lemma InCategories(c: Category)
    ensures c in CATEGORIES
  {
    assert CATEGORIES == [Film, Book, Podcast, WebClip, Music, TvShow, Misc];
    match c
    case Film => assert CATEGORIES[0] == c;
    case Book => assert CATEGORIES[1] == c;
    case Podcast => assert CATEGORIES[2] == c;
    case WebClip => assert CATEGORIES[3] == c;
    case Music => assert CATEGORIES[4] == c;
    case TvShow => assert CATEGORIES[5] == c;
    case Misc => assert CATEGORIES[6] == c;
  }

  /** Position of a rule-backed category in the priority order. */
  function Rank(c: Category): (r: nat)
    requires c != Misc
    ensures r < |PRIORITY| && PRIORITY[r] == c
  {
    match c
    case Film => 0
    case Book => 1
    case Podcast => 2
    case WebClip => 3
    case Music => 4
    case TvShow => 5
  }

  /** The rule `_is_<c>` behind each category. */
  predicate Holds(c: Category, link: Link, web: Web)
    requires c != Misc
  {
    match c
    case Film => IsFilm(link.text, link.url, web)
    case Book => IsBook(link.text, link.url, web)
    case Podcast => IsPodcast(link.text, link.url, web)
    case WebClip => IsWebClip(link.text, link.url, web)
    case Music => IsMusic(link.text, link.url, web)
    case TvShow => IsTvShow(link.text, link.url, web)
  }

  /** The first category of `order` whose rule accepts `link`, or `Misc`. */
  function FirstMatch(order: seq<Category>, link: Link, web: Web): Category
    requires Misc !in order
  {
    if order == [] then Misc
    else if Holds(order[0], link, web) then order[0]
    else FirstMatch(order[1..], link, web)
  }

  function Classify(link: Link, web: Web): Category
  {
    FirstMatch(PRIORITY, link, web)
  }

  /** The first accepting category of `order` is returned. */
  lemma {:induction false} FirstMatchAt(order: seq<Category>, link: Link, web: Web, j: nat)
    requires Misc !in order
    requires j < |order| && Holds(order[j], link, web)
    requires forall k :: 0 <= k < j ==> !Holds(order[k], link, web)
    ensures FirstMatch(order, link, web) == order[j]
    decreases |order|
  {
    if j > 0 {
      assert !Holds(order[0], link, web);
      FirstMatchAt(order[1..], link, web, j - 1);
    }
  }

  /** Whatever `FirstMatch` returns is justified: `Misc` when every rule fails, otherwise a
      category whose rule holds and before which every rule fails. */
  lemma {:induction false} FirstMatchFound(order: seq<Category>, link: Link, web: Web)
    requires Misc !in order
    ensures FirstMatch(order, link, web) == Misc <==> forall k :: 0 <= k < |order| ==> !Holds(order[k], link, web)
    ensures FirstMatch(order, link, web) != Misc ==>
      exists j :: 0 <= j < |order| && order[j] == FirstMatch(order, link, web) && Holds(order[j], link, web)
        && forall k :: 0 <= k < j ==> !Holds(order[k], link, web)
    decreases |order|
  {
    if order != [] && !Holds(order[0], link, web) {
      FirstMatchFound(order[1..], link, web);
      if FirstMatch(order, link, web) != Misc {
        var j :| 0 <= j < |order[1..]| && order[1..][j] == FirstMatch(order, link, web)
          && Holds(order[1..][j], link, web)
          && forall k :: 0 <= k < j ==> !Holds(order[1..][k], link, web);
        assert forall k :: 0 <= k < j + 1 ==> !Holds(order[k], link, web) by {
          forall k | 0 <= k < j + 1 ensures !Holds(order[k], link, web) {
            if k > 0 {
              assert order[k] == order[1..][k - 1];
            }
          }
        }
        assert order[j + 1] == order[1..][j];
      }
    }
  }

  /** Priority rule for `categorise_links`: a link goes to category `c` exactly when `c`'s rule
      holds and the rules of every earlier category fail, and to `Misc` exactly when all
      six rules fail. */
  lemma ClassifyIff(link: Link, web: Web, c: Category)
    ensures c != Misc ==>
      (Classify(link, web) == c <==>
        Holds(c, link, web) && forall k :: 0 <= k < Rank(c) ==> !Holds(PRIORITY[k], link, web))
    ensures c == Misc ==>
      (Classify(link, web) == c <==> forall k :: 0 <= k < |PRIORITY| ==> !Holds(PRIORITY[k], link, web))
  {
    FirstMatchFound(PRIORITY, link, web);
    if c != Misc && Holds(c, link, web) && forall k :: 0 <= k < Rank(c) ==> !Holds(PRIORITY[k], link, web) {
      FirstMatchAt(PRIORITY, link, web, Rank(c));
    }
  }

  /** `Classify` as a value, the one place the rules enter the list bookkeeping below. */
  function Home(web: Web): Link -> Category
  {
    link => Classify(link, web)
  }

  /** What one link adds to the list of `c` when links are filed by `home`: itself when it is
      kept and `home` sends it to `c`. */
  function Filed(link: Link, c: Category, home: Link -> Category): seq<Link>
  {
    if !IsBoringFooterLink(link.text, link.url) && home(link) == c then [link] else []
  }

  /** The links among the first `n` of `links` that are not footer links and that `home`
      sends to `c`, in input order. */
  function Filing(links: seq<Link>, n: nat, c: Category, home: Link -> Category): seq<Link>
    requires n <= |links|
  {
    if n == 0 then [] else Filing(links, n - 1, c, home) + Filed(links[n - 1], c, home)
  }

  /** The list `categorise_links` returns under `c`. */
  function Bucket(links: seq<Link>, c: Category, web: Web): seq<Link>
  {
    Filing(links, |links|, c, Home(web))
  }

  /** The first `n` links minus the footer links, in input order. */
  function Kept(links: seq<Link>, n: nat): seq<Link>
    requires n <= |links|
  {
    if n == 0 then []
    else Kept(links, n - 1) + (if IsBoringFooterLink(links[n - 1].text, links[n - 1].url) then [] else [links[n - 1]])
  }

  /** The value `categorise_links` returns. */
  function Categorised(links: seq<Link>, web: Web): map<Category, seq<Link>>
  {
    map c | c in CATEGORIES :: Bucket(links, c, web)
  }

  /** The inner pass of `categorise_links`: try the rules in priority order and stop at the
      first that accepts the link; `categorised` stays false when none does. */
  method FindCategory(link: Link, web: Web) returns (categorised: bool, c: Category)
    ensures categorised <==> Classify(link, web) != Misc
    ensures categorised ==> c == Classify(link, web)
  {
    categorised, c := false, Misc;
    var j := 0;
    while j < |PRIORITY|
      invariant 0 <= j <= |PRIORITY|
      invariant !categorised
      invariant forall k :: 0 <= k < j ==> !Holds(PRIORITY[k], link, web)
    {
      // `getattr(self, '_is_' + c)(link_text, url)`; the podcast rule is the one with a loop
      var hit;
      if PRIORITY[j] == Podcast {
        hit := MatchesPodcast(link.text, link.url, web);
      } else {
        hit := Holds(PRIORITY[j], link, web);
      }
      if hit {
        FirstMatchAt(PRIORITY, link, web, j);
        categorised, c := true, PRIORITY[j];
        break;
      }
      j := j + 1;
    }
    if !categorised {
      FirstMatchFound(PRIORITY, link, web);
    }
  }

  /** Filing one more link extends each list by what that link adds to it. */
  lemma FilingStep(links: seq<Link>, n: nat, home: Link -> Category)
    requires n < |links|
    ensures forall c :: Filing(links, n + 1, c, home) == Filing(links, n, c, home) + Filed(links[n], c, home)
  {
  }

  /** The body of the outer loop of `categorise_links` for one link: a footer link is
      skipped, any other is appended to the list of its category or, when no rule accepts
      it, to the not-sure list. */
  method FileLink(results: map<Category, seq<Link>>, notSure: seq<Link>, link: Link, web: Web)
    returns (results': map<Category, seq<Link>>, notSure': seq<Link>)
    requires forall c :: c in results <==> c != Misc
    ensures forall c :: c in results' <==> c != Misc
    ensures forall c :: c in results' ==> results'[c] == results[c] + Filed(link, c, Home(web))
    ensures notSure' == notSure + Filed(link, Misc, Home(web))
  {
    results', notSure' := results, notSure;
    if !IsBoringFooterLink(link.text, link.url) {
      var categorised, c := FindCategory(link, web);
      if categorised {
        results' := results[c := results[c] + [link]];
      } else {
        notSure' := notSure + [link];
      }
    }
  }

  /** `categorise_links`: one pass over the links, appending each kept link to the list of
      its category, or to the not-sure list that becomes `Misc`. */
  method CategoriseLinks(links: seq<Link>, web: Web) returns (results: map<Category, seq<Link>>)
    ensures forall c :: c in results && results[c] == Bucket(links, c, web)
    ensures results == Categorised(links, web)
  {
    results := map[Film := [], Book := [], Podcast := [], WebClip := [], Music := [], TvShow := []];
    var notSure: seq<Link> := [];
    var i := 0;
    while i < |links|
      invariant 0 <= i <= |links|
      invariant forall c :: c in results <==> c != Misc
      invariant forall c :: c in results ==> results[c] == Filing(links, i, c, Home(web))
      invariant notSure == Filing(links, i, Misc, Home(web))
    {
      FilingStep(links, i, Home(web));
      results, notSure := FileLink(results, notSure, links[i], web);
      i := i + 1;
    }
    results := results[Misc := notSure];
    forall c ensures c in Categorised(links, web) {
      InCategories(c);
    }
  }

  // ----- The result is a partition of the kept links -----

  lemma {:induction false} FilingMembers(links: seq<Link>, n: nat, c: Category, home: Link -> Category, l: Link)
    requires n <= |links|
    ensures l in Filing(links, n, c, home) <==>
      l in links[..n] && !IsBoringFooterLink(l.text, l.url) && home(l) == c
  {
    if n > 0 {
      FilingMembers(links, n - 1, c, home, l);
      assert links[..n] == links[..n - 1] + [links[n - 1]];
    }
  }

  /** Bucket `c` holds exactly the kept links classified as `c`: so each non-footer link is in
      the list of its one category and in no other, and footer links are in none. */
  lemma BucketMembers(links: seq<Link>, c: Category, web: Web, l: Link)
    ensures l in Bucket(links, c, web) <==>
      l in links && !IsBoringFooterLink(l.text, l.url) && Classify(l, web) == c
  {
    FilingMembers(links, |links|, c, Home(web), l);
    assert links[..|links|] == links;
  }

  /** The lists of `categories`, over the first `n` links, concatenated in order. */
  function Gather(links: seq<Link>, n: nat, categories: seq<Category>, home: Link -> Category): seq<Link>
    requires n <= |links|
  {
    if categories == [] then [] else Filing(links, n, categories[0], home) + Gather(links, n, categories[1..], home)
  }

  /** No category occurs twice in `categories`. */
  ghost predicate Distinct(categories: seq<Category>)
  {
    forall i, j :: 0 <= i < j < |categories| ==> categories[i] != categories[j]
  }

  lemma {:induction false} GatherNothing(links: seq<Link>, categories: seq<Category>, home: Link -> Category)
    ensures Gather(links, 0, categories, home) == []
    decreases |categories|
  {
    if categories != [] {
      GatherNothing(links, categories[1..], home);
    }
  }

  lemma CategoriesDistinct()
    ensures Distinct(CATEGORIES)
  {
  }

  lemma DistinctTail(categories: seq<Category>)
    requires Distinct(categories) && categories != []
    ensures categories[0] !in categories[1..] && Distinct(categories[1..])
  {
    forall k | 0 <= k < |categories[1..]| ensures categories[1..][k] != categories[0] {
      assert categories[1..][k] == categories[k + 1];
    }
  }

  /** How many times `x` occurs in `s`. */
  function Count(s: seq<Link>, x: Link): nat
  {
    if s == [] then 0 else Count(s[..|s| - 1], x) + if s[|s| - 1] == x then 1 else 0
  }

  lemma {:induction false} CountConcat(a: seq<Link>, b: seq<Link>, x: Link)
    ensures Count(a + b, x) == Count(a, x) + Count(b, x)
    decreases |b|
  {
    if b == [] {
      assert a + b == a;
    } else {
      assert (a + b)[..|a + b| - 1] == a + b[..|b| - 1];
      assert (a + b)[|a + b| - 1] == b[|b| - 1];
      CountConcat(a, b[..|b| - 1], x);
    }
  }

  lemma {:induction false} CountMultiset(s: seq<Link>, x: Link)
    ensures multiset(s)[x] == Count(s, x)
    decreases |s|
  {
    if s != [] {
      CountMultiset(s[..|s| - 1], x);
      assert s == s[..|s| - 1] + [s[|s| - 1]];
    }
  }

  /** Taking in one more link adds it once to the lists of `categories` together, when it is
      kept and its category is among them, and adds nothing otherwise. */
  lemma {:induction false} GatherStep(links: seq<Link>, n: nat, categories: seq<Category>, home: Link -> Category, x: Link)
    requires 0 < n <= |links| && Distinct(categories)
    ensures var l := links[n - 1];
      Count(Gather(links, n, categories, home), x) == Count(Gather(links, n - 1, categories, home), x)
      + if l == x && !IsBoringFooterLink(l.text, l.url) && home(l) in categories then 1 else 0
    decreases |categories|
  {
    if categories != [] {
      var c, rest := categories[0], categories[1..];
      DistinctTail(categories);
      var l := links[n - 1];
      GatherStep(links, n, rest, home, x);
      CountConcat(Filing(links, n, c, home), Gather(links, n, rest, home), x);
      CountConcat(Filing(links, n - 1, c, home), Gather(links, n - 1, rest, home), x);
      CountConcat(Filing(links, n - 1, c, home), Filed(l, c, home), x);
      assert Count(Filed(l, c, home), x) == if l == x && !IsBoringFooterLink(l.text, l.url) && home(l) == c then 1 else 0 by {
        assert [l][..0] == [];
      }
      assert categories == [c] + rest;
      assert home(l) in categories <==> home(l) == c || home(l) in rest;
    }
  }

  lemma GatherKeptStep(links: seq<Link>, n: nat, categories: seq<Category>, home: Link -> Category, x: Link)
    requires 0 < n <= |links| && Distinct(categories)
    requires forall k :: 0 <= k < n ==> home(links[k]) in categories
    ensures Count(Gather(links, n, categories, home), x) == Count(Kept(links, n), x)
    decreases n, 0
  {
    var l := links[n - 1];
    GatherKept(links, n - 1, categories, home, x);
    GatherStep(links, n, categories, home, x);
    CountConcat(Kept(links, n - 1), if IsBoringFooterLink(l.text, l.url) then [] else [l], x);
  }

  /** When `home` only ever answers categories of `categories`, the lists of `categories`
      together hold each link exactly as often as the kept links do. */
  lemma {:induction false} GatherKept(links: seq<Link>, n: nat, categories: seq<Category>, home: Link -> Category, x: Link)
    requires n <= |links| && Distinct(categories)
    requires forall k :: 0 <= k < n ==> home(links[k]) in categories
    ensures Count(Gather(links, n, categories, home), x) == Count(Kept(links, n), x)
    decreases n, 1
  {
    if n == 0 {
      GatherNothing(links, categories, home);
    } else {
      GatherKeptStep(links, n, categories, home, x);
    }
  }

  /** Dropping the first `k` categories leaves the list of the next one, then the rest. */
  lemma GatherFrom(links: seq<Link>, n: nat, categories: seq<Category>, k: nat, home: Link -> Category)
    requires n <= |links| && k < |categories|
    ensures Gather(links, n, categories[k..], home)
      == Filing(links, n, categories[k], home) + Gather(links, n, categories[k + 1..], home)
  {
    assert categories[k..][1..] == categories[k + 1..];
  }

  /** The last four lists of `CATEGORIES` together. */
  lemma GatherLastFour(links: seq<Link>, n: nat, home: Link -> Category)
    requires n <= |links|
    ensures Gather(links, n, CATEGORIES[3..], home)
      == Filing(links, n, WebClip, home) + (Filing(links, n, Music, home) + (Filing(links, n, TvShow, home)
      + Filing(links, n, Misc, home)))
  {
    var cs := CATEGORIES;
    assert cs[7..] == [];
    GatherFrom(links, n, cs, 3, home);
    GatherFrom(links, n, cs, 4, home);
    GatherFrom(links, n, cs, 5, home);
    GatherFrom(links, n, cs, 6, home);
    assert cs[3] == WebClip && cs[4] == Music && cs[5] == TvShow && cs[6] == Misc;
    assert Filing(links, n, Misc, home) + [] == Filing(links, n, Misc, home);
  }

  /** The first three lists of `CATEGORIES`, then the rest together. */
  lemma GatherFirstThree(links: seq<Link>, n: nat, home: Link -> Category)
    requires n <= |links|
    ensures Gather(links, n, CATEGORIES, home)
      == Filing(links, n, Film, home) + (Filing(links, n, Book, home) + (Filing(links, n, Podcast, home)
      + Gather(links, n, CATEGORIES[3..], home)))
  {
    var cs := CATEGORIES;
    assert cs[0..] == cs;
    GatherFrom(links, n, cs, 0, home);
    GatherFrom(links, n, cs, 1, home);
    GatherFrom(links, n, cs, 2, home);
    assert cs[0] == Film && cs[1] == Book && cs[2] == Podcast;
  }

  /** The lists of `CATEGORIES` together are the seven lists, one after the other. */
  lemma GatherAll(links: seq<Link>, web: Web)
    ensures Gather(links, |links|, CATEGORIES, Home(web))
      == Bucket(links, Film, web) + (Bucket(links, Book, web) + (Bucket(links, Podcast, web)
      + (Bucket(links, WebClip, web) + (Bucket(links, Music, web) + (Bucket(links, TvShow, web)
      + Bucket(links, Misc, web))))))
  {
    GatherFirstThree(links, |links|, Home(web));
    GatherLastFour(links, |links|, Home(web));
  }

  /** The lists of `CATEGORIES` together hold the kept links, each as often as the input. */
  lemma GatherIsKept(links: seq<Link>, web: Web)
    ensures multiset(Gather(links, |links|, CATEGORIES, Home(web))) == multiset(Kept(links, |links|))
  {
    forall k | 0 <= k < |links| ensures Home(web)(links[k]) in CATEGORIES {
      InCategories(Classify(links[k], web));
    }
    CategoriesDistinct();
    var all, kept := Gather(links, |links|, CATEGORIES, Home(web)), Kept(links, |links|);
    forall x ensures multiset(all)[x] == multiset(kept)[x] {
      GatherKept(links, |links|, CATEGORIES, Home(web), x);
      CountMultiset(all, x);
      CountMultiset(kept, x);
    }
  }

  /** No loss, no duplication: taken together, the seven lists of the result hold each kept
      link exactly as many times as the input does, and their total length is the number of
      kept links. */
  lemma Partition(links: seq<Link>, web: Web)
    ensures var m := Categorised(links, web);
      multiset(m[Film] + m[Book] + m[Podcast] + m[WebClip] + m[Music] + m[TvShow] + m[Misc])
      == multiset(Kept(links, |links|))
    ensures var m := Categorised(links, web);
      |m[Film] + m[Book] + m[Podcast] + m[WebClip] + m[Music] + m[TvShow] + m[Misc]| == |Kept(links, |links|)|
  {
    GatherIsKept(links, web);
    GatherAll(links, web);
    var all, kept := Gather(links, |links|, CATEGORIES, Home(web)), Kept(links, |links|);
    assert |multiset(all)| == |multiset(kept)|;
  }

  /** A kept link is filed in exactly one of the result's lists, a footer link in none. */
  lemma ExactlyOne(links: seq<Link>, web: Web, l: Link)
    requires l in links
    ensures !IsBoringFooterLink(l.text, l.url) ==>
      exists c :: c in Categorised(links, web) && l in Categorised(links, web)[c]
        && forall c' :: c' in Categorised(links, web) && l in Categorised(links, web)[c'] ==> c' == c
    ensures IsBoringFooterLink(l.text, l.url) ==>
      forall c :: c in Categorised(links, web) ==> l !in Categorised(links, web)[c]
  {
    var m := Categorised(links, web);
    forall c | c in m ensures l in m[c] <==> !IsBoringFooterLink(l.text, l.url) && Classify(l, web) == c {
      BucketMembers(links, c, web, l);
    }
    var home := Classify(l, web);
    InCategories(home);
    if !IsBoringFooterLink(l.text, l.url) {
      assert l in m[home];
    }
  }
}
