/** The last step of `ChatScraper.get_show_notes_links_for_episode`: every show-notes anchor
    whose `href` is a well-formed URL is followed (a redirect yields the final URL; a
    connection error, reset or timeout keeps the `href`) and filed under its text in the
    `valid_links` dictionary. Anchors with a malformed `href` are skipped. */
module Extractor {
  import opened Types

  /** An `<a>` element of the show notes: its text and its `href` attribute. */
  datatype Anchor = Anchor(text: string, href: string)

  /** What the outside world answers about a URL: whether `validators.url` accepts it, and
      the final URL a `GET` ends at, or `None` when the request fails with a connection
      error, a connection reset or a timeout. */
  datatype Resolver = Resolver(isUrl: string -> bool, follow: string -> Option<string>)

  /** A Python dictionary from link text to URL, in insertion order: a sequence of entries
      whose texts are pairwise different. */
  ghost predicate UniqueTexts(d: seq<Link>)
  {
    forall i, j :: 0 <= i < j < |d| ==> d[i].text != d[j].text
  }

  /** The dictionary's keys, in insertion order. */
  function Texts(d: seq<Link>): seq<string>
  {
    seq(|d|, i requires 0 <= i < |d| => d[i].text)
  }

  /** `d.get(text)`. */
  function Lookup(d: seq<Link>, text: string): Option<string>
  {
    if d == [] then None
    else if d[0].text == text then Some(d[0].url)
    else Lookup(d[1..], text)
  }

  /** `d[text] = url`: an existing key keeps its place and takes the new value; a new key
      goes at the end. */
  function Put(d: seq<Link>, text: string, url: string): seq<Link>
  {
    if d == [] then [Link(text, url)]
    else if d[0].text == text then [Link(text, url)] + d[1..]
    else [d[0]] + Put(d[1..], text, url)
  }

  /** The URL stored for an anchor whose `href` is well formed. */
  function Target(a: Anchor, r: Resolver): string
  {
    match r.follow(a.href)
    case Some(final) => final
    case None => a.href
  }

  /** The dictionary after the anchors have been handled in order. */
  function ShowNotes(anchors: seq<Anchor>, r: Resolver): seq<Link>
  {
    if anchors == [] then []
    else
      var d, a := ShowNotes(anchors[..|anchors| - 1], r), anchors[|anchors| - 1];
      if r.isUrl(a.href) then Put(d, a.text, Target(a, r)) else d
  }

  /** The loop over the show-notes anchors. */
  method CollectShowNotes(anchors: seq<Anchor>, r: Resolver) returns (validLinks: seq<Link>)
    ensures validLinks == ShowNotes(anchors, r)
  {
    validLinks := [];
    var i := 0;
    while i < |anchors|
      invariant 0 <= i <= |anchors|
      invariant validLinks == ShowNotes(anchors[..i], r)
    {
      var a := anchors[i];
      assert anchors[..i + 1][..i] == anchors[..i];
      if r.isUrl(a.href) {
        match r.follow(a.href) {
          case Some(final) =>
            validLinks := Put(validLinks, a.text, final);
          case None =>
            validLinks := Put(validLinks, a.text, a.href);
        }
      }
      i := i + 1;
    }
    assert anchors[..|anchors|] == anchors;
  }

  /** Reading a key back after a store: the stored value for that key, the old value for
      any other. */
  lemma {:induction false} LookupPut(d: seq<Link>, text: string, url: string, key: string)
    ensures Lookup(Put(d, text, url), key) == if key == text then Some(url) else Lookup(d, key)
    decreases |d|
  {
    if d != [] && d[0].text != text {
      LookupPut(d[1..], text, url, key);
    }
  }

  /** A key is found exactly when some entry has it. */
  lemma {:induction false} LookupFound(d: seq<Link>, key: string)
    ensures Lookup(d, key).Some? <==> key in Texts(d)
    decreases |d|
  {
    if d != [] {
      LookupFound(d[1..], key);
      assert Texts(d) == [d[0].text] + Texts(d[1..]);
    }
  }

  /** Storing under an existing key leaves the keys as they were; a new key is appended. */
  lemma {:induction false} PutTexts(d: seq<Link>, text: string, url: string)
    ensures Texts(Put(d, text, url)) == if text in Texts(d) then Texts(d) else Texts(d) + [text]
    decreases |d|
  {
    if d != [] {
      assert Texts(d) == [d[0].text] + Texts(d[1..]);
      if d[0].text != text {
        PutTexts(d[1..], text, url);
        assert Texts(Put(d, text, url)) == [d[0].text] + Texts(Put(d[1..], text, url));
      } else {
        assert Texts(Put(d, text, url)) == [text] + Texts(d[1..]);
      }
    }
  }

  lemma UniqueByTexts(d: seq<Link>)
    ensures UniqueTexts(d) <==> forall i, j :: 0 <= i < j < |Texts(d)| ==> Texts(d)[i] != Texts(d)[j]
  {
    assert forall i :: 0 <= i < |d| ==> Texts(d)[i] == d[i].text;
  }

  /** A store never duplicates a key. */
  lemma PutUnique(d: seq<Link>, text: string, url: string)
    requires UniqueTexts(d)
    ensures UniqueTexts(Put(d, text, url))
  {
    PutTexts(d, text, url);
    UniqueByTexts(d);
    UniqueByTexts(Put(d, text, url));
  }

  /** The result is a dictionary: no text is filed twice. */
  lemma {:induction false} ShowNotesUnique(anchors: seq<Anchor>, r: Resolver)
    ensures UniqueTexts(ShowNotes(anchors, r))
    decreases |anchors|
  {
    if anchors != [] {
      var a := anchors[|anchors| - 1];
      ShowNotesUnique(anchors[..|anchors| - 1], r);
      if r.isUrl(a.href) {
        PutUnique(ShowNotes(anchors[..|anchors| - 1], r), a.text, Target(a, r));
      }
    }
  }

  /** A text is missing from the result exactly when no anchor with that text has a
      well-formed `href`. */
  lemma {:induction false} ShowNotesMissing(anchors: seq<Anchor>, r: Resolver, text: string)
    ensures Lookup(ShowNotes(anchors, r), text) == None
      <==> forall k :: 0 <= k < |anchors| && anchors[k].text == text ==> !r.isUrl(anchors[k].href)
    decreases |anchors|
  {
    if anchors != [] {
      var front, a := anchors[..|anchors| - 1], anchors[|anchors| - 1];
      ShowNotesMissing(front, r, text);
      if r.isUrl(a.href) {
        LookupPut(ShowNotes(front, r), a.text, Target(a, r), text);
      }
      assert forall k :: 0 <= k < |front| ==> front[k] == anchors[k];
    }
  }

  /** A text is filed with the URL of the last anchor that has it and a well-formed `href`:
      a later anchor with the same text overwrites an earlier one. */
  lemma {:induction false} ShowNotesLastWins(anchors: seq<Anchor>, r: Resolver, k: nat)
    requires k < |anchors| && r.isUrl(anchors[k].href)
    requires forall j :: k < j < |anchors| && anchors[j].text == anchors[k].text ==> !r.isUrl(anchors[j].href)
    ensures Lookup(ShowNotes(anchors, r), anchors[k].text) == Some(Target(anchors[k], r))
    decreases |anchors|
  {
    var front, a := anchors[..|anchors| - 1], anchors[|anchors| - 1];
    if r.isUrl(a.href) {
      LookupPut(ShowNotes(front, r), a.text, Target(a, r), anchors[k].text);
    }
    if k < |anchors| - 1 {
      assert front[k] == anchors[k];
      ShowNotesLastWins(front, r, k);
    }
  }

  /** The texts of the anchors with a well-formed `href`, each once, in the order of its
      first such anchor. */
  function FirstTexts(anchors: seq<Anchor>, r: Resolver): seq<string>
  {
    if anchors == [] then []
    else
      var keys, a := FirstTexts(anchors[..|anchors| - 1], r), anchors[|anchors| - 1];
      if r.isUrl(a.href) && a.text !in keys then keys + [a.text] else keys
  }

  /** The dictionary's keys are the texts of the anchors with a well-formed `href`, in
      the order each was first stored. */
  lemma {:induction false} ShowNotesOrder(anchors: seq<Anchor>, r: Resolver)
    ensures Texts(ShowNotes(anchors, r)) == FirstTexts(anchors, r)
    decreases |anchors|
  {
    if anchors != [] {
      var front, a := anchors[..|anchors| - 1], anchors[|anchors| - 1];
      ShowNotesOrder(front, r);
      if r.isUrl(a.href) {
        PutTexts(ShowNotes(front, r), a.text, Target(a, r));
      }
    }
  }
}
