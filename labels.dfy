/** The names under which `ChatScraper.categorise_links` files its lists, and the label
    `print_list` writes for each in its "Category" column:
    `category.replace('_', ' ').capitalize().replace('Tv ', 'TV ')`. */
module Labels {
  import opened Strings
  import opened Classifier

  /** The dictionary key of each category. */
  function Key(c: Category): string
  {
    match c
    case Film => "film"
    case Book => "book"
    case Podcast => "podcast"
    case WebClip => "web_clip"
    case Music => "music"
    case TvShow => "tv_show"
    case Misc => "misc"
  }

  /** The "Category" column text for a key. */
  function Label(key: string): string
  {
    Replace(Capitalize(Replace(key, "_", " ")), "Tv ", "TV ")
  }

  /** The key with each underscore read as a space. */
  function Spaced(key: string): string
  {
    seq(|key|, i requires 0 <= i < |key| => if key[i] == '_' then ' ' else key[i])
  }

  /** A label is its key with underscores turned into spaces, up to letter case, and so
      holds no underscore. */
  lemma LabelOnlyCase(key: string)
    ensures |Label(key)| == |key|
    ensures Lower(Label(key)) == Lower(Spaced(key))
    ensures '_' !in Label(key)
  {
    var spaced := Replace(key, "_", " ");
    ReplaceCharPointwise(key, '_', ' ');
    assert spaced == Spaced(key);
    CapitalizeOnlyCase(spaced);
    ReplaceOnlyCase(Capitalize(spaced), "Tv ", "TV ");
    var shown := Label(key);
    forall i | 0 <= i < |shown| ensures shown[i] != '_' {
      assert Lower(shown)[i] == Lower(spaced)[i];
    }
  }

  /** A key without underscores whose capitalised form holds no `T` is just capitalised. */
  lemma PlainLabel(key: string, capital: string)
    requires '_' !in key && Capitalize(key) == capital && 'T' !in capital
    ensures Label(key) == capital
  {
    ReplaceAbsent(key, "_", " ");
    ReplaceAbsent(capital, "Tv ", "TV ");
  }

  /** The labels of the seven categories. */
  lemma CategoryLabels()
    ensures Label(Key(Film)) == "Film"
    ensures Label(Key(Book)) == "Book"
    ensures Label(Key(Podcast)) == "Podcast"
    ensures Label(Key(WebClip)) == "Web clip"
    ensures Label(Key(Music)) == "Music"
    ensures Label(Key(TvShow)) == "TV show"
    ensures Label(Key(Misc)) == "Misc"
  {
    FilmLabel();
    BookLabel();
    PodcastLabel();
    WebClipLabel();
    MusicLabel();
    TvShowLabel();
    MiscLabel();
  }

  lemma FilmLabel()
    ensures Label("film") == "Film"
  {
    CapitalizeLower("film");
    PlainLabel("film", "Film");
  }

  lemma BookLabel()
    ensures Label("book") == "Book"
  {
    CapitalizeLower("book");
    PlainLabel("book", "Book");
  }

  lemma PodcastLabel()
    ensures Label("podcast") == "Podcast"
  {
    CapitalizeLower("podcast");
    PlainLabel("podcast", "Podcast");
  }

  lemma MusicLabel()
    ensures Label("music") == "Music"
  {
    CapitalizeLower("music");
    PlainLabel("music", "Music");
  }

  lemma MiscLabel()
    ensures Label("misc") == "Misc"
  {
    CapitalizeLower("misc");
    PlainLabel("misc", "Misc");
  }

  lemma WebClipLabel()
    ensures Label("web_clip") == "Web clip"
  {
    WebClipSpaced();
    WebClipCapitalized();
    ReplaceAbsent("Web clip", "Tv ", "TV ");
  }

  lemma WebClipSpaced()
    ensures Replace("web_clip", "_", " ") == "web clip"
  {
    ReplaceCharPointwise("web_clip", '_', ' ');
  }

  lemma WebClipCapitalized()
    ensures Capitalize("web clip") == "Web clip"
  {
    CapitalizeLower("web clip");
  }

  /** The final replacement is what turns "Tv show" into "TV show". */
  lemma TvShowLabel()
    ensures Label("tv_show") == "TV show"
  {
    TvShowSpaced();
    TvShowCapitalized();
    TvShowReplaced();
  }

  lemma TvShowSpaced()
    ensures Replace("tv_show", "_", " ") == "tv show"
  {
    ReplaceCharPointwise("tv_show", '_', ' ');
  }

  lemma TvShowCapitalized()
    ensures Capitalize("tv show") == "Tv show"
  {
    CapitalizeLower("tv show");
  }

  lemma TvShowReplaced()
    ensures Replace("Tv show", "Tv ", "TV ") == "TV show"
  {
    ReplaceAtFront("Tv ", "show", "TV ");
    assert "Tv " + "show" == "Tv show";
    assert "TV " + "show" == "TV show";
  }
}
