/**
 * The home page's list logic: grouping the shown songs by language, the
 * order of the language sections and the choice made on the first load.
 */
module HomePage {
  import opened Seqs
  import opened SongModel
  import opened SongController

  /** One more song: the present languages and each language's songs grow by that song. */
  lemma GroupTurn(prefix: seq<Song>, song: Song)
    ensures PresentLanguages(prefix + [song]) ==
      if song.language in PresentLanguages(prefix) then PresentLanguages(prefix)
      else PresentLanguages(prefix) + [song.language]
    ensures forall l :: OfLanguage(prefix + [song], l) == OfLanguage(prefix, l) + if song.language == l then [song] else []
  {
    assert LanguagesOf(prefix + [song])[..|prefix|] == LanguagesOf(prefix);
    forall l ensures OfLanguage(prefix + [song], l) == OfLanguage(prefix, l) + if song.language == l then [song] else [] {
      FilterAppend(prefix, [song], HasLanguage(l));
    }
  }

  /** `groups` and its key order `keys` hold the songs of `prefix` grouped by language. */
  ghost predicate GroupedAs(groups: map<Language, seq<Song>>, keys: seq<Language>, prefix: seq<Song>)
  {
    && keys == PresentLanguages(prefix)
    && (forall l :: l in groups <==> l in keys)
    && (forall l :: l in groups ==> groups[l] == OfLanguage(prefix, l))
  }

  /** Pushing a song onto the array of a language already grouped extends the grouping by that song. */
  lemma PushExisting(prefix: seq<Song>, song: Song, groups: map<Language, seq<Song>>, keys: seq<Language>)
    requires GroupedAs(groups, keys, prefix) && song.language in groups
    ensures GroupedAs(groups[song.language := groups[song.language] + [song]], keys, prefix + [song])
  {
    GroupTurn(prefix, song);
    var groups' := groups[song.language := groups[song.language] + [song]];
    assert keys == PresentLanguages(prefix + [song]);
    assert forall l :: l in groups' <==> l in keys;
    forall l | l in groups' ensures groups'[l] == OfLanguage(prefix + [song], l) {
      assert l in groups;
    }
  }

  /** Creating the array of a new language and pushing the song onto it extends the grouping by that song. */
  lemma PushNew(prefix: seq<Song>, song: Song, groups: map<Language, seq<Song>>, keys: seq<Language>)
    requires GroupedAs(groups, keys, prefix) && song.language !in groups
    ensures GroupedAs(groups[song.language := [] + [song]], keys + [song.language], prefix + [song])
  {
    GroupTurn(prefix, song);
    NoSongsNoGroup(prefix, song.language);
  }

  /** A language no song has selects nothing. */
  lemma NoSongsNoGroup(songs: seq<Song>, l: Language)
    requires l !in PresentLanguages(songs)
    ensures OfLanguage(songs, l) == []
  {
    FilterNone(songs, HasLanguage(l));
  }

  /**
   * `songs.reduce(...)` into a dictionary of arrays keyed by language,
   * with `keys` the dictionary's key order (`Object.keys`): each song is
   * pushed onto its own language's array, which is created the first time
   * the language is met.
   */
  method GroupByLanguage(songs: seq<Song>) returns (groups: map<Language, seq<Song>>, keys: seq<Language>)
    ensures keys == PresentLanguages(songs)
    ensures forall l :: l in groups <==> l in keys
    ensures forall l :: l in groups ==> groups[l] == OfLanguage(songs, l)
  {
    groups, keys := map[], [];
    for i := 0 to |songs|
      invariant GroupedAs(groups, keys, songs[..i])
    {
      var song := songs[i];
      assert songs[..i + 1] == songs[..i] + [song];
      if song.language !in groups {
        PushNew(songs[..i], song, groups, keys);
        groups := groups[song.language := []];
        keys := keys + [song.language];
      } else {
        PushExisting(songs[..i], song, groups, keys);
      }
      groups := groups[song.language := groups[song.language] + [song]];
    }
    assert songs[..|songs|] == songs;
  }

  /** The size of a language's section; an absent language has none. */
  function SectionSize(groups: map<Language, seq<Song>>, l: Language): nat
  {
    if l in groups then |groups[l]| else 0
  }

  /** The sections partition the list: their sizes add up to the number of songs. */
  lemma SectionsPartition(songs: seq<Song>, groups: map<Language, seq<Song>>)
    requires forall l :: l in groups <==> l in PresentLanguages(songs)
    requires forall l :: l in groups ==> groups[l] == OfLanguage(songs, l)
    ensures SectionSize(groups, Hindi) + SectionSize(groups, Bengali) + SectionSize(groups, English) == |songs|
  {
    LanguagePartition(songs);
    forall l | l !in groups
      ensures OfLanguage(songs, l) == []
    {
      NoSongsNoGroup(songs, l);
    }
  }

  /** After a shuffle of a non-empty collection, some song is selected. */
  lemma ShuffleSelectsSome(before: seq<Song>, after: seq<Song>)
    requires before != []
    requires forall l :: |OfLanguage(Selected(after), l)| == Min(PerLanguage, |OfLanguage(before, l)|)
    ensures Selected(after) != []
  {
    LanguagePartition(before);
    LanguagePartition(Selected(after));
  }

  /**
   * `fetchSelectedSongs`: show the selected songs, or, when none is
   * selected, shuffle once and show the shuffle's result.
   */
  method InitialLoad(store: SongStore) returns (shown: seq<Song>)
    requires store.Valid()
    modifies store
    ensures store.Valid()
    ensures shown == Selected(store.songs)
    ensures OnlySelectionChanged(old(store.songs), store.songs)
    ensures Selected(old(store.songs)) != [] ==> store.songs == old(store.songs)
    ensures Selected(old(store.songs)) == [] ==>
      forall l :: |OfLanguage(Selected(store.songs), l)| == Min(PerLanguage, |OfLanguage(old(store.songs), l)|)
    ensures old(store.songs) != [] ==> shown != []
  {
    var selected := store.GetSelectedSongs();
    if |selected| == 0 {
      ghost var before := store.songs;
      ghost var chosen;
      shown, chosen := store.Shuffle();
      if before != [] {
        ShuffleSelectsSome(before, store.songs);
      }
    } else {
      shown := selected;
      assert OnlySelectionChanged(store.songs, store.songs);
    }
  }
}
