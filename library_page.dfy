/**
 * The library page's list logic: the tab and search filter, the tab list
 * and the local list update after a delete.
 */
module LibraryPage {
  import opened Wrappers
  import opened Seqs
  import opened SongModel

  /** The active tab: every song, or the songs of one language. */
  datatype Tab = All | Only(language: Language)

  /** The tab condition `song.language === activeTab`. */
  function OnTab(tab: Tab): (onTab: Song -> bool)
    ensures tab.All? ==> forall s :: onTab(s)
    ensures tab.Only? ==> forall s :: onTab(s) == HasLanguage(tab.language)(s)
  {
    (s: Song) => tab.All? || s.language == tab.language
  }

  /**
   * The search condition: the lower-cased term occurs in the lower-cased
   * name, artist or, when there is one, album. The empty term matches
   * every song, since every text includes ''.
   */
  function MatchesTerm(term: string): (matches: Song -> bool)
    ensures term == "" ==> forall s :: matches(s)
  {
    (s: Song) =>
      || Contains(Lower(s.songName), Lower(term))
      || Contains(Lower(s.artist), Lower(term))
      || (s.album.Some? && Contains(Lower(s.album.value), Lower(term)))
  }

  /** The filter effect: the tab filter unless the tab is `All`, then the search filter unless the term is empty. */
  function FilterSongs(songs: seq<Song>, tab: Tab, term: string): (r: seq<Song>)
    ensures forall s :: s in r <==> s in songs && (tab.All? || s.language == tab.language) && (term == "" || MatchesTerm(term)(s))
    ensures tab.All? && term == "" ==> r == songs
  {
    var byTab := if tab.All? then songs else Filter(songs, OnTab(tab));
    if term == "" then byTab else Filter(byTab, MatchesTerm(term))
  }

  /** The filtered list is one filter of the song list, so it keeps the survivors in order. */
  lemma FilterSongsIsSubsequence(songs: seq<Song>, tab: Tab, term: string)
    ensures IsSubsequence(FilterSongs(songs, tab, term), songs)
  {
    var r := FilterSongs(songs, tab, term);
    var byTab := if tab.All? then songs else Filter(songs, OnTab(tab));
    FilterAll(songs, OnTab(All));
    assert byTab == Filter(songs, OnTab(tab));
    if term == "" {
      FilterIsSubsequence(songs, OnTab(tab));
    } else {
      FilterFilter(songs, OnTab(tab), MatchesTerm(term));
      FilterIsSubsequence(songs, Both(OnTab(tab), MatchesTerm(term)));
    }
  }

  /** A language tab with an empty term shows exactly that language's songs, as `Song.find({ language })` would. */
  lemma LanguageTabEmptyTerm(songs: seq<Song>, l: Language)
    ensures FilterSongs(songs, Only(l), "") == OfLanguage(songs, l)
  {
    FilterExtensional(songs, OnTab(Only(l)), HasLanguage(l));
  }

  /** `['All', ...new Set(songs.map(s => s.language))]`. */
  function Tabs(songs: seq<Song>): (tabs: seq<Tab>)
    ensures |tabs| >= 1 && tabs[0] == All
  {
    var langs := PresentLanguages(songs);
    [All] + seq(|langs|, i requires 0 <= i < |langs| => Only(langs[i]))
  }

  /** The tab list has no repeats and offers a language exactly when some song has it. */
  lemma TabsDistinct(songs: seq<Song>)
    ensures NoDups(Tabs(songs))
    ensures forall l :: Only(l) in Tabs(songs) <==> exists s :: s in songs && s.language == l
  {
    var langs := PresentLanguages(songs);
    var tabs := Tabs(songs);
    forall l ensures Only(l) in tabs <==> l in langs {
      if Only(l) in tabs {
        var i :| 0 <= i < |tabs| && tabs[i] == Only(l);
        assert langs[i - 1] == l;
      }
      if l in langs {
        var i :| 0 <= i < |langs| && langs[i] == l;
        assert tabs[i + 1] == Only(l);
      }
    }
  }

  /** The language tabs follow the order in which each language first appears in the list. */
  lemma TabsOrder(songs: seq<Song>)
    ensures forall i, j :: 1 <= i < j < |Tabs(songs)| ==>
      IndexOf(LanguagesOf(songs), Tabs(songs)[i].language) < IndexOf(LanguagesOf(songs), Tabs(songs)[j].language)
  {
    PresentLanguagesOrder(songs);
    var langs := PresentLanguages(songs);
    forall i, j | 1 <= i < j < |Tabs(songs)|
      ensures IndexOf(LanguagesOf(songs), Tabs(songs)[i].language) < IndexOf(LanguagesOf(songs), Tabs(songs)[j].language)
    {
      assert Tabs(songs)[i].language == langs[i - 1] && Tabs(songs)[j].language == langs[j - 1];
    }
  }

  /** The condition `song._id !== id`. */
  function IdIsNot(id: SongId): Song -> bool
  {
    (s: Song) => s.id != id
  }

  /** The list after `handleDeleteSong`: without the deleted id when the server reports success, unchanged otherwise. */
  function AfterDelete(songs: seq<Song>, id: SongId, success: bool): (r: seq<Song>)
    ensures success ==> forall s :: s in r <==> s in songs && s.id != id
    ensures !success ==> r == songs
  {
    if success then Filter(songs, IdIsNot(id)) else songs
  }

  /** A delete keeps the other songs in their order. */
  lemma AfterDeleteIsSubsequence(songs: seq<Song>, id: SongId, success: bool)
    ensures IsSubsequence(AfterDelete(songs, id, success), songs)
  {
    if success {
      FilterIsSubsequence(songs, IdIsNot(id));
    } else {
      SubsequenceRefl(songs);
    }
  }

  /** With unique ids, a successful delete of a listed id removes exactly one song. */
  lemma {:induction false} AfterDeleteRemovesOne(songs: seq<Song>, id: SongId)
    requires UniqueIds(songs) && id in IdSet(songs)
    ensures |AfterDelete(songs, id, true)| == |songs| - 1
  {
    var x, rest := songs[0], songs[1..];
    assert songs == [x] + rest;
    UniqueIdsCons(x, rest);
    FilterCons(x, rest, IdIsNot(id));
    if x.id == id {
      FilterAll(rest, IdIsNot(id));
    } else {
      assert id in IdSet(rest);
      AfterDeleteRemovesOne(rest, id);
    }
  }
}
