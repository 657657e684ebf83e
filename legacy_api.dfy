/**
 * The legacy router's `/shuffle` and `/songs/selected` handlers: the same
 * reset-draw-flag sequence as the controller, except that a language with
 * no songs is not skipped; its draw is simply empty.
 */
module LegacyApi {
  import opened Seqs
  import opened SongModel
  import opened SongController

  /** `GET /songs/selected`: the songs whose flag is set, in collection order. */
  method SelectedSongs(store: SongStore) returns (r: seq<Song>)
    ensures forall s :: s in r <==> s in store.songs && s.isSelected
    ensures IsSubsequence(r, store.songs)
    ensures r == Selected(store.songs)
  {
    r := Selected(store.songs);
    FilterIsSubsequence(store.songs, Flagged);
  }

  /**
   * `POST /shuffle`: clear every flag, draw up to five songs of each
   * language (an empty draw for a language without songs), flag the drawn
   * songs and return the songs now flagged.
   */
  method LegacyShuffle(store: SongStore) returns (r: seq<Song>, ghost chosen: set<SongId>)
    requires store.Valid()
    modifies store
    ensures store.Valid()
    ensures OnlySelectionChanged(old(store.songs), store.songs)
    ensures forall s :: s in store.songs ==> (s.isSelected <==> s.id in chosen)
    ensures forall l :: |OfLanguage(Selected(store.songs), l)| == Min(PerLanguage, |OfLanguage(old(store.songs), l)|)
    ensures |Selected(store.songs)| <= |Languages| * PerLanguage
    ensures r == Selected(store.songs)
  {
    ghost var initial := store.songs;
    store.songs := ResetAll(store.songs);
    ghost var base := store.songs;
    assert OnlySelectionChanged(initial, base);
    SelectionChangeKeepsValid(initial, base);

    var languages := Languages;
    var selectedIds: seq<SongId> := [];
    chosen := {};
    for k := 0 to |languages|
      invariant store.songs == base
      invariant forall x :: x in selectedIds <==> x in chosen
      invariant Settled(base, chosen, k)
    {
      var found := OfLanguage(store.songs, languages[k]);
      FilterKeepsUniqueIds(store.songs, HasLanguage(languages[k]));
      var picked := DrawUpToFive(found);
      SettleStep(base, chosen, picked, k);
      selectedIds := selectedIds + IdsOf(picked);
      chosen := chosen + IdSet(picked);
    }

    store.songs := FlagIds(store.songs, selectedIds);
    ShuffleOutcome(initial, base, selectedIds, chosen);
    r := Selected(store.songs);
  }
}
