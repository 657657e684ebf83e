/**
 * The song controller: the round shuffle, the selected-songs query and song
 * insertion, as operations on the song collection.
 */
module SongController {
  import opened Wrappers
  import opened Seqs
  import opened ShortCodes
  import opened SongModel

  /** How many songs of each language a round shows. */
  const PerLanguage: nat := 5

  function Min(a: nat, b: nat): nat
  {
    if a <= b then a else b
  }

  /** `perm` reorders the positions 0..n-1. */
  predicate IsPermutation(perm: seq<nat>, n: nat)
  {
    && |perm| == n
    && (forall i :: 0 <= i < n ==> perm[i] < n)
    && (forall i, j :: 0 <= i < j < n ==> perm[i] != perm[j])
  }

  /** `xs` in the order `perm` gives. */
  function Permute(xs: seq<Song>, perm: seq<nat>): (r: seq<Song>)
    requires IsPermutation(perm, |xs|)
    ensures |r| == |xs| && forall s :: s in r ==> s in xs
  {
    seq(|xs|, i requires 0 <= i < |xs| => xs[perm[i]])
  }

  /**
   * `songs.sort(() => 0.5 - Math.random()).slice(0, 5)`: the random comparator
   * yields some ordering of the list, of which the first five are kept.
   */
  method DrawUpToFive(found: seq<Song>) returns (picked: seq<Song>)
    ensures |picked| == Min(PerLanguage, |found|)
    ensures forall s :: s in picked ==> s in found
    ensures UniqueIds(found) ==> UniqueIds(picked)
  {
    assert IsPermutation(seq(|found|, i => i), |found|);
    var perm :| IsPermutation(perm, |found|);
    var shuffled := Permute(found, perm);
    picked := shuffled[..Min(PerLanguage, |shuffled|)];
    if UniqueIds(found) {
      forall i, j | 0 <= i < j < |picked| ensures picked[i].id != picked[j].id {
        assert picked[i] == found[perm[i]] && picked[j] == found[perm[j]];
      }
    }
  }

  /** `Song.updateMany({}, { is_selected: false })`. */
  function ResetAll(c: seq<Song>): (r: seq<Song>)
    ensures OnlySelectionChanged(c, r)
    ensures Selected(r) == []
  {
    var r := seq(|c|, i requires 0 <= i < |c| => c[i].(isSelected := false));
    FilterNone(r, Flagged);
    r
  }

  /** `Song.updateMany({ _id: { $in: ids } }, { is_selected: true })`. */
  function FlagIds(c: seq<Song>, ids: seq<SongId>): (r: seq<Song>)
    ensures OnlySelectionChanged(c, r)
    ensures forall i :: 0 <= i < |c| ==> (r[i].isSelected <==> c[i].isSelected || c[i].id in ids)
  {
    seq(|c|, i requires 0 <= i < |c| => if c[i].id in ids then c[i].(isSelected := true) else c[i])
  }

  /** The ids pushed into `selectedIds` for a list of songs, in order. */
  function IdsOf(s: seq<Song>): (ids: seq<SongId>)
    ensures forall x :: x in ids <==> x in IdSet(s)
  {
    if s == [] then []
    else
      assert IdSet(s) == {s[0].id} + IdSet(s[1..]);
      [s[0].id] + IdsOf(s[1..])
  }

  /** `b` is `a` with, at most, different `is_selected` flags. */
  ghost predicate OnlySelectionChanged(a: seq<Song>, b: seq<Song>)
  {
    |a| == |b| && forall i :: 0 <= i < |a| ==> b[i] == a[i].(isSelected := b[i].isSelected)
  }

  /** Changing only flags keeps the number of songs of each language. */
  lemma {:induction false} SelectionChangeKeepsCount(a: seq<Song>, b: seq<Song>, l: Language)
    requires OnlySelectionChanged(a, b)
    ensures |OfLanguage(a, l)| == |OfLanguage(b, l)|
  {
    if a != [] {
      var a', b' := a[1..], b[1..];
      assert OnlySelectionChanged(a', b') by {
        forall i | 0 <= i < |a'| ensures b'[i] == a'[i].(isSelected := b'[i].isSelected) {
          assert a'[i] == a[i + 1] && b'[i] == b[i + 1];
        }
      }
      SelectionChangeKeepsCount(a', b', l);
      assert [a[0]] + a' == a && [b[0]] + b' == b;
      FilterCons(a[0], a', HasLanguage(l));
      FilterCons(b[0], b', HasLanguage(l));
      assert b[0].language == a[0].language;
    }
  }

  /** Changing only selection flags keeps the collection invariant. */
  lemma SelectionChangeKeepsValid(a: seq<Song>, b: seq<Song>)
    requires OnlySelectionChanged(a, b) && ValidCatalog(a)
    ensures ValidCatalog(b)
  {
    forall s | s in b ensures ValidSong(s) {
      var i :| 0 <= i < |b| && b[i] == s;
      assert a[i] in a;
    }
  }

  lemma LangIdsCons(x: Song, r: seq<Song>, l: Language)
    ensures LangIds([x] + r, l) == (if x.language == l then {x.id} else {}) + LangIds(r, l)
  {
  }

  lemma FlagIdsCons(x: Song, r: seq<Song>, ids: seq<SongId>)
    ensures FlagIds([x] + r, ids) == [if x.id in ids then x.(isSelected := true) else x] + FlagIds(r, ids)
  {
  }

  lemma SelectedOfLanguageCons(x: Song, r: seq<Song>, l: Language)
    ensures |OfLanguage(Selected([x] + r), l)| == (if x.isSelected && x.language == l then 1 else 0) + |OfLanguage(Selected(r), l)|
  {
    FilterCons(x, r, Flagged);
    assert Flagged(x) == x.isSelected;
    if x.isSelected {
      assert Selected([x] + r) == [x] + Selected(r);
      FilterCons(x, Selected(r), HasLanguage(l));
      assert HasLanguage(l)(x) == (x.language == l);
    } else {
      assert Selected([x] + r) == Selected(r);
    }
  }

  /** Intersecting with a set grown by one fresh id grows by one exactly when the id is chosen. */
  lemma InterGrow(chosen: set<SongId>, id: SongId, rest: set<SongId>, grows: bool)
    requires id !in rest
    ensures |chosen * ((if grows then {id} else {}) + rest)| == (if grows && id in chosen then 1 else 0) + |chosen * rest|
  {
    if grows && id in chosen {
      assert chosen * ({id} + rest) == {id} + chosen * rest;
    } else {
      assert chosen * ((if grows then {id} else {}) + rest) == chosen * rest;
    }
  }

  /**
   * After a reset, flagging the ids of the set `chosen` selects, in each
   * language, as many songs as `chosen` holds ids of that language.
   */
  lemma {:induction false} FlaggedCount(c: seq<Song>, ids: seq<SongId>, chosen: set<SongId>, l: Language)
    requires UniqueIds(c) && forall s :: s in c ==> !s.isSelected
    requires forall x :: x in ids <==> x in chosen
    ensures |OfLanguage(Selected(FlagIds(c, ids)), l)| == |chosen * LangIds(c, l)|
  {
    if c == [] {
      assert FlagIds(c, ids) == [];
    } else {
      var x, r := c[0], c[1..];
      assert c == [x] + r;
      UniqueIdsCons(x, r);
      FlaggedCount(r, ids, chosen, l);
      FlagIdsCons(x, r, ids);
      var fx := if x.id in ids then x.(isSelected := true) else x;
      assert fx.isSelected == (x.id in chosen) && fx.language == x.language;
      SelectedOfLanguageCons(fx, FlagIds(r, ids), l);
      LangIdsCons(x, r, l);
      InterGrow(chosen, x.id, LangIds(r, l), x.language == l);
    }
  }

  /** The position of a language in the order the shuffle visits them. */
  function LanguageIndex(l: Language): (k: nat)
    ensures k < |Languages| && Languages[k] == l
  {
    match l
    case Hindi => 0
    case Bengali => 1
    case English => 2
  }

  /** The picks of one language: ids of that language, as many as picks. */
  lemma PickedIds(base: seq<Song>, picked: seq<Song>, l: Language)
    requires UniqueIds(picked)
    requires forall s :: s in picked ==> s in OfLanguage(base, l)
    ensures IdSet(picked) <= LangIds(base, l) && |IdSet(picked)| == |picked|
  {
    IdSetSize(picked);
  }

  /** Adding ids of language set `a` to a `chosen` disjoint from it settles `a` and leaves `b` alone. */
  lemma SetStep(chosen: set<SongId>, p: set<SongId>, a: set<SongId>, b: set<SongId>)
    requires p <= a && chosen !! a && a !! b
    ensures (chosen + p) * a == p
    ensures (chosen + p) * b == chosen * b
  {
  }

  /**
   * One turn of the language loop: adding the picks of language `l`
   * (at most five of that language, distinct) settles `l` and leaves the
   * other languages as they were.
   */
  lemma ChoiceStep(base: seq<Song>, chosen: set<SongId>, picked: seq<Song>, l: Language)
    requires UniqueIds(base)
    requires chosen !! LangIds(base, l)
    requires UniqueIds(picked)
    requires forall s :: s in picked ==> s in OfLanguage(base, l)
    ensures |(chosen + IdSet(picked)) * LangIds(base, l)| == |picked|
    ensures forall m :: m != l ==> (chosen + IdSet(picked)) * LangIds(base, m) == chosen * LangIds(base, m)
  {
    PickedIds(base, picked, l);
    forall m | m != l
      ensures (chosen + IdSet(picked)) * LangIds(base, m) == chosen * LangIds(base, m)
    {
      LangIdsDisjoint(base, l, m);
      SetStep(chosen, IdSet(picked), LangIds(base, l), LangIds(base, m));
    }
    SetStep(chosen, IdSet(picked), LangIds(base, l), {});
  }

  /**
   * The loop state after `k` languages: the drawn ids settle each visited
   * language at up to five songs and touch no language still to come.
   */
  ghost predicate Settled(base: seq<Song>, chosen: set<SongId>, k: nat)
  {
    && (forall l :: LanguageIndex(l) >= k ==> chosen !! LangIds(base, l))
    && (forall l :: LanguageIndex(l) < k ==> |chosen * LangIds(base, l)| == Min(PerLanguage, |OfLanguage(base, l)|))
  }

  /** Adding the picks of the `k`-th language moves the loop state from `k` to `k + 1`. */
  lemma SettleStep(base: seq<Song>, chosen: set<SongId>, picked: seq<Song>, k: nat)
    requires k < |Languages| && UniqueIds(base) && Settled(base, chosen, k)
    requires UniqueIds(picked)
    requires forall s :: s in picked ==> s in OfLanguage(base, Languages[k])
    requires |picked| == Min(PerLanguage, |OfLanguage(base, Languages[k])|)
    ensures Settled(base, chosen + IdSet(picked), k + 1)
  {
    var l := Languages[k];
    assert LanguageIndex(l) == k;
    ChoiceStep(base, chosen, picked, l);
    forall m | LanguageIndex(m) != k
      ensures m != l
    {
    }
  }

  /**
   * What the shuffle leaves behind: flagging the drawn ids in the reset
   * collection changes only flags, flags exactly the drawn songs and
   * selects, per language, as many songs as were drawn of it.
   */
  lemma ShuffleOutcome(initial: seq<Song>, base: seq<Song>, ids: seq<SongId>, chosen: set<SongId>)
    requires ValidCatalog(initial) && base == ResetAll(initial)
    requires forall x :: x in ids <==> x in chosen
    requires forall l :: |chosen * LangIds(base, l)| == Min(PerLanguage, |OfLanguage(base, l)|)
    ensures ValidCatalog(FlagIds(base, ids))
    ensures OnlySelectionChanged(initial, FlagIds(base, ids))
    ensures forall s :: s in FlagIds(base, ids) ==> (s.isSelected <==> s.id in chosen)
    ensures forall l :: |OfLanguage(Selected(FlagIds(base, ids)), l)| == Min(PerLanguage, |OfLanguage(initial, l)|)
    ensures |Selected(FlagIds(base, ids))| <= |Languages| * PerLanguage
  {
    var final := FlagIds(base, ids);
    assert OnlySelectionChanged(initial, base);
    assert OnlySelectionChanged(initial, final);
    SelectionChangeKeepsValid(initial, final);
    SelectionChangeKeepsValid(initial, base);
    forall l ensures |OfLanguage(Selected(final), l)| == Min(PerLanguage, |OfLanguage(initial, l)|) {
      FlaggedCount(base, ids, chosen, l);
      SelectionChangeKeepsCount(initial, base, l);
    }
    LanguagePartition(Selected(final));
  }

  /** The body fields `addSong` reads: `name`, `artist`, `language`, `url`, `lyrics`, `album`. */
  datatype AddSongRequest = AddSongRequest(
    name: Option<string>,
    artist: Option<string>,
    language: Option<string>,
    url: Option<string>,
    lyrics: Option<string>,
    album: Option<string>)

  /** The answers of `addSong`. */
  datatype AddSongResponse =
    | Added(song: Song)
    | MissingFields
    | NameTaken(existing: string)
    | DuplicateShortCode
    | ServerError

  /** The HTTP status of each answer. */
  function Status(r: AddSongResponse): (code: nat)
    ensures code == 201 <==> r.Added?
    ensures code == 400 <==> r.MissingFields? || r.DuplicateShortCode?
    ensures code == 409 <==> r.NameTaken?
    ensures code == 500 <==> r.ServerError?
  {
    match r
    case Added(_) => 201
    case MissingFields => 400
    case NameTaken(_) => 409
    case DuplicateShortCode => 400
    case ServerError => 500
  }

  /** The guard `name && artist && language && url`: each present and, being a string, non-empty. */
  predicate Complete(req: AddSongRequest)
  {
    Given(req.name) && Given(req.artist) && Given(req.language) && Given(req.url)
  }

  /** The condition `song_name` matches `^name$` case-insensitively. */
  function NameIs(name: string): Song -> bool
  {
    (s: Song) => EqualsIgnoreCase(s.songName, name)
  }

  /** The generated `short_code`: upper-cased first letter of the language, then the count plus one. */
  function NextShortCode(c: seq<Song>, language: string): (code: string)
    requires language != ""
    ensures ParseShortCode(code) == Some((UpperChar(language[0]), CountByLanguageName(c, language) + 1))
  {
    ParseShortCodeOfShortCode(UpperChar(language[0]), CountByLanguageName(c, language) + 1);
    ShortCode(UpperChar(language[0]), CountByLanguageName(c, language) + 1)
  }

  /** The letter a language's codes start with. */
  function Initial(l: Language): (ch: char)
    ensures ch == "HBE"[LanguageIndex(l)]
  {
    UpperChar(LanguageName(l)[0])
  }

  /** For a known language the code is its initial followed by one more than its song count. */
  lemma NextShortCodeOfLanguage(c: seq<Song>, l: Language)
    ensures NextShortCode(c, LanguageName(l)) == ShortCode(Initial(l), |OfLanguage(c, l)| + 1)
    ensures ParseShortCode(NextShortCode(c, LanguageName(l))) == Some((Initial(l), |OfLanguage(c, l)| + 1))
  {
    CountByLanguageNameIs(c, l);
    ParseShortCodeOfShortCode(Initial(l), |OfLanguage(c, l)| + 1);
  }

  /** The object literal handed to `Song.create`, with `lyrics || ''` and `is_selected: false`. */
  function NewSongFields(req: AddSongRequest, code: string, username: string): (f: SongFields)
    ensures f.lyricsLink == Some(if Given(req.lyrics) then req.lyrics.value else "")
    ensures f.isSelected == Some(false) && f.shortCode == Some(code) && f.addedBy == Some(username)
  {
    SongFields(
      songName := req.name, artist := req.artist, album := req.album,
      introAudioUrl := req.url, lyricsLink := Some(if Given(req.lyrics) then req.lyrics.value else ""),
      language := req.language, shortCode := Some(code), isSelected := Some(false),
      addedBy := Some(username))
  }

  /**
   * The controller's guard and the schema agree: with a generated code, the
   * fields pass validation exactly when the request is complete and names a
   * language of the enum, so an unknown language is the only way a complete
   * request can fail validation.
   */
  lemma CompleteMeansAdmissible(req: AddSongRequest, code: string, username: string)
    requires code != ""
    ensures Admissible(NewSongFields(req, code, username)) <==> Complete(req) && ParseLanguage(req.language.value).Some?
  {
    if req.language == Some("") {
      assert ParseLanguage("").None?;
    }
  }

  /**
   * As written, a complete request without lyrics fails validation (so
   * `addSong` answers 500), because `lyrics || ''` hands the required
   * `lyrics_link` an empty string.
   */
  lemma OmittedLyricsRejectedAsWritten(c: seq<Song>, req: AddSongRequest, code: string, username: string)
    requires !Given(req.lyrics)
    ensures CreateAsWritten(c, NewSongFields(req, code, username)).ValidationError?
  {
  }

  /**
   * With `lyrics_link` optional, the same request is stored with an empty
   * lyrics link whenever its language is known and its code is free.
   */
  lemma OmittedLyricsAccepted(c: seq<Song>, req: AddSongRequest, l: Language, username: string)
    requires Complete(req) && !Given(req.lyrics) && req.language == Some(LanguageName(l))
    requires forall s :: s in c ==> s.shortCode != NextShortCode(c, LanguageName(l))
    ensures var r := Create(c, NewSongFields(req, NextShortCode(c, LanguageName(l)), username));
      r.Created? && r.song.lyricsLink == "" && r.song.language == l
  {
    ParseLanguageName(l);
  }

  class SongStore {
    /** The song collection, in insertion order. */
    var songs: seq<Song>

    ghost predicate Valid()
      reads this
    {
      ValidCatalog(songs)
    }

    constructor (initial: seq<Song>)
      requires ValidCatalog(initial)
      ensures Valid() && songs == initial
    {
      songs := initial;
    }

    /** `getSelectedSongs`: the songs whose flag is set, in collection order. */
    method GetSelectedSongs() returns (r: seq<Song>)
      ensures forall s :: s in r <==> s in songs && s.isSelected
      ensures IsSubsequence(r, songs)
      ensures r == Selected(songs)
    {
      r := Selected(songs);
      FilterIsSubsequence(songs, Flagged);
    }

    /**
     * `shuffleSongs`: clear every flag, draw up to five songs of each of
     * Hindi, Bengali and English, flag the drawn songs and return the songs
     * now flagged. `chosen` is the set of drawn ids.
     */
    method Shuffle() returns (r: seq<Song>, ghost chosen: set<SongId>)
      requires Valid()
      modifies this
      ensures Valid()
      ensures OnlySelectionChanged(old(songs), songs)
      ensures forall s :: s in songs ==> (s.isSelected <==> s.id in chosen)
      ensures forall l :: |OfLanguage(Selected(songs), l)| == Min(PerLanguage, |OfLanguage(old(songs), l)|)
      ensures |Selected(songs)| <= |Languages| * PerLanguage
      ensures r == Selected(songs)
    {
      ghost var initial := songs;
      songs := ResetAll(songs);
      ghost var base := songs;
      assert OnlySelectionChanged(initial, base);
      SelectionChangeKeepsValid(initial, base);

      var languages := Languages;
      var selectedIds: seq<SongId> := [];
      chosen := {};
      for k := 0 to |languages|
        invariant songs == base
        invariant forall x :: x in selectedIds <==> x in chosen
        invariant Settled(base, chosen, k)
      {
        var found := OfLanguage(songs, languages[k]);
        FilterKeepsUniqueIds(songs, HasLanguage(languages[k]));
        if |found| == 0 {
          assert chosen + IdSet([]) == chosen;
          SettleStep(base, chosen, [], k);
          continue;
        }
        var picked := DrawUpToFive(found);
        SettleStep(base, chosen, picked, k);
        selectedIds := selectedIds + IdsOf(picked);
        chosen := chosen + IdSet(picked);
      }

      songs := FlagIds(songs, selectedIds);
      ShuffleOutcome(initial, base, selectedIds, chosen);
      r := Selected(songs);
    }

    /**
     * `addSong`: the field guard (400), the case-insensitive name check
     * (409), the short code from the language count, then `Song.create`
     * with the requester's username. `requester` is `req.user`'s username,
     * `None` when no user record was found; reading it then throws (500).
     * A validation failure answers 500, the unique index on `short_code`
     * answers 400.
     */
    method AddSong(req: AddSongRequest, requester: Option<string>) returns (r: AddSongResponse)
      requires Valid()
      modifies this
      ensures Valid()
      ensures r.MissingFields? <==> !Complete(req)
      ensures r.NameTaken? <==> Complete(req) && exists s :: s in old(songs) && EqualsIgnoreCase(s.songName, req.name.value)
      ensures r.NameTaken? ==> exists s :: s in old(songs) && EqualsIgnoreCase(s.songName, req.name.value) && s.songName == r.existing
      ensures r.ServerError? <==>
        (&& Complete(req) && (forall s :: s in old(songs) ==> !EqualsIgnoreCase(s.songName, req.name.value))
         && (requester.None? || ParseLanguage(req.language.value).None?))
      ensures r.DuplicateShortCode? <==>
        (&& Complete(req) && (forall s :: s in old(songs) ==> !EqualsIgnoreCase(s.songName, req.name.value))
         && requester.Some? && ParseLanguage(req.language.value).Some?
         && exists s :: s in old(songs) && s.shortCode == NextShortCode(old(songs), req.language.value))
      ensures !r.Added? ==> songs == old(songs)
      ensures r.Added? ==> songs == old(songs) + [r.song] && r.song.id !in IdSet(old(songs))
      ensures r.Added? ==>
        && r.song.songName == req.name.value && r.song.artist == req.artist.value
                           && LanguageName(r.song.language) == req.language.value && r.song.introAudioUrl == req.url.value
                           && r.song.album == req.album && r.song.addedBy == requester
      ensures r.Added? ==> r.song.shortCode == NextShortCode(old(songs), req.language.value) && !r.song.isSelected
      ensures r.Added? ==> r.song.lyricsLink == (if Given(req.lyrics) then req.lyrics.value else "")
    {
      if !Complete(req) {
        return MissingFields;
      }
      var name, language := req.name.value, req.language.value;
      var existing := FindFirst(songs, NameIs(name));
      if existing.Some? {
        return NameTaken(existing.value.songName);
      }
      var code := NextShortCode(songs, language);
      if requester.None? {
        return ServerError;
      }
      var fields := NewSongFields(req, code, requester.value);
      var created := Create(songs, fields);
      match created {
        case ValidationError =>
          r := ServerError;
        case DuplicateKey =>
          r := DuplicateShortCode;
        case Created(song) =>
          CreateKeepsCatalogValid(songs, fields);
          songs := songs + [song];
          r := Added(song);
      }
    }
  }
}