/**
 * The Song record of the catalog: its schema (required and optional fields,
 * the language enumeration, the `is_selected` default, the unique index on
 * `short_code`) and the catalog queries the controllers issue.
 *
 * The collection is a sequence in insertion order; a query such as
 * `Song.find({ language })` is a filter over it.
 */
module SongModel {
  import opened Wrappers
  import opened Seqs

  /** The enumeration allowed for the `language` path. */
  datatype Language = Hindi | Bengali | English

  /** The languages in the order the shuffle visits them. */
  const Languages: seq<Language> := [Hindi, Bengali, English]

  function LanguageName(l: Language): string
  {
    match l
    case Hindi => "Hindi"
    case Bengali => "Bengali"
    case English => "English"
  }

  /** The enumeration check: the language a string names, if it names one. */
  function ParseLanguage(s: string): (r: Option<Language>)
    ensures r.Some? ==> LanguageName(r.value) == s
    ensures r.None? ==> forall l :: LanguageName(l) != s
  {
    if s == "Hindi" then Some(Hindi)
    else if s == "Bengali" then Some(Bengali)
    else if s == "English" then Some(English)
    else None
  }

  lemma ParseLanguageName(l: Language)
    ensures ParseLanguage(LanguageName(l)) == Some(l)
  {
  }

  /** A document identifier (`_id`). */
  type SongId = nat

  /** A stored song. */
  datatype Song = Song(
    id: SongId,
    songName: string,
    artist: string,
    album: Option<string>,
    introAudioUrl: string,
    lyricsLink: string,
    language: Language,
    shortCode: string,
    isSelected: bool,
    addedBy: Option<string>)

  /** The object handed to `Song.create`: any path may be missing. */
  datatype SongFields = SongFields(
    songName: Option<string>,
    artist: Option<string>,
    album: Option<string>,
    introAudioUrl: Option<string>,
    lyricsLink: Option<string>,
    language: Option<string>,
    shortCode: Option<string>,
    isSelected: Option<bool>,
    addedBy: Option<string>)

  /** The `required` validator on a string path: present and not empty. */
  predicate Given(f: Option<string>)
  {
    f.Some? && f.value != ""
  }

  /** What every stored song satisfies: its required string paths are non-empty. */
  predicate ValidSong(s: Song)
  {
    s.songName != "" && s.artist != "" && s.introAudioUrl != "" && s.shortCode != ""
  }

  /** The checks of the schema with `lyrics_link` optional, defaulting to ''. */
  predicate Admissible(f: SongFields)
  {
    && Given(f.songName) && Given(f.artist) && Given(f.introAudioUrl) && Given(f.shortCode)
    && f.language.Some? && ParseLanguage(f.language.value).Some?
  }

  /**
   * Document construction and validation, with `lyrics_link` optional and
   * defaulting to '' (the schema as the controller that fills it in intends).
   * `album` and `added_by` are optional; `is_selected` defaults to false.
   */
  function Validate(id: SongId, f: SongFields): (r: Option<Song>)
    ensures r.Some? <==> Admissible(f)
    ensures r.Some? ==> ValidSong(r.value) && r.value.id == id
    ensures r.Some? ==> LanguageName(r.value.language) == f.language.value
    ensures r.Some? ==> r.value.shortCode == f.shortCode.value && r.value.isSelected == (f.isSelected == Some(true))
    ensures r.Some? ==> r.value.songName == f.songName.value && r.value.artist == f.artist.value
    ensures r.Some? ==> r.value.introAudioUrl == f.introAudioUrl.value && r.value.lyricsLink == f.lyricsLink.GetOr("")
    ensures r.Some? ==> r.value.album == f.album && r.value.addedBy == f.addedBy
  {
    if !Admissible(f) then None
    else
      Some(Song(id, f.songName.value, f.artist.value, f.album, f.introAudioUrl.value,
                f.lyricsLink.GetOr(""), ParseLanguage(f.language.value).value,
                f.shortCode.value, f.isSelected.GetOr(false), f.addedBy))
  }

  /** Validation against the schema as written, where `lyrics_link` is required. */
  function ValidateAsWritten(id: SongId, f: SongFields): (r: Option<Song>)
    ensures r.Some? <==> Admissible(f) && Given(f.lyricsLink)
    ensures r.Some? ==> r.value.lyricsLink != ""
  {
    if Given(f.lyricsLink) then Validate(id, f) else None
  }

  /** The optional paths: `album` and `added_by` never decide validity. */
  lemma OptionalPaths(id: SongId, f: SongFields, album: Option<string>, addedBy: Option<string>)
    ensures Validate(id, f).Some? <==> Validate(id, f.(album := album, addedBy := addedBy)).Some?
    ensures ValidateAsWritten(id, f).Some? <==> ValidateAsWritten(id, f.(album := album, addedBy := addedBy)).Some?
  {
  }

  ghost predicate UniqueIds(c: seq<Song>)
  {
    forall i, j :: 0 <= i < j < |c| ==> c[i].id != c[j].id
  }

  ghost predicate UniqueShortCodes(c: seq<Song>)
  {
    forall i, j :: 0 <= i < j < |c| ==> c[i].shortCode != c[j].shortCode
  }

  /** The collection invariant: unique `_id`, the unique index on `short_code`, valid documents. */
  ghost predicate ValidCatalog(c: seq<Song>)
  {
    UniqueIds(c) && UniqueShortCodes(c) && forall s :: s in c ==> ValidSong(s)
  }

  /** The identifiers in use. */
  function IdSet(c: seq<Song>): set<SongId>
  {
    set s | s in c :: s.id
  }

  /** The identifiers of the songs of one language. */
  function LangIds(c: seq<Song>, l: Language): set<SongId>
  {
    set s | s in c && s.language == l :: s.id
  }

  /** The largest stored song id, 0 when there is none. */
  function MaxId(c: seq<Song>): (m: nat)
    ensures forall s :: s in c ==> s.id <= m
  {
    if c == [] then 0
    else
      var m := MaxId(c[1..]);
      if c[0].id > m then c[0].id else m
  }

  /** An identifier no stored song has: the database generates a new `_id`. */
  function FreshId(c: seq<Song>): (id: SongId)
    ensures forall s :: s in c ==> s.id < id
    ensures id !in IdSet(c)
  {
    MaxId(c) + 1
  }

  /** The query condition `{ language: l }`. */
  function HasLanguage(l: Language): Song -> bool
  {
    (s: Song) => s.language == l
  }

  /** The query condition `{ language: name }` for a language given as a string. */
  function HasLanguageName(name: string): Song -> bool
  {
    (s: Song) => LanguageName(s.language) == name
  }

  /** The query condition `{ is_selected: true }`. */
  predicate Flagged(s: Song)
  {
    s.isSelected
  }

  /** `Song.find({ language })`. */
  function OfLanguage(c: seq<Song>, l: Language): seq<Song>
  {
    Filter(c, HasLanguage(l))
  }

  /** `find({ language })` returns exactly the songs of that language, in collection order. */
  lemma OfLanguageIsQuery(c: seq<Song>, l: Language)
    ensures forall s :: s in OfLanguage(c, l) <==> s in c && s.language == l
    ensures IsSubsequence(OfLanguage(c, l), c)
  {
    FilterIsSubsequence(c, HasLanguage(l));
  }

  /** `Song.find({ is_selected: true })`. */
  function Selected(c: seq<Song>): (r: seq<Song>)
    ensures forall s :: s in r <==> s in c && s.isSelected
    ensures IsSubsequence(r, c)
  {
    FilterIsSubsequence(c, Flagged);
    Filter(c, Flagged)
  }

  /** `Song.countDocuments({ language })` for the language string of a request. */
  function CountByLanguageName(c: seq<Song>, name: string): (n: nat)
    ensures ParseLanguage(name).Some? ==> n == |OfLanguage(c, ParseLanguage(name).value)|
    ensures ParseLanguage(name).None? ==> n == 0
  {
    match ParseLanguage(name)
    case Some(l) =>
      FilterExtensional(c, HasLanguageName(name), HasLanguage(l));
      |Filter(c, HasLanguageName(name))|
    case None =>
      FilterNone(c, HasLanguageName(name));
      |Filter(c, HasLanguageName(name))|
  }

  /** Counting by a language's name counts the songs of that language. */
  lemma CountByLanguageNameIs(c: seq<Song>, l: Language)
    ensures CountByLanguageName(c, LanguageName(l)) == |OfLanguage(c, l)|
  {
    ParseLanguageName(l);
  }

  /** The query condition `{ short_code: code }`. */
  function HasShortCode(code: string): Song -> bool
  {
    (s: Song) => s.shortCode == code
  }

  /** The language of each song, in list order (`songs.map(s => s.language)`). */
  function LanguagesOf(songs: seq<Song>): (ls: seq<Language>)
    ensures |ls| == |songs| && forall i :: 0 <= i < |songs| ==> ls[i] == songs[i].language
  {
    seq(|songs|, i requires 0 <= i < |songs| => songs[i].language)
  }

  /** The languages present in a song list, each once, in order of first appearance. */
  function PresentLanguages(songs: seq<Song>): (ls: seq<Language>)
    ensures NoDups(ls)
    ensures forall l :: l in ls <==> exists s :: s in songs && s.language == l
  {
    var all := LanguagesOf(songs);
    assert forall l :: l in all ==> exists s :: s in songs && s.language == l by {
      forall l | l in all ensures exists s :: s in songs && s.language == l {
        var i :| 0 <= i < |all| && all[i] == l;
        assert songs[i] in songs;
      }
    }
    assert forall s :: s in songs ==> s.language in all by {
      forall s | s in songs ensures s.language in all {
        var i :| 0 <= i < |songs| && songs[i] == s;
        assert all[i] == s.language;
      }
    }
    Dedupe(all)
  }

  /** The present languages come in the order of the first song of each. */
  lemma PresentLanguagesOrder(songs: seq<Song>)
    ensures forall i, j :: 0 <= i < j < |PresentLanguages(songs)| ==>
      IndexOf(LanguagesOf(songs), PresentLanguages(songs)[i]) < IndexOf(LanguagesOf(songs), PresentLanguages(songs)[j])
  {
    DedupeFirstAppearance(LanguagesOf(songs));
  }

  /** `Song.findOne({ short_code })`. */
  function FindByShortCode(c: seq<Song>, code: string): (r: Option<Song>)
    ensures r.Some? <==> exists s :: s in c && s.shortCode == code
  {
    FindFirst(c, HasShortCode(code))
  }

  /** The outcome of `Song.create`. */
  datatype CreateResult = Created(song: Song) | ValidationError | DuplicateKey

  /**
   * `Song.create(f)`: validation first; then the insert, which the unique
   * index on `short_code` refuses when the code is taken (error code 11000).
   */
  function Create(c: seq<Song>, f: SongFields): (r: CreateResult)
    ensures r.ValidationError? <==> !Admissible(f)
    ensures r.DuplicateKey? <==> Admissible(f) && exists s :: s in c && s.shortCode == f.shortCode.value
    ensures r.Created? ==> Validate(FreshId(c), f) == Some(r.song)
  {
    match Validate(FreshId(c), f)
    case None => ValidationError
    case Some(song) =>
      if FindByShortCode(c, song.shortCode).Some? then DuplicateKey else Created(song)
  }

  /** `Song.create(f)` against the schema as written, where an empty `lyrics_link` fails validation. */
  function CreateAsWritten(c: seq<Song>, f: SongFields): (r: CreateResult)
    ensures r.ValidationError? <==> !(Admissible(f) && Given(f.lyricsLink))
    ensures Given(f.lyricsLink) ==> r == Create(c, f)
  {
    if Given(f.lyricsLink) then Create(c, f) else ValidationError
  }

  /** A successful `Song.create` keeps the collection invariant. */
  lemma CreateKeepsCatalogValid(c: seq<Song>, f: SongFields)
    requires ValidCatalog(c) && Create(c, f).Created?
    ensures ValidCatalog(c + [Create(c, f).song])
  {
    var s := Create(c, f).song;
    var c' := c + [s];
    forall i, j | 0 <= i < j < |c'|
      ensures c'[i].id != c'[j].id && c'[i].shortCode != c'[j].shortCode
    {
      if j == |c| {
        assert c'[i] in c;
      }
    }
  }

  /** Every song has one of the three languages, so the per-language lists partition the catalog. */
  lemma {:induction false} LanguagePartition(c: seq<Song>)
    ensures |c| == |OfLanguage(c, Hindi)| + |OfLanguage(c, Bengali)| + |OfLanguage(c, English)|
  {
    if c != [] {
      LanguagePartition(c[1..]);
      FilterCons(c[0], c[1..], HasLanguage(Hindi));
      FilterCons(c[0], c[1..], HasLanguage(Bengali));
      FilterCons(c[0], c[1..], HasLanguage(English));
      assert [c[0]] + c[1..] == c;
    }
  }

  lemma UniqueIdsCons(x: Song, c: seq<Song>)
    ensures UniqueIds([x] + c) <==> x.id !in IdSet(c) && UniqueIds(c)
  {
    var xc := [x] + c;
    if x.id !in IdSet(c) && UniqueIds(c) {
      forall i, j | 0 <= i < j < |xc| ensures xc[i].id != xc[j].id {
        if i == 0 {
          assert xc[j] in c;
        } else {
          assert xc[i] == c[i - 1] && xc[j] == c[j - 1];
        }
      }
    }
    if UniqueIds(xc) {
      forall i, j | 0 <= i < j < |c| ensures c[i].id != c[j].id {
        assert c[i] == xc[i + 1] && c[j] == xc[j + 1];
      }
      forall s | s in c ensures s.id != x.id {
        var k :| 0 <= k < |c| && c[k] == s;
        assert xc[0] == x && xc[k + 1] == s;
        assert xc[0].id != xc[k + 1].id;
      }
    }
  }

  /** A sublist of a catalog keeps its identifiers unique. */
  lemma {:induction false} FilterKeepsUniqueIds(c: seq<Song>, p: Song -> bool)
    requires UniqueIds(c)
    ensures UniqueIds(Filter(c, p))
  {
    if c != [] {
      assert [c[0]] + c[1..] == c;
      UniqueIdsCons(c[0], c[1..]);
      FilterKeepsUniqueIds(c[1..], p);
      FilterCons(c[0], c[1..], p);
      if p(c[0]) {
        UniqueIdsCons(c[0], Filter(c[1..], p));
      }
    }
  }

  /** Songs with unique identifiers have as many identifiers as songs. */
  lemma {:induction false} IdSetSize(c: seq<Song>)
    requires UniqueIds(c)
    ensures |IdSet(c)| == |c|
  {
    if c != [] {
      assert [c[0]] + c[1..] == c;
      UniqueIdsCons(c[0], c[1..]);
      IdSetSize(c[1..]);
      assert IdSet(c) == {c[0].id} + IdSet(c[1..]);
    }
  }

  /** In a catalog with unique identifiers, no identifier belongs to two languages. */
  lemma LangIdsDisjoint(c: seq<Song>, l1: Language, l2: Language)
    requires UniqueIds(c) && l1 != l2
    ensures LangIds(c, l1) !! LangIds(c, l2)
  {
    forall id | id in LangIds(c, l1) ensures id !in LangIds(c, l2) {
      var i :| 0 <= i < |c| && c[i].language == l1 && c[i].id == id;
      // Only the song at `i` carries `id`, and it is of language `l1`.
      forall j | 0 <= j < |c| && c[j].id == id ensures c[j].language != l2 {
        assert j == i;
      }
    }
  }
}
