/**
 * The seeding script that makes every code of the fixed rotation table
 * exist in the collection: it flattens and de-duplicates the table and,
 * for each code no song carries yet, creates a placeholder song whose
 * language is read off the code's first letter.
 */
module EvilSeeder {
  import opened Wrappers
  import opened Seqs
  import opened SongModel
  import opened RotationTable
  import opened SongController

  const DummyArtist: string := "Evil Logic Artist"
  const DummyAlbum: string := "Rigged Album"
  const DummyAudioUrl: string := "https://res.cloudinary.com/demo/video/upload/v1689123456/sample_audio.mp3"
  const DummyLyricsLink: string := "https://example.com/lyrics"

  /** Every code is non-empty, so each has a first letter. */
  predicate NonEmptyCodes(codes: seq<string>)
  {
    forall i :: 0 <= i < |codes| ==> codes[i] != ""
  }

  /** `[...new Set(FIXED_ROTATION.flat())]`: every code of every slot, once, in first-appearance order. */
  function AllShortCodes(): (codes: seq<string>)
    ensures NoDups(codes) && |codes| == 18
    ensures forall x :: x in codes <==> exists k :: 0 <= k < |FixedRotation| && x in FixedRotation[k]
    ensures forall x :: x in codes ==> WellFormedCode(x)
    ensures NonEmptyCodes(codes)
  {
    DistinctCodeCount();
    SlotsCoverUniverse();
    CodesWellFormed();
    var r := Dedupe(Flatten(FixedRotation));
    assert forall i :: 0 <= i < |r| ==> r[i] in r;
    r
  }

  /** The language a code stands for: `H` is Hindi, `B` is Bengali, anything else English. */
  function InferLanguage(code: string): (l: Language)
    ensures l == Hindi <==> StartsWith(code, "H")
    ensures l == Bengali <==> StartsWith(code, "B")
  {
    var language := if StartsWith(code, "H") then Hindi else English;
    if StartsWith(code, "B") then Bengali else language
  }

  /** For every table code the inferred language is the one whose codes `addSong` starts with that letter. */
  lemma InferredInitial(code: string)
    requires WellFormedCode(code)
    ensures Initial(InferLanguage(code)) == code[0]
  {
  }

  /** The document the script creates for a missing code. */
  function DummyFields(code: string): (f: SongFields)
    ensures f.shortCode == Some(code) && f.isSelected == Some(false)
    ensures f.songName == Some("Dummy Song " + code)
    ensures f.language == Some(LanguageName(InferLanguage(code)))
  {
    SongFields(
      songName := Some("Dummy Song " + code), artist := Some(DummyArtist), album := Some(DummyAlbum),
      introAudioUrl := Some(DummyAudioUrl), lyricsLink := Some(DummyLyricsLink),
      language := Some(LanguageName(InferLanguage(code))), shortCode := Some(code),
      isSelected := Some(false), addedBy := None)
  }

  /** The placeholder for a non-empty code always passes validation, even against the schema as written. */
  lemma DummyAdmissible(code: string)
    requires code != ""
    ensures Admissible(DummyFields(code)) && Given(DummyFields(code).lyricsLink)
  {
    ParseLanguageName(InferLanguage(code));
  }

  /** The song `Song.create` stores for a code that is missing from `c`. */
  function DummySong(c: seq<Song>, code: string): (s: Song)
    requires code != "" && FindByShortCode(c, code).None?
    ensures Create(c, DummyFields(code)) == Created(s)
    ensures s.shortCode == code && s.songName == "Dummy Song " + code && !s.isSelected
    ensures s.language == InferLanguage(code) && s.id !in IdSet(c)
  {
    DummyAdmissible(code);
    ParseLanguageName(InferLanguage(code));
    Create(c, DummyFields(code)).song
  }

  /** A code is missing when no song carries it. */
  function IsMissing(c: seq<Song>): string -> bool
  {
    (code: string) => FindByShortCode(c, code).None?
  }

  /** The codes of `codes` no song of `c` carries, in order. */
  function MissingCodes(c: seq<Song>, codes: seq<string>): seq<string>
  {
    Filter(codes, IsMissing(c))
  }

  /** One turn of the loop: create the placeholder when the code is missing. */
  function SeedStep(c: seq<Song>, code: string): (r: seq<Song>)
    requires code != ""
    ensures FindByShortCode(c, code).Some? ==> r == c
    ensures FindByShortCode(c, code).None? ==> r == c + [DummySong(c, code)]
  {
    if FindByShortCode(c, code).Some? then c else c + [DummySong(c, code)]
  }

  /**
   * The collection after the loop has visited `codes`, in order. Existing
   * songs are never modified: the old collection is a prefix of the new one.
   */
  function Seeded(c: seq<Song>, codes: seq<string>): (r: seq<Song>)
    requires NonEmptyCodes(codes)
    ensures |r| >= |c| && r[..|c|] == c
    decreases |codes|
  {
    if codes == [] then c
    else SeedStep(Seeded(c, codes[..|codes| - 1]), codes[|codes| - 1])
  }

  /** Every song after seeding was there before or is the placeholder of one of the codes. */
  lemma {:induction false} SeededOrigin(c: seq<Song>, codes: seq<string>)
    requires NonEmptyCodes(codes)
    ensures forall s :: s in Seeded(c, codes) ==>
      || s in c
      || (&& s.shortCode in codes && s.songName == "Dummy Song " + s.shortCode
          && !s.isSelected && s.language == InferLanguage(s.shortCode))
  {
    if codes != [] {
      var front := codes[..|codes| - 1];
      SeededOrigin(c, front);
      forall s | s in Seeded(c, codes)
        ensures || s in c
                || (&& s.shortCode in codes && s.songName == "Dummy Song " + s.shortCode
                    && !s.isSelected && s.language == InferLanguage(s.shortCode))
      {
        if s in Seeded(c, front) {
          if s !in c {
            assert s.shortCode in front;
            assert front <= codes;
          }
        }
      }
    }
  }

  /** After seeding, every code is the `short_code` of some song. */
  lemma {:induction false} SeededCovers(c: seq<Song>, codes: seq<string>)
    requires NonEmptyCodes(codes)
    ensures forall code :: code in codes ==> FindByShortCode(Seeded(c, codes), code).Some?
  {
    if codes != [] {
      var front := codes[..|codes| - 1];
      SeededCovers(c, front);
      assert codes == front + [codes[|codes| - 1]];
      var last := codes[|codes| - 1];
      if FindByShortCode(Seeded(c, front), last).None? {
        assert DummySong(Seeded(c, front), last) in Seeded(c, codes);
      }
    }
  }

  /**
   * A code not among the visited ones is missing after seeding exactly
   * when it was missing before.
   */
  lemma SeededKeepsOthers(c: seq<Song>, codes: seq<string>, code: string)
    requires NonEmptyCodes(codes) && code !in codes
    ensures FindByShortCode(Seeded(c, codes), code).None? <==> FindByShortCode(c, code).None?
  {
    SeededOrigin(c, codes);
    if FindByShortCode(c, code).Some? {
      var s :| s in c && s.shortCode == code;
      var i :| 0 <= i < |c| && c[i] == s;
      assert Seeded(c, codes)[i] == s;
    }
  }

  /** The loop creates one song per code that was missing beforehand. */
  lemma {:induction false} SeededCount(c: seq<Song>, codes: seq<string>)
    requires NonEmptyCodes(codes) && NoDups(codes)
    ensures |Seeded(c, codes)| == |c| + |MissingCodes(c, codes)|
  {
    if codes != [] {
      var front, last := codes[..|codes| - 1], codes[|codes| - 1];
      assert codes == front + [last];
      assert NoDups(front);
      SeededCount(c, front);
      assert last !in front;
      SeededKeepsOthers(c, front, last);
      FilterAppend(front, [last], IsMissing(c));
    }
  }

  /** Seeding keeps the collection invariant. */
  lemma {:induction false} SeededValid(c: seq<Song>, codes: seq<string>)
    requires NonEmptyCodes(codes) && ValidCatalog(c)
    ensures ValidCatalog(Seeded(c, codes))
  {
    if codes != [] {
      var front, last := codes[..|codes| - 1], codes[|codes| - 1];
      SeededValid(c, front);
      if FindByShortCode(Seeded(c, front), last).None? {
        CreateKeepsCatalogValid(Seeded(c, front), DummyFields(last));
      }
    }
  }

  /** Seeding a collection that already carries every code changes nothing. */
  lemma {:induction false} SeededWhenComplete(c: seq<Song>, codes: seq<string>)
    requires NonEmptyCodes(codes)
    requires forall code :: code in codes ==> FindByShortCode(c, code).Some?
    ensures Seeded(c, codes) == c
  {
    if codes != [] {
      var front := codes[..|codes| - 1];
      assert forall code :: code in front ==> code in codes;
      SeededWhenComplete(c, front);
    }
  }

  /** A second run creates nothing and leaves the collection as the first run left it. */
  lemma Idempotent(c: seq<Song>, codes: seq<string>)
    requires NonEmptyCodes(codes)
    ensures MissingCodes(Seeded(c, codes), codes) == []
    ensures Seeded(Seeded(c, codes), codes) == Seeded(c, codes)
  {
    SeededCovers(c, codes);
    FilterNone(codes, IsMissing(Seeded(c, codes)));
    SeededWhenComplete(Seeded(c, codes), codes);
  }

  /** After a run, every code of every slot of the rotation table names a song. */
  lemma EveryRotationCodeSeeded(c: seq<Song>)
    ensures forall k, code :: 0 <= k < |FixedRotation| && code in FixedRotation[k] ==>
      FindByShortCode(Seeded(c, AllShortCodes()), code).Some?
  {
    SeededCovers(c, AllShortCodes());
  }

  /** One more visited code: one more loop turn, and one more creation exactly when it is still missing. */
  lemma SeedTurn(c: seq<Song>, codes: seq<string>, i: nat)
    requires NonEmptyCodes(codes) && NoDups(codes) && i < |codes|
    ensures Seeded(c, codes[..i + 1]) == SeedStep(Seeded(c, codes[..i]), codes[i])
    ensures |MissingCodes(c, codes[..i + 1])|
      == |MissingCodes(c, codes[..i])| + if FindByShortCode(Seeded(c, codes[..i]), codes[i]).None? then 1 else 0
  {
    var front, code := codes[..i], codes[i];
    assert codes[..i + 1] == front + [code];
    assert codes[..i + 1][..i] == front;
    assert code !in front;
    SeededKeepsOthers(c, front, code);
    FilterAppend(front, [code], IsMissing(c));
  }

  /**
   * `seedEvilData`: for each distinct table code, look it up and create
   * its placeholder when no song carries it; `createdCount` counts the
   * creations.
   */
  method SeedEvilData(store: SongStore) returns (createdCount: nat)
    requires store.Valid()
    modifies store
    ensures store.Valid()
    ensures store.songs == Seeded(old(store.songs), AllShortCodes())
    ensures createdCount == |MissingCodes(old(store.songs), AllShortCodes())|
  {
    ghost var initial := store.songs;
    var allShortCodes := AllShortCodes();
    createdCount := 0;
    for i := 0 to |allShortCodes|
      invariant store.songs == Seeded(initial, allShortCodes[..i])
      invariant createdCount == |MissingCodes(initial, allShortCodes[..i])|
      invariant store.Valid()
    {
      var code := allShortCodes[i];
      SeedTurn(initial, allShortCodes, i);
      var exists_ := FindByShortCode(store.songs, code);
      if exists_.None? {
        var created := Create(store.songs, DummyFields(code));
        CreateKeepsCatalogValid(store.songs, DummyFields(code));
        store.songs := store.songs + [created.song];
        createdCount := createdCount + 1;
      }
    }
    assert allShortCodes[..|allShortCodes|] == allShortCodes;
  }
}
