/**
 * The fixed rotation table: four slots of short codes, each the list of
 * songs that make up one scripted round.
 */
module RotationTable {
  import opened Seqs

  const FixedRotation: seq<seq<string>> := [
    ["H1", "H2", "H3", "H4", "H5", "B1", "B2", "B3", "B4", "B5", "E1", "E2", "E3", "E4", "E5"],
    ["H2", "H3", "H4", "H5", "H6", "B2", "B3", "B4", "B5", "B6", "E2", "E3", "E4", "E5", "E6"],
    ["H3", "H4", "H5", "H6", "H1", "B1", "B3", "B4", "B5", "B6", "E1", "E3", "E4", "E5", "E6"],
    ["H1", "H2", "H4", "H6", "H5", "B1", "B2", "B4", "B5", "B6", "E1", "E2", "E4", "E5", "E6"]
  ]

  /** The test `code.startsWith(initial)`. */
  function HasInitial(initial: char): string -> bool
  {
    (code: string) => StartsWith(code, [initial])
  }

  /** The codes of one slot that begin with `initial`. */
  function WithInitial(slot: seq<string>, initial: char): seq<string>
  {
    Filter(slot, HasInitial(initial))
  }

  /** A code of the table's form: an initial H, B or E and one digit from 1 to 6. */
  predicate WellFormedCode(code: string)
  {
    |code| == 2 && code[0] in "HBE" && '1' <= code[1] <= '6'
  }

  lemma SlotCount()
    ensures |FixedRotation| == 4
  {
  }

  lemma SlotShape()
    ensures forall k :: 0 <= k < |FixedRotation| ==> |FixedRotation[k]| == 15 && NoDups(FixedRotation[k])
  {
  }

  /** Every code of the table, once each: six ordinals for each of the three initials. */
  const CodeUniverse: seq<string> := [
    "H1", "H2", "H3", "H4", "H5", "H6",
    "B1", "B2", "B3", "B4", "B5", "B6",
    "E1", "E2", "E3", "E4", "E5", "E6"
  ]

  /** A slot laid out as five H codes, then five B codes, then five E codes. */
  predicate GroupedByInitial(slot: seq<string>)
  {
    && |slot| == 15
    && (forall i :: 0 <= i < 5 ==> StartsWith(slot[i], ['H']))
    && (forall i :: 5 <= i < 10 ==> StartsWith(slot[i], ['B']))
    && (forall i :: 10 <= i < 15 ==> StartsWith(slot[i], ['E']))
  }

  lemma BalancedWhenGrouped(slot: seq<string>)
    requires GroupedByInitial(slot)
    ensures |WithInitial(slot, 'H')| == 5 && |WithInitial(slot, 'B')| == 5 && |WithInitial(slot, 'E')| == 5
  {
    var h, b, e := slot[..5], slot[5..10], slot[10..];
    assert slot == h + b + e;
    CountGroup(h, b, e, 'H', 0);
    CountGroup(h, b, e, 'B', 1);
    CountGroup(h, b, e, 'E', 2);
  }

  /** Of three groups, only group number `which` has initial `c`: the `c` codes are that group's. */
  lemma CountGroup(h: seq<string>, b: seq<string>, e: seq<string>, c: char, which: nat)
    requires which < 3
    requires forall x :: x in h ==> (HasInitial(c)(x) <==> which == 0)
    requires forall x :: x in b ==> (HasInitial(c)(x) <==> which == 1)
    requires forall x :: x in e ==> (HasInitial(c)(x) <==> which == 2)
    ensures |Filter(h + b + e, HasInitial(c))| == if which == 0 then |h| else if which == 1 then |b| else |e|
  {
    FilterAppend(h + b, e, HasInitial(c));
    FilterAppend(h, b, HasInitial(c));
    if which == 0 { FilterAll(h, HasInitial(c)); } else { FilterNone(h, HasInitial(c)); }
    if which == 1 { FilterAll(b, HasInitial(c)); } else { FilterNone(b, HasInitial(c)); }
    if which == 2 { FilterAll(e, HasInitial(c)); } else { FilterNone(e, HasInitial(c)); }
  }

  /** Each slot holds five codes of each initial. */
  lemma SlotBalance()
    ensures forall k :: 0 <= k < |FixedRotation| ==>
      |WithInitial(FixedRotation[k], 'H')| == 5 &&
      |WithInitial(FixedRotation[k], 'B')| == 5 &&
      |WithInitial(FixedRotation[k], 'E')| == 5
  {
    forall k | 0 <= k < |FixedRotation|
      ensures |WithInitial(FixedRotation[k], 'H')| == 5
      ensures |WithInitial(FixedRotation[k], 'B')| == 5
      ensures |WithInitial(FixedRotation[k], 'E')| == 5
    {
      BalancedWhenGrouped(FixedRotation[k]);
    }
  }

  lemma CodesWellFormed()
    ensures forall k, i :: 0 <= k < |FixedRotation| && 0 <= i < |FixedRotation[k]| ==> WellFormedCode(FixedRotation[k][i])
  {
  }

  /** A code of the table's form is one of the eighteen. */
  lemma WellFormedInUniverse(code: string)
    requires WellFormedCode(code)
    ensures code in CodeUniverse
  {
    assert code == [code[0], code[1]];
  }

  /** The slots together use exactly the eighteen codes H1..H6, B1..B6, E1..E6. */
  lemma SlotsCoverUniverse()
    ensures NoDups(CodeUniverse) && |CodeUniverse| == 18
    ensures forall x :: (exists k :: 0 <= k < |FixedRotation| && x in FixedRotation[k]) <==> x in CodeUniverse
  {
    CodesWellFormed();
    forall x | exists k :: 0 <= k < |FixedRotation| && x in FixedRotation[k]
      ensures x in CodeUniverse
    {
      var k :| 0 <= k < |FixedRotation| && x in FixedRotation[k];
      var i :| 0 <= i < |FixedRotation[k]| && FixedRotation[k][i] == x;
      WellFormedInUniverse(x);
    }
    var s0, s1 := FixedRotation[0], FixedRotation[1];
    assert CodeUniverse == [
      s0[0], s0[1], s0[2], s0[3], s0[4], s1[4],
      s0[5], s0[6], s0[7], s0[8], s0[9], s1[9],
      s0[10], s0[11], s0[12], s0[13], s0[14], s1[14]];
  }

  /** The flattened table, deduplicated, is the eighteen distinct codes. */
  lemma {:induction false} DistinctCodeCount()
    ensures |Dedupe(Flatten(FixedRotation))| == 18
    ensures forall x :: x in Dedupe(Flatten(FixedRotation)) <==> x in CodeUniverse
  {
    SlotsCoverUniverse();
    forall x ensures x in Dedupe(Flatten(FixedRotation)) <==> x in CodeUniverse {
      FlattenMembership(FixedRotation, x);
    }
    SameElementsSameLength(Dedupe(Flatten(FixedRotation)), CodeUniverse);
  }
}
