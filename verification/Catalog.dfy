/** Seeding the catalog's template rounds again and again, beside interviews planned from them. A template's rows
    are keyed by sequence number, which is their unique key. */
module Catalog {
  import opened Domain
  import opened Lookup
  import opened Planning

  datatype RoundSeed = RoundSeed(roundType: RoundType, sequenceNo: int, weight: real, isRequired: bool,
                                 difficultyOverride: Option<DifficultyLevel>)

  type Rounds = map<int, TemplateRound>

  datatype SeedError = DuplicateRound

  function SeedKey(seed: RoundSeed): int { seed.sequenceNo }

  function SeedKeys(seeds: seq<RoundSeed>): set<int> { set s | s in seeds :: s.sequenceNo }

  /** The row holds what the seed says, under the seed's key. */
  ghost predicate Holds(row: TemplateRound, seed: RoundSeed) {
    && row.roundType == seed.roundType && row.sequenceNo == seed.sequenceNo && row.weight == seed.weight
    && row.isRequired == seed.isRequired && row.difficultyOverride == seed.difficultyOverride
  }

  /** Two seeds would both insert the same new key. */
  ghost predicate InsertsTwice(rows: Rounds, seeds: seq<RoundSeed>) {
    exists i, k :: 0 <= i < k < |seeds| && seeds[i].sequenceNo == seeds[k].sequenceNo && seeds[i].sequenceNo !in rows
  }

  ghost predicate KeysFit(rows: Rounds) { forall k :: k in rows ==> rows[k].sequenceNo == k }

  ghost predicate IdsUnique(rows: Rounds) { forall k, l :: k in rows && l in rows && rows[k].id == rows[l].id ==> k == l }

  ghost predicate IdsBelow(rows: Rounds, bound: nat) { forall k :: k in rows ==> rows[k].id < bound }

  function Leftovers(rows: Rounds, seeds: seq<RoundSeed>, referenced: set<nat>): set<int> {
    set k | k in rows && k !in SeedKeys(seeds) && rows[k].id in referenced
  }

  /** Seeds plus referenced leftovers: a matched row keeps its id and takes the last seed's values, a new key gets
      a new id, a row no seed mentions stays as it is if an interview references it and goes otherwise. */
  ghost predicate Upserts(before: Rounds, seeds: seq<RoundSeed>, referenced: set<nat>, nextId: nat, after: Rounds) {
    && after.Keys == SeedKeys(seeds) + Leftovers(before, seeds, referenced)
    && (forall k :: k in Leftovers(before, seeds, referenced) ==> after[k] == before[k])
    && (forall k :: k in SeedKeys(seeds) ==>
          var seed := LastBy(SeedKey, seeds, k);
          seed.Some? && Holds(after[k], seed.value)
          && (if k in before then after[k].id == before[k].id else after[k].id >= nextId))
    && IdsUnique(after)
  }

  lemma {:induction false} LastSeed(seeds: seq<RoundSeed>, k: int)
    ensures LastBy(SeedKey, seeds, k).Some? <==> k in SeedKeys(seeds)
    ensures LastBy(SeedKey, seeds, k).Some? ==> LastBy(SeedKey, seeds, k).value.sequenceNo == k
  {
    LastByIsLast(SeedKey, seeds, k);
  }

  lemma {:induction false} UpsertsFits(before: Rounds, seeds: seq<RoundSeed>, referenced: set<nat>, nextId: nat, after: Rounds)
    requires KeysFit(before) && Upserts(before, seeds, referenced, nextId, after)
    ensures KeysFit(after)
    ensures forall k :: k in before && before[k].id in referenced ==> k in after && after[k].id == before[k].id
  {
    forall k | k in after
      ensures after[k].sequenceNo == k
    {
      LastSeed(seeds, k);
    }
  }

  /** Seeding twice is seeding once: the second pass cannot fail and changes nothing. */
  lemma {:induction false} UpsertIsIdempotent(before: Rounds, seeds: seq<RoundSeed>, referenced: set<nat>, nextId: nat,
                                              once: Rounds, referenced': set<nat>, nextId': nat, twice: Rounds)
    requires Upserts(before, seeds, referenced, nextId, once) && referenced <= referenced'
    requires Upserts(once, seeds, referenced', nextId', twice)
    ensures twice == once && !InsertsTwice(once, seeds)
  {
    hide LastBy;
    forall k | k in Leftovers(before, seeds, referenced)
      ensures k in Leftovers(once, seeds, referenced')
    {
      assert once[k] == before[k];
    }
    forall k | k in Leftovers(once, seeds, referenced')
      ensures k in Leftovers(before, seeds, referenced)
    {
      assert k in once.Keys;
    }
    assert twice.Keys == once.Keys;
    forall k | k in once
      ensures twice[k] == once[k]
    {
      if k in SeedKeys(seeds) {
        LastSeed(seeds, k);
      }
    }
    forall i | 0 <= i < |seeds|
      ensures seeds[i].sequenceNo in once
    {
      assert seeds[i] in seeds;
    }
  }

  /** The rows after inserting and updating, before any deletion. */
  ghost predicate Written(before: Rounds, seeds: seq<RoundSeed>, nextId: nat, rows: Rounds) {
    && rows.Keys == before.Keys + SeedKeys(seeds)
    && (forall k :: k in SeedKeys(seeds) ==>
          var seed := LastBy(SeedKey, seeds, k);
          seed.Some? && Holds(rows[k], seed.value)
          && (if k in before then rows[k].id == before[k].id else rows[k].id >= nextId))
    && (forall k :: k in before && k !in SeedKeys(seeds) ==> rows[k] == before[k])
  }

  lemma {:induction false} NothingWritten(before: Rounds, nextId: nat)
    ensures Written(before, [], nextId, before) && !InsertsTwice(before, [])
  {}

  lemma {:induction false} WrittenKeys(before: Rounds, seeds: seq<RoundSeed>, nextId: nat, rows: Rounds)
    requires Written(before, seeds, nextId, rows)
    ensures rows.Keys == before.Keys + SeedKeys(seeds)
  {}

  lemma {:induction false} LastOfMore(seeds: seq<RoundSeed>, i: nat, k: int)
    requires i < |seeds|
    ensures LastBy(SeedKey, seeds[..i + 1], k)
            == if seeds[i].sequenceNo == k then Some(seeds[i]) else LastBy(SeedKey, seeds[..i], k)
  {
    assert seeds[..i + 1][..i] == seeds[..i];
  }

  ghost function Overwritten(row: TemplateRound, seed: RoundSeed): TemplateRound {
    row.(roundType := seed.roundType, weight := seed.weight, isRequired := seed.isRequired,
         difficultyOverride := seed.difficultyOverride)
  }

  ghost function Created(id: nat, seed: RoundSeed): TemplateRound {
    TemplateRound(id, seed.roundType, seed.sequenceNo, seed.weight, seed.isRequired, seed.difficultyOverride)
  }

  lemma {:induction false} OverwriteFits(rows: Rounds, key: int, seed: RoundSeed, nextId: nat)
    requires key in rows && KeysFit(rows) && IdsUnique(rows) && IdsBelow(rows, nextId)
    ensures var after := rows[key := Overwritten(rows[key], seed)];
      KeysFit(after) && IdsUnique(after) && IdsBelow(after, nextId)
  {}

  lemma {:induction false} UpdateFits(before: Rounds, seeds: seq<RoundSeed>, i: nat, base: nat, rows: Rounds, nextId: nat)
    requires i < |seeds| && seeds[i].sequenceNo in before && KeysFit(before)
    requires Written(before, seeds[..i], base, rows) && KeysFit(rows) && IdsUnique(rows) && IdsBelow(rows, nextId)
    ensures var after := rows[seeds[i].sequenceNo := Overwritten(rows[seeds[i].sequenceNo], seeds[i])];
      Written(before, seeds[..i + 1], base, after) && KeysFit(after) && IdsUnique(after) && IdsBelow(after, nextId)
  {
    hide Written, KeysFit, IdsUnique, IdsBelow;
    WrittenKeys(before, seeds[..i], base, rows);
    KeyAt(rows, seeds[i].sequenceNo);
    UpdateWrites(before, seeds, i, base, rows);
    OverwriteFits(rows, seeds[i].sequenceNo, seeds[i], nextId);
  }

  lemma {:induction false} KeyAt(rows: Rounds, k: int)
    requires KeysFit(rows) && k in rows
    ensures rows[k].sequenceNo == k
  {}

  lemma {:induction false} UpdateWrites(before: Rounds, seeds: seq<RoundSeed>, i: nat, base: nat, rows: Rounds)
    requires i < |seeds| && seeds[i].sequenceNo in before && Written(before, seeds[..i], base, rows)
    requires rows[seeds[i].sequenceNo].sequenceNo == seeds[i].sequenceNo
    ensures Written(before, seeds[..i + 1], base, rows[seeds[i].sequenceNo := Overwritten(rows[seeds[i].sequenceNo], seeds[i])])
  {
    hide LastBy;
    SplitKeys(seeds, i);
    var (key, more) := (seeds[i].sequenceNo, seeds[..i + 1]);
    var after := rows[key := Overwritten(rows[key], seeds[i])];
    assert after.Keys == rows.Keys;
    assert after.Keys == before.Keys + SeedKeys(more);
    assert after[key].id == before[key].id;
    forall k | k in SeedKeys(more)
      ensures var seed := LastBy(SeedKey, more, k);
        seed.Some? && Holds(after[k], seed.value)
        && (if k in before then after[k].id == before[k].id else after[k].id >= base)
    {
      LastOfMore(seeds, i, k);
    }
  }

  lemma {:induction false} AddFits(before: Rounds, seeds: seq<RoundSeed>, i: nat, base: nat, rows: Rounds, nextId: nat)
    requires i < |seeds| && seeds[i].sequenceNo !in rows && base <= nextId
    requires Written(before, seeds[..i], base, rows) && KeysFit(rows) && IdsUnique(rows) && IdsBelow(rows, nextId)
    ensures var after := rows[seeds[i].sequenceNo := Created(nextId, seeds[i])];
      Written(before, seeds[..i + 1], base, after) && KeysFit(after) && IdsUnique(after) && IdsBelow(after, nextId + 1)
  {
    hide LastBy;
    SplitKeys(seeds, i);
    var (key, more) := (seeds[i].sequenceNo, seeds[..i + 1]);
    var after := rows[key := Created(nextId, seeds[i])];
    assert after.Keys == rows.Keys + {key};
    assert after.Keys == before.Keys + SeedKeys(more);
    forall k | k in SeedKeys(more)
      ensures var seed := LastBy(SeedKey, more, k);
        seed.Some? && Holds(after[k], seed.value)
        && (if k in before then after[k].id == before[k].id else after[k].id >= base)
    {
      LastOfMore(seeds, i, k);
    }
  }

  // --- The seeding itself -----------------------------------------------------------------------

  class TemplateRounds {
    var rounds: Rounds
    var nextId: nat

    ghost predicate Valid()
      reads this
    {
      KeysFit(rounds) && IdsUnique(rounds) && IdsBelow(rounds, nextId)
    }

    constructor ()
      ensures Valid() && rounds == map[]
    {
      rounds, nextId := map[], 0;
    }

    /** Inserts and updates first; a clash of two new rows undoes everything. */
    method WriteSeeds(seeds: seq<RoundSeed>) returns (ok: bool)
      requires Valid()
      modifies this
      ensures ok <==> !InsertsTwice(old(rounds), seeds)
      ensures ok ==> Valid() && nextId >= old(nextId) && Written(old(rounds), seeds, old(nextId), rounds)
      ensures !ok ==> rounds == old(rounds)
    {
      hide LastBy, InsertsTwice, Written, KeysFit, IdsUnique, IdsBelow;
      NothingWritten(rounds, nextId);
      assert seeds[..0] == [];
      var existing := rounds;
      for i := 0 to |seeds|
        invariant Valid() && nextId >= old(nextId)
        invariant Written(existing, seeds[..i], old(nextId), rounds)
        invariant !InsertsTwice(existing, seeds[..i])
      {
        var seed := seeds[i];
        var key := seed.sequenceNo;
        WrittenKeys(existing, seeds[..i], old(nextId), rounds);
        if key in existing {
          NoNewKey(existing, seeds, i);
          UpdateFits(existing, seeds, i, old(nextId), rounds, nextId);
          rounds := rounds[key := rounds[key].(roundType := seed.roundType, weight := seed.weight,
                                               isRequired := seed.isRequired, difficultyOverride := seed.difficultyOverride)];
        } else if key in rounds {
          ClashFound(existing, seeds, i);
          rounds := existing;
          return false;
        } else {
          NoClash(existing, seeds, i);
          AddFits(existing, seeds, i, old(nextId), rounds, nextId);
          rounds := rounds[key := TemplateRound(nextId, seed.roundType, key, seed.weight, seed.isRequired, seed.difficultyOverride)];
          nextId := nextId + 1;
        }
      }
      assert seeds[..|seeds|] == seeds;
      return true;
    }

    /** Deletes the rows no seed mentions, each on its own; a referenced row refuses to go and is skipped. */
    method DropLeftovers(existing: seq<int>, seeds: seq<RoundSeed>, referenced: set<nat>)
      requires Valid() && forall k :: k in existing ==> k in rounds
      modifies `rounds
      ensures Valid()
      ensures forall k :: k in rounds <==>
                k in old(rounds) && (k !in existing || k in SeedKeys(seeds) || old(rounds)[k].id in referenced)
      ensures forall k :: k in rounds ==> rounds[k] == old(rounds)[k]
    {
      for i := 0 to |existing|
        invariant Valid()
        invariant forall k :: k in rounds <==>
          k in old(rounds) && (k !in existing[..i] || k in SeedKeys(seeds) || old(rounds)[k].id in referenced)
        invariant forall k :: k in rounds ==> rounds[k] == old(rounds)[k]
      {
        var key := existing[i];
        assert existing[..i + 1] == existing[..i] + [key];
        if key in rounds && key !in SeedKeys(seeds) && rounds[key].id !in referenced {
          rounds := rounds - {key};
        }
      }
      assert existing[..|existing|] == existing;
    }

    /** `existing` are the keys of the stored rows in the order the database returns them. */
    method UpsertRounds(existing: seq<int>, seeds: seq<RoundSeed>, referenced: set<nat>)
      returns (result: Result<nat, SeedError>)
      requires Valid() && forall k :: k in existing <==> k in rounds
      modifies this
      ensures result == if InsertsTwice(old(rounds), seeds) then Failure(DuplicateRound) else Success(|seeds|)
      ensures result.Success? ==> Upserts(old(rounds), seeds, referenced, old(nextId), rounds) && Valid()
      ensures result.Failure? ==> rounds == old(rounds)
    {
      hide LastBy, InsertsTwice;
      var ok := WriteSeeds(seeds);
      if !ok {
        return Failure(DuplicateRound);
      }
      DropLeftovers(existing, seeds, referenced);
      forall k
        ensures k in rounds.Keys <==> k in SeedKeys(seeds) + Leftovers(old(rounds), seeds, referenced)
      {}
      return Success(|seeds|);
    }
  }

  lemma {:induction false} SplitKeys(seeds: seq<RoundSeed>, i: nat)
    requires i < |seeds|
    ensures SeedKeys(seeds[..i + 1]) == SeedKeys(seeds[..i]) + {seeds[i].sequenceNo}
  {
    assert seeds[..i + 1] == seeds[..i] + [seeds[i]];
  }

  lemma {:induction false} ClashFound(existing: Rounds, seeds: seq<RoundSeed>, i: nat)
    requires i < |seeds| && seeds[i].sequenceNo !in existing && seeds[i].sequenceNo in SeedKeys(seeds[..i])
    ensures InsertsTwice(existing, seeds)
  {
    var s :| s in seeds[..i] && s.sequenceNo == seeds[i].sequenceNo;
    var j :| 0 <= j < i && seeds[..i][j] == s;
    assert seeds[j].sequenceNo == seeds[i].sequenceNo;
  }

  lemma {:induction false} NoNewKey(existing: Rounds, seeds: seq<RoundSeed>, i: nat)
    requires i < |seeds| && seeds[i].sequenceNo in existing && !InsertsTwice(existing, seeds[..i])
    ensures !InsertsTwice(existing, seeds[..i + 1])
  {
    forall j, k | 0 <= j < k < i + 1 && seeds[j].sequenceNo == seeds[k].sequenceNo
      ensures seeds[j].sequenceNo in existing
    {
      assert k < i ==> seeds[..i][j].sequenceNo == seeds[..i][k].sequenceNo;
    }
  }

  lemma {:induction false} NoClash(existing: Rounds, seeds: seq<RoundSeed>, i: nat)
    requires i < |seeds| && seeds[i].sequenceNo !in SeedKeys(seeds[..i]) && !InsertsTwice(existing, seeds[..i])
    ensures !InsertsTwice(existing, seeds[..i + 1])
  {
    forall j, k | 0 <= j < k < i + 1 && seeds[j].sequenceNo == seeds[k].sequenceNo
      ensures seeds[j].sequenceNo in existing
    {
      assert seeds[..i][j] in seeds[..i];
    }
  }
}
