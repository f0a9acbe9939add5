/** The per-state summation fold at the heart of `createStateDictionary`: a dictionary from
    state name to running population total, built by visiting the records in order. */
module Aggregation {
  import opened Records

  /** The plain object `stateDict`: state name to accumulated population. */
  type Dictionary = map<string, int>

  /** The current total for `name`, or 0 when the dictionary has no such key. */
  function Lookup(dict: Dictionary, name: string): int {
    if name in dict then dict[name] else 0
  }

  /** The names of the records that survive validation, compared exactly. */
  ghost function SurvivingNames(records: seq<RawRecord>): set<string> {
    set rec | rec in records && !Corrupted(rec) :: NameOf(rec)
  }

  /** Reference definition: the sum of the populations of the surviving records whose
      state name is exactly `name`. */
  ghost function StateTotal(records: seq<RawRecord>, name: string): int {
    if |records| == 0 then 0
    else StateTotal(records[..|records| - 1], name) + Share(records[|records| - 1], name)
  }

  /** What one record adds to the total of `name`: its population when it survives and
      carries exactly that name, nothing otherwise. */
  ghost function Share(rec: RawRecord, name: string): int {
    if !Corrupted(rec) && NameOf(rec) == name then PopulationOf(rec) else 0
  }

  /** One pass of the loop body: a corrupted record is skipped; otherwise its population is
      added to its state's entry, which is created if missing. No other entry changes. */
  function Step(dict: Dictionary, rec: RawRecord): (next: Dictionary)
    ensures Corrupted(rec) ==> next == dict
    ensures !Corrupted(rec) ==> next.Keys == dict.Keys + {NameOf(rec)}
    ensures !Corrupted(rec) ==> next[NameOf(rec)] == Lookup(dict, NameOf(rec)) + PopulationOf(rec)
    ensures forall name :: name in dict && (Corrupted(rec) || name != NameOf(rec)) ==> next[name] == dict[name]
  {
    if Corrupted(rec) then dict
    else
      var name := NameOf(rec);
      if name in dict then dict[name := dict[name] + PopulationOf(rec)]
      else dict[name := PopulationOf(rec)]
  }

  lemma SurvivingNamesSnoc(records: seq<RawRecord>, rec: RawRecord)
    ensures SurvivingNames(records + [rec])
            == SurvivingNames(records) + (if Corrupted(rec) then {} else {NameOf(rec)})
  {
    var lhs := SurvivingNames(records + [rec]);
    var rhs := SurvivingNames(records) + (if Corrupted(rec) then {} else {NameOf(rec)});
    forall name | name in lhs ensures name in rhs {
      var r :| r in records + [rec] && !Corrupted(r) && NameOf(r) == name;
      if r != rec {
        assert r in records;
      }
    }
    forall name | name in rhs ensures name in lhs {
      if name in SurvivingNames(records) {
        var r :| r in records && !Corrupted(r) && NameOf(r) == name;
        assert r in records + [rec];
      } else {
        assert rec in records + [rec];
      }
    }
  }

  /** The fold over the whole batch, in order, starting from the empty dictionary: one
      `Step` per record, as the loop does. */
  function Accumulate(records: seq<RawRecord>): Dictionary {
    if |records| == 0 then map[]
    else Step(Accumulate(records[..|records| - 1]), records[|records| - 1])
  }

  /** The fold agrees with the reference definitions on every batch: its keys are exactly the
      names of the surviving records, each holding the sum of their populations, and a name
      that survives nowhere has no key, not even a zero-valued one. */
  lemma {:induction false} AccumulateSpec(records: seq<RawRecord>)
    ensures Accumulate(records).Keys == SurvivingNames(records)
    ensures forall name :: name in Accumulate(records) ==> Accumulate(records)[name] == StateTotal(records, name)
    ensures forall name :: name !in Accumulate(records) ==> StateTotal(records, name) == 0
  {
    if |records| > 0 {
      var prefix := records[..|records| - 1];
      var last := records[|records| - 1];
      assert records == prefix + [last];
      AccumulateSpec(prefix);
      SurvivingNamesSnoc(prefix, last);
    }
  }

  /** Folding one more record is one more loop step. */
  lemma AccumulateSnoc(records: seq<RawRecord>, rec: RawRecord)
    ensures Accumulate(records + [rec]) == Step(Accumulate(records), rec)
  {
    assert (records + [rec])[..|records|] == records;
  }

  /** The fold over the first `i + 1` records is one more step on the fold over the first `i`. */
  lemma AccumulatePrefix(records: seq<RawRecord>, i: nat)
    requires i < |records|
    ensures Accumulate(records[..i + 1]) == Step(Accumulate(records[..i]), records[i])
  {
    assert records[..i + 1][..i] == records[..i];
  }

  /** Appending a corrupted record leaves the dictionary unchanged. */
  lemma AppendCorrupted(records: seq<RawRecord>, rec: RawRecord)
    requires Corrupted(rec)
    ensures Accumulate(records + [rec]) == Accumulate(records)
  {
    AccumulateSnoc(records, rec);
  }

  /** Appending a valid record for state S adds its population to S's entry, creating the
      entry when S was absent; every other key and value is unchanged. */
  lemma AppendValid(records: seq<RawRecord>, rec: RawRecord)
    requires !Corrupted(rec)
    ensures Accumulate(records + [rec])
            == Accumulate(records)[NameOf(rec) := Lookup(Accumulate(records), NameOf(rec)) + PopulationOf(rec)]
  {
    AccumulateSnoc(records, rec);
    var dict := Accumulate(records);
    var name := NameOf(rec);
    if name in dict {
      assert Step(dict, rec) == dict[name := dict[name] + PopulationOf(rec)];
    } else {
      assert Step(dict, rec) == dict[name := PopulationOf(rec)];
    }
  }

  /** The skip rule, seen through its effect: a one-record batch yields no key exactly when
      the record is corrupted, and otherwise one key holding the record's population. */
  lemma SkipRule(rec: RawRecord)
    ensures Corrupted(rec) <==> Accumulate([rec]) == map[]
    ensures !Corrupted(rec) ==> Accumulate([rec]) == map[NameOf(rec) := PopulationOf(rec)]
  {
    AccumulateSnoc([], rec);
    assert [] + [rec] == [rec];
  }

  /** The dictionary is the fold over the surviving records alone. */
  lemma {:induction false} OnlySurvivorsCount(records: seq<RawRecord>)
    ensures Accumulate(records) == Accumulate(Survivors(records))
  {
    if |records| > 0 {
      var prefix := records[..|records| - 1];
      var last := records[|records| - 1];
      OnlySurvivorsCount(prefix);
      if !Corrupted(last) {
        AccumulateSnoc(Survivors(prefix), last);
      }
    }
  }

  lemma {:induction false} StateTotalConcat(left: seq<RawRecord>, right: seq<RawRecord>, name: string)
    ensures StateTotal(left + right, name) == StateTotal(left, name) + StateTotal(right, name)
  {
    if |right| == 0 {
      assert left + right == left;
    } else {
      var init := right[..|right| - 1];
      assert (left + right)[..|left + right| - 1] == left + init;
      StateTotalConcat(left, init, name);
    }
  }

  /** Taking the record at `j` out of a batch removes one copy of it and its share. */
  lemma RemoveAt(records: seq<RawRecord>, j: nat, name: string)
    requires j < |records|
    ensures multiset(records[..j] + records[j + 1..]) == multiset(records) - multiset{records[j]}
    ensures StateTotal(records, name) == StateTotal(records[..j] + records[j + 1..], name) + Share(records[j], name)
  {
    var before, after := records[..j], records[j + 1..];
    assert records == before + [records[j]] + after;
    StateTotalConcat(before, after, name);
    StateTotalConcat(before + [records[j]], after, name);
    StateTotalConcat(before, [records[j]], name);
    assert [records[j]][..0] == [];
  }

  lemma {:induction false} StateTotalPermutation(records: seq<RawRecord>, shuffled: seq<RawRecord>, name: string)
    requires multiset(records) == multiset(shuffled)
    ensures StateTotal(records, name) == StateTotal(shuffled, name)
    decreases |records|
  {
    if |records| == 0 {
      assert |shuffled| == |multiset(shuffled)| == 0;
    } else {
      var prefix := records[..|records| - 1];
      var last := records[|records| - 1];
      assert records == prefix + [last];
      assert multiset(prefix) == multiset(records) - multiset{last};
      assert last in multiset(shuffled);
      var j :| 0 <= j < |shuffled| && shuffled[j] == last;
      RemoveAt(shuffled, j, name);
      StateTotalPermutation(prefix, shuffled[..j] + shuffled[j + 1..], name);
    }
  }

  lemma SurvivingNamesPermutation(records: seq<RawRecord>, shuffled: seq<RawRecord>)
    requires multiset(records) == multiset(shuffled)
    ensures SurvivingNames(records) == SurvivingNames(shuffled)
  {
    forall rec ensures rec in records <==> rec in shuffled {
      assert rec in records <==> rec in multiset(records);
      assert rec in shuffled <==> rec in multiset(shuffled);
    }
  }

  /** Totals do not depend on record order: any permutation of the batch yields the same
      dictionary. */
  lemma PermutationInvariant(records: seq<RawRecord>, shuffled: seq<RawRecord>)
    requires multiset(records) == multiset(shuffled)
    ensures Accumulate(records) == Accumulate(shuffled)
  {
    AccumulateSpec(records);
    AccumulateSpec(shuffled);
    SurvivingNamesPermutation(records, shuffled);
    forall name | name in Accumulate(records)
      ensures Accumulate(records)[name] == Accumulate(shuffled)[name]
    {
      StateTotalPermutation(records, shuffled, name);
    }
  }
}
