/** One county feature's attributes as received from the upstream service, and the rule
    that decides whether the aggregation loop uses it or skips it as corrupted. */
module Records {
  import opened Wrappers

  /** The `attributes` of one feature. `stateName` is `None` when `STATE_NAME` is null,
      undefined or a falsy non-string (`0`, `false`, `NaN`); `population` is the result
      of converting `POPULATION` to a number, `None` standing for NaN. */
  datatype RawRecord = RawRecord(stateName: Option<string>, population: Option<int>)

  /** A record is corrupted when its state name is falsy (absent or the empty string)
      or its population does not convert to a number. */
  predicate Corrupted(rec: RawRecord) {
    || rec.stateName.None?
    || rec.stateName.value == ""
    || rec.population.None?
  }

  /** The state name of a record that is not corrupted. */
  function NameOf(rec: RawRecord): string
    requires !Corrupted(rec)
  {
    rec.stateName.value
  }

  /** The population of a record that is not corrupted. */
  function PopulationOf(rec: RawRecord): int
    requires !Corrupted(rec)
  {
    rec.population.value
  }

  /** The records the loop keeps, each as often as it occurs in the batch. */
  function Survivors(records: seq<RawRecord>): (kept: seq<RawRecord>)
    ensures |kept| <= |records|
    ensures forall i :: 0 <= i < |kept| ==> !Corrupted(kept[i]) && kept[i] in records
    ensures forall rec :: rec in records && !Corrupted(rec) ==> rec in kept
    ensures forall rec :: multiset(kept)[rec] == if Corrupted(rec) then 0 else multiset(records)[rec]
  {
    if |records| == 0 then []
    else
      var prefix := records[..|records| - 1];
      var last := records[|records| - 1];
      assert records == prefix + [last];
      if Corrupted(last) then Survivors(prefix) else Survivors(prefix) + [last]
  }
}
