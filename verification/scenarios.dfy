/** Concrete batches and the dictionaries the service builds from them. */
module Scenarios {
  import opened Wrappers
  import opened Records
  import opened Aggregation
  import opened ExternalApiService

  function County(name: string, population: int): RawRecord {
    RawRecord(Some(name), Some(population))
  }

  /** Two Texas counties are summed into one entry; Ohio gets its own. */
  lemma TexasAndOhio()
    ensures CreateStateDictionary(Body(Features([County("Texas", 100), County("Texas", 200), County("Ohio", 50)])))
            == Success(map["Texas" := 300, "Ohio" := 50])
  {
    var t1, t2, o := County("Texas", 100), County("Texas", 200), County("Ohio", 50);
    assert Accumulate([]) == map[];
    AppendValid([], t1);
    assert [] + [t1] == [t1];
    assert Accumulate([t1]) == map["Texas" := 100];
    AppendValid([t1], t2);
    assert [t1] + [t2] == [t1, t2];
    assert Accumulate([t1, t2]) == map["Texas" := 300];
    AppendValid([t1, t2], o);
    assert [t1, t2] + [o] == [t1, t2, o];
    assert Accumulate([t1, t2, o]) == map["Texas" := 300, "Ohio" := 50];
  }

  /** Matching is exact: differently cased names are different keys. */
  lemma CaseSensitiveKeys()
    ensures CreateStateDictionary(Body(Features([County("Texas", 1), County("TEXAS", 2)])))
            == Success(map["Texas" := 1, "TEXAS" := 2])
  {
    var lower, upper := County("Texas", 1), County("TEXAS", 2);
    AppendValid([], lower);
    assert [] + [lower] == [lower];
    AppendValid([lower], upper);
    assert [lower] + [upper] == [lower, upper];
  }

  /** A batch of corrupted records yields an empty dictionary, not an error. */
  lemma OnlyCorruptedRecords()
    ensures CreateStateDictionary(Body(Features([County("", 10), RawRecord(Some("Iowa"), None)])))
            == Success(map[])
  {
  }

  /** A whitespace-only name is truthy and kept as its own key; a negative population is summed. */
  lemma NoTrimmingNoSignCheck()
    ensures CreateStateDictionary(Body(Features([County(" ", -5)]))) == Success(map[" " := -5])
  {
  }

  /** Structurally invalid batches fail before any record is read. */
  lemma InvalidBatches()
    ensures CreateStateDictionary(NoData) == Failure(InvalidData)
    ensures CreateStateDictionary(Body(Missing)) == Failure(InvalidData)
    ensures CreateStateDictionary(Body(NotAnArray)) == Failure(InvalidData)
  {
  }
}
