# esri-demographics-service: per-state population aggregation

This project models the one piece of logic in the service, `createStateDictionary` in
`src/externalApiService.js`. It turns a batch of county features from the ArcGIS
USA Census Counties service into a dictionary from state name to total population:

- It rejects a structurally invalid response: falsy `data`, a missing or falsy `features`,
  or a `features` that is not an array. The error is "Invalid data received from API".
- Otherwise it walks the features in order. A feature is skipped as corrupted when its
  `STATE_NAME` is falsy or its `POPULATION` converts to NaN.
- Every other feature's population is added to its state's running total, or starts that
  total. Names are matched exactly and case-sensitively.

`fetchData` is modelled only as pass-through. It returns the dictionary or propagates the
error. The HTTP response is a parameter of the model.

Modules:

- `Wrappers` (`wrappers.dfy`): `Option` and `Result`.
- `Records` (`records.dfy`): the feature attributes `RawRecord` and the skip rule `Corrupted`.
  `stateName` is `None` for a null or undefined name, and for a falsy non-string name (`0`, `false`, `NaN`). `population` is `None` where
  `Number(...)` gives NaN.
- `Aggregation` (`aggregation.dfy`): one loop step `Step`, the fold `Accumulate`, and two
  independent reference definitions. `SurvivingNames` is the set of names of surviving
  records. `StateTotal` is the sum of one state's surviving populations. The module also
  holds the lemmas about the fold.
- `ExternalApiService` (`service.dfy`): the batch shape (`ApiData`, `FeaturesField`), the
  function `CreateStateDictionary`, the index loop `BuildStateDictionary`, and `FetchData`.
- `Scenarios` (`scenarios.dfy`): concrete batches and their dictionaries.

Behaviour of the code worth noting:

- State names are not trimmed. `" "` is truthy, so it becomes a key.
- Negative populations are not rejected. Only NaN is.
- A batch whose records are all corrupted, or an empty batch, gives an empty dictionary. It
  is not an error.
- Keys are matched exactly, so names differing only in case are separate keys.

## Model

| member | source | states |
|---|---|---|
| Records.Survivors | src/externalApiService.js:48-56 | The kept records are all non-corrupted and come from the batch. Each non-corrupted record is kept as many times as it occurs in the batch; corrupted ones are not kept at all |
| Aggregation.Step | src/externalApiService.js:49-62 | A corrupted record leaves the dictionary unchanged. A valid record's name becomes a key, and its entry is the previous total (0 if absent) plus its population. Every other entry is unchanged |
| Aggregation.AccumulateSpec | src/externalApiService.js:46-63 | The keys are exactly the names of the surviving records; a name that survives nowhere gets no key, not even a zero. Each key's value is the sum of the populations of the surviving records with exactly that name. A name with no key has total 0 |
| Aggregation.SkipRule | src/externalApiService.js:53-62 | A record on its own yields no key exactly when its name is falsy or its population is NaN; otherwise it yields one key, its name, holding its population |
| Aggregation.AppendCorrupted | src/externalApiService.js:53-56 | Appending a record with a falsy name or NaN population leaves the dictionary unchanged |
| Aggregation.AppendValid | src/externalApiService.js:58-62 | Appending a valid record for state S adds its population to S's entry, or creates S with that population; every other key and value is unchanged |
| Aggregation.OnlySurvivorsCount | src/externalApiService.js:50-56 | The dictionary equals the fold over the surviving records alone: skipped records have no influence |
| Aggregation.PermutationInvariant | src/externalApiService.js:48-62 | Any permutation of the batch yields a dictionary with the same keys and values, so totals do not depend on record order |
| ExternalApiService.BatchGuard | src/externalApiService.js:42-44 | createStateDictionary produces a dictionary exactly when data is an object whose features is an array; falsy data, a missing or falsy features, and a non-array features all fail |
| ExternalApiService.CreateStateDictionary | src/externalApiService.js:40-71 | The call fails with InvalidData, and gives no dictionary, exactly when data is falsy or features is missing or not an array. Otherwise the keys are the surviving names and each value is that state's total. An empty features array gives the empty dictionary |
| ExternalApiService.BuildStateDictionary | src/externalApiService.js:42-65 | The index loop, with its `in` check and `+=`, computes the same result as the fold, including the error for an invalid batch |
| ExternalApiService.FetchData | src/externalApiService.js:14-24 | A failed request is propagated as an error. A received response yields exactly what createStateDictionary yields, so it succeeds only for a well-formed batch |
| Scenarios.TexasAndOhio | src/externalApiService.js:48-63 | Texas 100, Texas 200 and Ohio 50 give {Texas: 300, Ohio: 50} |
| Scenarios.CaseSensitiveKeys | src/externalApiService.js:58-62 | "Texas" and "TEXAS" are distinct keys |
| Scenarios.OnlyCorruptedRecords | src/externalApiService.js:53-56 | An empty name and a NaN population are both skipped, giving the empty dictionary |
| Scenarios.NoTrimmingNoSignCheck | src/externalApiService.js:53 | A whitespace-only name is kept as a key, and a negative population is summed unchanged |
| Scenarios.InvalidBatches | src/externalApiService.js:42-44 | Null data, missing features and non-array features each fail with InvalidData |

## Left out

- The HTTP GET through axios to the hard-coded ArcGIS URL (src/externalApiService.js:16) is network I/O. Its outcome is the `Response` parameter of `FetchData`.
- The `console.log`/`console.error` calls (src/externalApiService.js:3,21,54,68) are logging only.
- src/index.js is not part of this model. It is Express setup, static files, EJS rendering and port listening, with no logic of its own.
- JavaScript `Number()` coercion is abstracted as `Option<int>`, with `None` for NaN. The model omits `Number("")` and `Number(null)` giving 0, `Infinity` being accepted, and non-integer values. Sums use exact integers, not IEEE doubles, so precision loss above 2^53 is not modelled.
- A truthy `STATE_NAME` that is not a string, such as a number used as a property key, is not modelled. A falsy non-string name (`0`, `false`, `NaN`) is skipped like an absent one, so it is represented as `None`.
- Aggregation.PermutationInvariant compares keys and values only. The source returns a plain object whose key order is visible through `Object.keys` or `JSON.stringify`. That order follows each state's first surviving record, with integer-like keys first. The model's `map` has no key order, so batches in different orders can give objects with the same entries but a different key order.
- The `in` operator on a plain object also matches prototype keys such as "constructor". The model uses a clean `map`.
- A feature without `attributes`, or a null feature, makes the source throw a TypeError at src/externalApiService.js:50. Such features are not representable in `RawRecord`.
