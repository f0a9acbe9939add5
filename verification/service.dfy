/** `createStateDictionary` and `fetchData` from the external API service: structural
    validation of the upstream response, then the aggregation loop over its features. */
module ExternalApiService {
  import opened Wrappers
  import opened Records
  import opened Aggregation

  /** The `features` member of the response body: missing (or any falsy value), present
      but not an array, or an array of feature attributes. */
  datatype FeaturesField = Missing | NotAnArray | Features(records: seq<RawRecord>)

  /** The `data` argument: falsy (null, undefined, ...) or an object with a `features` member. */
  datatype ApiData = NoData | Body(features: FeaturesField)

  /** The errors the service raises. */
  datatype ServiceError =
    | InvalidData          // 'Invalid data received from API'
    | RequestFailed(reason: string)  // the HTTP request itself failed

  /** The upstream HTTP call's outcome, which the model receives rather than performs. */
  datatype Response = Received(data: ApiData) | TransportFailure(reason: string)

  /** True when the batch has the shape the loop needs: an object whose `features` is an array. */
  predicate WellFormed(data: ApiData) {
    data.Body? && data.features.Features?
  }

  /** Builds the per-state dictionary, or fails with `InvalidData` for a structurally
      invalid batch, in which case no dictionary is produced. */
  function CreateStateDictionary(data: ApiData): (r: Result<Dictionary, ServiceError>)
    ensures r.Failure? <==> !WellFormed(data)
    ensures r.Failure? ==> r.error == InvalidData
    ensures r.Success? ==> r.value.Keys == SurvivingNames(data.features.records)
    ensures r.Success? ==> forall name :: name in r.value ==>
              r.value[name] == StateTotal(data.features.records, name)
    ensures data == Body(Features([])) ==> r == Success(map[])
  {
    if !WellFormed(data) then Failure(InvalidData)
    else
      AccumulateSpec(data.features.records);
      Success(Accumulate(data.features.records))
  }

  /** The batch is accepted, with a dictionary as result, exactly when it is an object whose
      `features` is an array; falsy data, a missing `features` and a non-array `features`
      are all refused. */
  lemma BatchGuard(data: ApiData)
    ensures CreateStateDictionary(data).Success? <==> exists records :: data == Body(Features(records))
  {
    if CreateStateDictionary(data).Success? {
      var records := data.features.records;
      assert data == Body(Features(records));
    }
  }

  /** The same operation as the imperative loop over the features, visiting them by index. */
  method BuildStateDictionary(data: ApiData) returns (r: Result<Dictionary, ServiceError>)
    ensures r == CreateStateDictionary(data)
  {
    if data.NoData? || !data.features.Features? {
      return Failure(InvalidData);
    }
    var features := data.features.records;
    var stateDict: Dictionary := map[];
    var i := 0;
    while i < |features|
      invariant 0 <= i <= |features|
      invariant stateDict == Accumulate(features[..i])
    {
      var feature := features[i];
      AccumulatePrefix(features, i);
      if Corrupted(feature) {
        i := i + 1;
        continue;
      }
      var stateName := feature.stateName.value;
      var population := feature.population.value;
      if stateName in stateDict {
        stateDict := stateDict[stateName := stateDict[stateName] + population];
        i := i + 1;
        continue;
      }
      stateDict := stateDict[stateName := population];
      i := i + 1;
    }
    assert features[..|features|] == features;
    return Success(stateDict);
  }

  /** Passes the dictionary through on a successful request, and propagates every error:
      a failed request and an invalid batch alike. */
  function FetchData(response: Response): (r: Result<Dictionary, ServiceError>)
    ensures response.TransportFailure? ==> r == Failure(RequestFailed(response.reason))
    ensures response.Received? ==> r == CreateStateDictionary(response.data)
    ensures r.Success? <==> response.Received? && WellFormed(response.data)
  {
    match response
    case TransportFailure(reason) => Failure(RequestFailed(reason))
    case Received(data) => CreateStateDictionary(data)
  }
}
