/** The advertisement filter of `onAdvertisementReceived` in
    `src/session/ble.js`: the test `filters.find` applies to one filter, and
    the search over the filter list. Filters arrive from the client as JSON
    values; a test that throws ends the search and the whole event. */
module Discovery {
  import opened JsValue
  import opened Uuid
  import opened Gatt

  /** One filter's answer: it matches, it does not, or its test throws. */
  datatype Verdict = Match | NoMatch | Throws(error: Value)

  const DestructureError := Err("Cannot destructure a null or undefined filter")
  const LocalNameError := Err("Cannot read property 'indexOf' of undefined")
  const ServicesError := Err("services.every is not a function")
  const SplitError := Err("id.split is not a function")
  const ManufacturerTypeError := Err("manufacturerData.every is not a function")
  /** The misspelt `dvertisement` names no variable. */
  const ManufacturerTypoError := Err("dvertisement is not defined")
  const FindError := Err("filters.find is not a function")

  /** The exceptions the filter test can throw. */
  const FilterErrors := {DestructureError, LocalNameError, ServicesError, SplitError,
                         ManufacturerTypeError, ManufacturerTypoError}

  /** `services.every(...)`: each required service, after `getUUID`, is in
      the advertised list; no list at all fails every non-empty requirement. */
  function ServicesVerdict(required: seq<Value>, advertised: Option<seq<string>>): (v: Verdict)
    ensures v.Throws? ==> v.error == SplitError
  {
    if required == [] then Match
    else if advertised.None? then NoMatch
    else match GetUUID(required[0])
      case None => Throws(SplitError)
      case Some(u) =>
        if u.Str? && u.s in advertised.value then ServicesVerdict(required[1..], advertised) else NoMatch
  }

  /** The manufacturer-data test: compared only when both sides are present;
      a length mismatch fails; equal lengths reach the `every` callback,
      which names the misspelt `dvertisement` and throws as soon as it runs,
      that is, unless both are empty. */
  function ManufacturerVerdict(required: Value, advertised: Option<seq<byte>>): Verdict
  {
    if !Truthy(required) || advertised.None? then Match
    else if Get(required, "length") != Num(|advertised.value|) then NoMatch
    else if !required.Arr? then Throws(ManufacturerTypeError)
    else if required.items == [] then Match
    else Throws(ManufacturerTypoError)
  }

  /** The callback `filters.find` applies to one filter, in the order the
      source tests its fields. */
  function FilterVerdict(filter: Value, adv: Advertisement): (v: Verdict)
    ensures (filter.Null? || filter.Undefined?) <==> v == Throws(DestructureError)
    ensures v.Throws? ==> v.error in FilterErrors
    ensures v == Match ==> adv.localName.Some? && adv.localName.value != ""
  {
    if filter.Null? || filter.Undefined? then Throws(DestructureError)
    else
      var name, namePrefix := Get(filter, "name"), Get(filter, "namePrefix");
      var services, manufacturerData := Get(filter, "services"), Get(filter, "manufacturerData");
      if Truthy(name) && !(adv.localName.Some? && name == Str(adv.localName.value)) then NoMatch
      else if Truthy(namePrefix) && adv.localName.None? then Throws(LocalNameError)
      else if Truthy(namePrefix) && !IsPrefix(ToJsString(namePrefix), adv.localName.value) then NoMatch
      else
        var byServices :=
          if !Truthy(services) then Match
          else if services.Arr? then ServicesVerdict(services.items, adv.serviceUuids)
          else Throws(ServicesError);
        if byServices != Match then byServices
        else
          var byData := ManufacturerVerdict(manufacturerData, adv.manufacturerData);
          if byData != Match then byData
          else if adv.localName.Some? && adv.localName.value != "" then Match
          else NoMatch
  }

  /** What `filters.find(...)` answers: the first filter whose test returned
      true, nothing, or the exception of the first test that threw. */
  datatype Found = Found(filter: Value) | NotFound | Threw(error: Value)

  /** `filters.find(...)`: the first filter that does not answer `NoMatch`
      decides, and a match answers with the filter itself. */
  function FindFirst(filters: seq<Value>, adv: Advertisement): (r: Found)
    ensures r.Found? ==> r.filter in filters && FilterVerdict(r.filter, adv) == Match
    ensures r.Threw? ==> exists f :: f in filters && FilterVerdict(f, adv) == Throws(r.error)
    ensures filters == [] ==> r == NotFound
  {
    if filters == [] then NotFound
    else
      match FilterVerdict(filters[0], adv)
      case Match => Found(filters[0])
      case NoMatch => FindFirst(filters[1..], adv)
      case Throws(e) => Threw(e)
  }

  /** `(filters || []).find(...)`. */
  function SelectFilter(filters: Value, adv: Advertisement): (r: Found)
    ensures r.Found? ==> filters.Arr? && r.filter in filters.items && FilterVerdict(r.filter, adv) == Match
    ensures r.Threw? ==> r.error == FindError || r.error in FilterErrors
    ensures r.Threw? && !filters.Arr? ==> r.error == FindError
  {
    if !Truthy(filters) then NotFound
    else if filters.Arr? then FindFirst(filters.items, adv)
    else Threw(FindError)
  }

  /** `if (finded)`: the peripheral is reported only when `find` answered
      with a filter that is itself truthy. */
  predicate Reports(f: Found)
    ensures Reports(f) <==>
              f.Found? && f.filter !in {Undefined, Null, Bool(false), Num(0), Str("")}
  {
    f.Found? && Truthy(f.filter)
  }

  /** A required service is present in the advertisement after `getUUID`. */
  predicate ServiceAdvertised(service: Value, advertised: Option<seq<string>>)
  {
    && advertised.Some?
    && GetUUID(service).Some?
    && GetUUID(service).value.Str?
    && GetUUID(service).value.s in advertised.value
  }

  /** When a filter matches, stated field by field: the name, if truthy, is
      the advertised name; the advertised name starts with the prefix, if
      truthy; every required service is advertised; manufacturer data
      present on both sides has the same length, and is empty, since any
      comparison of contents throws; and the advertised name is not empty. */
  predicate Satisfies(filter: Value, adv: Advertisement)
    ensures Satisfies(filter, adv) && Truthy(Get(filter, "name")) ==>
              Get(filter, "name").Str? &&
              (Truthy(Get(filter, "namePrefix")) ==> IsPrefix(ToJsString(Get(filter, "namePrefix")), Get(filter, "name").s))
  {
    var name, namePrefix := Get(filter, "name"), Get(filter, "namePrefix");
    var services, manufacturerData := Get(filter, "services"), Get(filter, "manufacturerData");
    && !filter.Null? && !filter.Undefined?
    && (Truthy(name) ==> name.Str? && adv.localName == Some(name.s))
    && (Truthy(namePrefix) ==> adv.localName.Some? && IsPrefix(ToJsString(namePrefix), adv.localName.value))
    && (Truthy(services) ==>
          services.Arr? && forall k :: 0 <= k < |services.items| ==> ServiceAdvertised(services.items[k], adv.serviceUuids))
    && (Truthy(manufacturerData) && adv.manufacturerData.Some? ==>
          manufacturerData == Arr([]) && adv.manufacturerData.value == [])
    && adv.localName.Some? && adv.localName.value != ""
  }

  lemma {:induction false} ServicesVerdictMatch(required: seq<Value>, advertised: Option<seq<string>>)
    ensures ServicesVerdict(required, advertised) == Match <==>
              forall k :: 0 <= k < |required| ==> ServiceAdvertised(required[k], advertised)
  {
    if required != [] {
      if ServiceAdvertised(required[0], advertised) {
        ServicesVerdictMatch(required[1..], advertised);
        assert forall k :: 1 <= k < |required| ==> required[k] == required[1..][k - 1];
      } else {
        assert ServicesVerdict(required, advertised) != Match;
      }
    }
  }

  lemma ManufacturerVerdictMatch(required: Value, advertised: Option<seq<byte>>)
    ensures ManufacturerVerdict(required, advertised) == Match <==>
              (Truthy(required) && advertised.Some? ==> required == Arr([]) && advertised.value == [])
  {
  }

  /** The filter test answers `Match` exactly when the filter is satisfied. */
  lemma FilterVerdictMatch(filter: Value, adv: Advertisement)
    ensures FilterVerdict(filter, adv) == Match <==> Satisfies(filter, adv)
  {
    var services := Get(filter, "services");
    if services.Arr? {
      ServicesVerdictMatch(services.items, adv.serviceUuids);
    }
    ManufacturerVerdictMatch(Get(filter, "manufacturerData"), adv.manufacturerData);
  }

  /** Equal-length, non-empty manufacturer data on both sides makes a filter
      throw once its name, prefix and service tests pass; a filter that fails
      one of those returns before the manufacturer test is reached. */
  lemma ManufacturerTypoThrows(filter: Value, adv: Advertisement)
    requires !filter.Null? && !filter.Undefined?
    requires Truthy(Get(filter, "name")) ==> adv.localName.Some? && Get(filter, "name") == Str(adv.localName.value)
    requires Truthy(Get(filter, "namePrefix")) ==>
               adv.localName.Some? && IsPrefix(ToJsString(Get(filter, "namePrefix")), adv.localName.value)
    requires var services := Get(filter, "services");
      Truthy(services) ==>
        services.Arr? && forall k :: 0 <= k < |services.items| ==> ServiceAdvertised(services.items[k], adv.serviceUuids)
    requires Get(filter, "manufacturerData").Arr?
    requires adv.manufacturerData.Some?
    requires 0 < |Get(filter, "manufacturerData").items| == |adv.manufacturerData.value|
    ensures FilterVerdict(filter, adv) == Throws(ManufacturerTypoError)
  {
    var services := Get(filter, "services");
    if Truthy(services) {
      ServicesVerdictMatch(services.items, adv.serviceUuids);
    }
  }

  /** The index of the first filter that does not answer `NoMatch`, or the
      length of the list. */
  function FirstDecisive(filters: seq<Value>, adv: Advertisement): (k: nat)
    ensures k <= |filters|
    ensures forall j :: 0 <= j < k ==> FilterVerdict(filters[j], adv) == NoMatch
    ensures k < |filters| ==> !FilterVerdict(filters[k], adv).NoMatch?
  {
    if filters == [] then 0
    else if !FilterVerdict(filters[0], adv).NoMatch? then 0
    else
      var k := FirstDecisive(filters[1..], adv);
      assert forall j :: 1 <= j < k + 1 ==> filters[j] == filters[1..][j - 1];
      k + 1
  }

  /** `find` answers with the first decisive filter, or that filter's
      exception, or nothing when every filter answers `NoMatch`. */
  lemma {:induction false} FindFirstIsFirstDecisive(filters: seq<Value>, adv: Advertisement)
    ensures var k := FirstDecisive(filters, adv);
      && (k == |filters| ==> FindFirst(filters, adv) == NotFound)
      && (k < |filters| && FilterVerdict(filters[k], adv).Match? ==> FindFirst(filters, adv) == Found(filters[k]))
      && (k < |filters| && FilterVerdict(filters[k], adv).Throws? ==>
            FindFirst(filters, adv) == Threw(FilterVerdict(filters[k], adv).error))
  {
    if filters != [] && FilterVerdict(filters[0], adv).NoMatch? {
      FindFirstIsFirstDecisive(filters[1..], adv);
    }
  }

  /** The search answers with a filter exactly when some filter is satisfied
      and every filter before it answered `NoMatch`, and then with that
      filter; it throws exactly when the first filter that does not answer
      `NoMatch` throws. */
  lemma FindFirstFirst(filters: seq<Value>, adv: Advertisement)
    ensures FindFirst(filters, adv).Found? <==>
              exists i :: 0 <= i < |filters| && Satisfies(filters[i], adv) &&
                forall j :: 0 <= j < i ==> FilterVerdict(filters[j], adv) == NoMatch
    ensures forall i ::
              (0 <= i < |filters| && Satisfies(filters[i], adv) &&
               forall j :: 0 <= j < i ==> FilterVerdict(filters[j], adv) == NoMatch) ==>
              FindFirst(filters, adv) == Found(filters[i])
    ensures FindFirst(filters, adv).Threw? <==>
              exists i :: 0 <= i < |filters| && FilterVerdict(filters[i], adv).Throws? &&
                forall j :: 0 <= j < i ==> FilterVerdict(filters[j], adv) == NoMatch
  {
    var k := FirstDecisive(filters, adv);
    FindFirstIsFirstDecisive(filters, adv);
    if k < |filters| {
      FilterVerdictMatch(filters[k], adv);
    }
    forall i | 0 <= i < |filters| && (forall j :: 0 <= j < i ==> FilterVerdict(filters[j], adv) == NoMatch) &&
                                     !FilterVerdict(filters[i], adv).NoMatch?
      ensures i == k
    {
      assert i <= k;
    }
    forall i | 0 <= i < |filters| && Satisfies(filters[i], adv)
      ensures !FilterVerdict(filters[i], adv).NoMatch?
    {
      FilterVerdictMatch(filters[i], adv);
    }
  }

  /** When no filter throws, a peripheral is reported exactly when the first
      satisfied filter in the list is itself truthy. */
  lemma ReportedIffFirstMatchTruthy(filters: seq<Value>, adv: Advertisement)
    requires forall i :: 0 <= i < |filters| ==> !FilterVerdict(filters[i], adv).Throws?
    ensures Reports(SelectFilter(Arr(filters), adv)) <==>
              exists i :: 0 <= i < |filters| && Satisfies(filters[i], adv) && Truthy(filters[i]) &&
                forall j :: 0 <= j < i ==> !Satisfies(filters[j], adv)
  {
    var k := FirstDecisive(filters, adv);
    FindFirstIsFirstDecisive(filters, adv);
    if k < |filters| {
      FilterVerdictMatch(filters[k], adv);
    }
    forall j | 0 <= j < |filters|
      ensures !Satisfies(filters[j], adv) <==> FilterVerdict(filters[j], adv) == NoMatch
    {
      FilterVerdictMatch(filters[j], adv);
    }
    forall i | 0 <= i < |filters| && Satisfies(filters[i], adv) && forall j :: 0 <= j < i ==> !Satisfies(filters[j], adv)
      ensures i == k
    {
      assert i <= k;
    }
  }

  /** For a list of object filters (the form the client sends) in which no
      filter throws, a peripheral is reported exactly when some filter is
      satisfied. */
  lemma ReportedIffSomeFilterMatches(filters: seq<Value>, adv: Advertisement)
    requires forall i :: 0 <= i < |filters| ==> Truthy(filters[i]) && !FilterVerdict(filters[i], adv).Throws?
    ensures Reports(SelectFilter(Arr(filters), adv)) <==> exists i :: 0 <= i < |filters| && Satisfies(filters[i], adv)
  {
    var k := FirstDecisive(filters, adv);
    FindFirstIsFirstDecisive(filters, adv);
    if k < |filters| {
      FilterVerdictMatch(filters[k], adv);
      assert Satisfies(filters[k], adv);
    } else {
      forall i | 0 <= i < |filters|
        ensures !Satisfies(filters[i], adv)
      {
        FilterVerdictMatch(filters[i], adv);
      }
    }
  }

  /** A falsy filter such as `0`, `false` or `""` destructures to undefined
      fields, so its test passes exactly when the advertised name is not
      empty. */
  lemma FalsyFilterTestsName(filter: Value, adv: Advertisement)
    requires !Truthy(filter) && !filter.Null? && !filter.Undefined?
    ensures FilterVerdict(filter, adv) ==
              if adv.localName.Some? && adv.localName.value != "" then Match else NoMatch
  {
  }

  /** The filter list `[0]` is satisfied by any named advertisement, yet
      `find` answers with the falsy `0` and nothing is reported. */
  lemma ZeroFilterMatchesUnreported(adv: Advertisement)
    requires adv.localName.Some? && adv.localName.value != ""
    ensures Satisfies(Num(0), adv)
    ensures SelectFilter(Arr([Num(0)]), adv) == Found(Num(0))
    ensures !Reports(SelectFilter(Arr([Num(0)]), adv))
  {
    FalsyFilterTestsName(Num(0), adv);
    FilterVerdictMatch(Num(0), adv);
  }
}
