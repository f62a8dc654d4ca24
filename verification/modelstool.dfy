/** `get_models_and_years_tool`: require a vehicle type and a brand code,
    fetch the brand's models, then fetch the years of each of the first
    `limit` models one after another and render one block per model. */
module ModelsTool {
  import opened Prelude
  import opened PyText
  import opened PyInt
  import opened PySlice
  import opened PyErrors
  import opened ParamParser
  import opened Fipe

  const DefaultLimit := 5
  /** How many years each model block lists at most. */
  const YearsShown := 5

  /** A query that passed validation: both values present and non-empty. */
  datatype ModelsQuery = ModelsQuery(vehicleType: string, brand: string, limit: int)

  const MissingMessage := "Harap tentukan 'vehicle_type' dan 'brand_code'."

  /** The message for every exception the tool catches. */
  function FailureMessage(e: Exception): string {
    "Kesalahan saat mengambil model/tahun: " + Describe(e)
    + ". Pastikan vehicle_type dan brand_code sudah benar."
  }

  function NoModelsMessage(brand: string, vt: string): string {
    "Tidak ada model ditemukan untuk kode merek " + brand + " (Tipe: " + vt + ")."
  }

  /** Python truthiness of `params.get(key)`: present and not empty. */
  predicate Truthy(v: Option<string>) {
    v.Some? && v.value != ""
  }

  /** The validating half of the tool, which never touches the network:
      parse, convert `limit` with `int()`, then require both values. The
      vehicle type is not checked against the known codes. */
  function ReadQuery(input: string): (r: Result<ModelsQuery, ToolOutput>)
    ensures r.Failure? ==> r.error.Error?
    ensures ParseInput(input).Failure? ==>
      r == Failure(Error(FailureMessage(ParseInput(input).error)))
    ensures r.Success? <==>
      && ParseInput(input).Success?
      && IntParam(ParseInput(input).value, "limit", DefaultLimit).Success?
      && Truthy(Get(ParseInput(input).value, "vehicle_type"))
      && Truthy(Get(ParseInput(input).value, "brand_code"))
    ensures r.Success? ==>
      var params := ParseInput(input).value;
      && r.value.vehicleType == params["vehicle_type"] != ""
      && r.value.brand == params["brand_code"] != ""
      && ("limit" !in params ==> r.value.limit == DefaultLimit)
      && ("limit" in params ==> ParseInt(params["limit"]) == Some(r.value.limit))
    ensures (&& ParseInput(input).Success?
             && IntParam(ParseInput(input).value, "limit", DefaultLimit).Failure?) ==>
      r == Failure(Error(FailureMessage(IntParam(ParseInput(input).value, "limit", DefaultLimit).error)))
    ensures (&& ParseInput(input).Success?
             && IntParam(ParseInput(input).value, "limit", DefaultLimit).Success?
             && !r.Success?) ==> r == Failure(Error(MissingMessage))
  {
    match ParseInput(input)
    case Failure(e) => Failure(Error(FailureMessage(e)))
    case Success(params) =>
      var vt := Get(params, "vehicle_type");
      var brand := Get(params, "brand_code");
      match IntParam(params, "limit", DefaultLimit)
      case Failure(e) => Failure(Error(FailureMessage(e)))
      case Success(limit) =>
        if !Truthy(vt) || !Truthy(brand) then Failure(Error(MissingMessage))
        else Success(ModelsQuery(vt.value, brand.value, limit))
  }

  /** One year as `nome (<code>codigo</code>)`. */
  function YearLabel(y: Item): (text: string)
    ensures |text| > 0 && text[|text| - 1] == ')'
  {
    y.name + " (<code>" + y.code + "</code>)"
  }

  function YearLabels(years: seq<Item>): (labels: seq<string>)
    ensures |labels| == |years|
  {
    seq(|years|, i requires 0 <= i < |years| => YearLabel(years[i]))
  }

  const NoYears := "Tidak ada data tahun."

  /** The comma-joined year labels, or the placeholder when that is empty. */
  function YearsDisplay(years: seq<Item>): string {
    var joined := Join(", ", YearLabels(years));
    if joined == "" then NoYears else joined
  }

  /** The placeholder appears exactly when the model has no years. */
  lemma PlaceholderIffNoYears(years: seq<Item>)
    ensures YearsDisplay(years) == NoYears <==> |years| == 0
  {
    if |years| > 0 {
      var labels := YearLabels(years);
      var joined := Join(", ", labels);
      var last := labels[|labels| - 1];
      JoinEndsWithLast(", ", labels);
      assert joined[|joined| - 1] == last[|last| - 1] == ')';
      assert NoYears[|NoYears| - 1] == '.';
    }
  }

  /** Fixed markup of a model block (indentation and inline style included). */
  const BlockOpen :=
    "\n              <div style=\"border-left: 3px solid #00BCD4; padding: 10px; margin-bottom: 8px; "
    + "background-color: #f0f8ff; border-radius: 4px;\">\n                  <b>\U{1F697} Model: "
  const BlockCode := "</b> (Kode Model: <code>"
  const BlockYears := "</code>)<br>\n                  \U{1F4C5} Tahun Tersedia: "
  const BlockClose := "\n              </div>\n              "

  /** The block for one model and the years it shows. */
  function Block(model: Item, years: seq<Item>): string {
    BlockOpen + model.name + BlockCode + model.code + BlockYears + YearsDisplay(years) + BlockClose
  }

  /** The year list of a fetch that succeeded (empty otherwise). */
  function YearsOf(f: Fetch<seq<Item>>): seq<Item> {
    if f.Got? then f.body else []
  }

  /** The years each model shows once its request is answered: at most
      `YearsShown` of them, in the catalogue's order. */
  function ShownYears(models: seq<Item>, years: string -> Fetch<seq<Item>>): (shown: seq<seq<Item>>)
    ensures |shown| == |models|
  {
    seq(|models|, i requires 0 <= i < |models| => SliceTo(YearsOf(years(models[i].code)), YearsShown))
  }

  /** One block per model, with the years given for it. */
  function Blocks(models: seq<Item>, shownYears: seq<seq<Item>>): (blocks: seq<string>)
    requires |shownYears| == |models|
    ensures |blocks| == |models|
  {
    seq(|models|, i requires 0 <= i < |models| => Block(models[i], shownYears[i]))
  }

  /** The block each model gets when its years are fetched: the reference
      the fan-out is measured against. */
  function ExpectedBlocks(models: seq<Item>, years: string -> Fetch<seq<Item>>): seq<string> {
    Blocks(models, ShownYears(models, years))
  }

  /** The years request of each model, in order. */
  function YearsRequests(vt: string, brand: string, models: seq<Item>): (rs: seq<Request>)
    ensures |rs| == |models|
  {
    seq(|models|, i requires 0 <= i < |models| => YearsList(vt, brand, models[i].code))
  }

  /** Progress of the per-model loop: the years shown for each model
      visited so far (its block is built from them), the requests issued,
      and the reason of the fetch that raised, if one did. */
  datatype FanOut = FanOut(shownYears: seq<seq<Item>>, fetched: seq<Request>, failure: Option<string>)

  /** The `for model in modelos` loop: one years request per model, in
      order, stopping at the first one that raises. */
  function FetchYears(vt: string, brand: string, models: seq<Item>, years: string -> Fetch<seq<Item>>): (f: FanOut)
    ensures |f.fetched| <= |models|
    ensures |models| > 0 ==> |f.fetched| > 0
    ensures f.failure.None? ==> |f.fetched| == |f.shownYears| == |models|
    ensures f.failure.Some? ==> 0 < |f.fetched| && |f.shownYears| == |f.fetched| - 1
    ensures forall i :: 0 <= i < |f.shownYears| ==> |f.shownYears[i]| <= YearsShown
    decreases |models|
  {
    if |models| == 0 then FanOut([], [], None)
    else
      var request := YearsList(vt, brand, models[0].code);
      match years(models[0].code)
      case Failed(reason) => FanOut([], [request], Some(reason))
      case Got(ys) =>
        var rest := FetchYears(vt, brand, models[1..], years);
        FanOut([SliceTo(ys, YearsShown)] + rest.shownYears, [request] + rest.fetched, rest.failure)
  }

  /** One turn of the loop over a model whose years are answered: its
      request and block come first, then the rest of the loop. */
  lemma FetchYearsStep(vt: string, brand: string, models: seq<Item>, years: string -> Fetch<seq<Item>>)
    requires |models| > 0 && years(models[0].code).Got?
    ensures var rest := FetchYears(vt, brand, models[1..], years);
      FetchYears(vt, brand, models, years)
        == FanOut([SliceTo(years(models[0].code).body, YearsShown)] + rest.shownYears,
                  [YearsList(vt, brand, models[0].code)] + rest.fetched,
                  rest.failure)
  {
  }

  /** The loop requests the years of a prefix of the models, in order. */
  lemma {:induction false} FetchYearsRequests(vt: string, brand: string, models: seq<Item>,
                                              years: string -> Fetch<seq<Item>>)
    ensures var f := FetchYears(vt, brand, models, years);
      f.fetched == YearsRequests(vt, brand, models[..|f.fetched|])
    decreases |models|
  {
    if |models| > 0 && years(models[0].code).Got? {
      var tail := models[1..];
      FetchYearsRequests(vt, brand, tail, years);
      FetchYearsStep(vt, brand, models, years);
      var rest := FetchYears(vt, brand, tail, years);
      var fetched := [YearsList(vt, brand, models[0].code)] + rest.fetched;
      forall i | 0 <= i < |fetched| ensures fetched[i] == YearsList(vt, brand, models[i].code) {
        if i > 0 {
          assert fetched[i] == rest.fetched[i - 1];
          assert tail[..|rest.fetched|][i - 1] == models[i];
        }
      }
    }
  }

  /** The loop ends without failure exactly when every years request is
      answered, and then it has visited every model and built the
      years of every model. */
  lemma {:induction false} FetchYearsComplete(vt: string, brand: string, models: seq<Item>,
                                              years: string -> Fetch<seq<Item>>)
    ensures var f := FetchYears(vt, brand, models, years);
      && (f.failure.None? <==> forall i :: 0 <= i < |models| ==> years(models[i].code).Got?)
      && (f.failure.None? ==> |f.fetched| == |models| && f.shownYears == ShownYears(models, years))
    decreases |models|
  {
    if |models| > 0 && years(models[0].code).Got? {
      var tail := models[1..];
      FetchYearsComplete(vt, brand, tail, years);
      FetchYearsStep(vt, brand, models, years);
      assert forall i :: 1 <= i < |models| ==> tail[i - 1] == models[i];
      var rest := FetchYears(vt, brand, tail, years);
      if rest.failure.None? {
        var expected := ShownYears(models, years);
        assert expected == [expected[0]] + ShownYears(tail, years);
      }
    }
  }

  /** When the loop fails, the last request it issued is the one that
      raised, and every earlier one was answered. */
  lemma {:induction false} FetchYearsStops(vt: string, brand: string, models: seq<Item>,
                                           years: string -> Fetch<seq<Item>>)
    ensures var f := FetchYears(vt, brand, models, years);
      f.failure.Some? ==>
        && 0 < |f.fetched|
        && years(models[|f.fetched| - 1].code) == Failed(f.failure.value)
        && forall i :: 0 <= i < |f.fetched| - 1 ==> years(models[i].code).Got?
    decreases |models|
  {
    if |models| > 0 && years(models[0].code).Got? {
      var tail := models[1..];
      FetchYearsStops(vt, brand, tail, years);
      FetchYearsStep(vt, brand, models, years);
      var rest := FetchYears(vt, brand, tail, years);
      if rest.failure.Some? {
        var k := |rest.fetched|;
        assert tail[k - 1] == models[k];
        forall i | 0 <= i < k ensures years(models[i].code).Got? {
          if i > 0 {
            assert tail[i - 1] == models[i];
          }
        }
      }
    }
  }

  /** The models the loop visits: `models_data.get("modelos", [])[:limit]`. */
  function Shown(q: ModelsQuery, models: Option<seq<Item>>): seq<Item> {
    SliceTo(models.GetOr([]), q.limit)
  }

  /** The requests and output once `shown` is known to be non-empty: the
      models request, then the years loop, its blocks joined by newlines
      or the error of the request that raised. */
  function VisitModels(q: ModelsQuery, shown: seq<Item>, years: string -> Fetch<seq<Item>>): (run: ToolRun)
    requires shown != []
    ensures 2 <= |run.fetched| <= 1 + |shown|
    ensures run.fetched[0] == ModelsList(q.vehicleType, q.brand)
    ensures run.fetched[1..] == YearsRequests(q.vehicleType, q.brand, shown[..|run.fetched| - 1])
    ensures (forall i :: 0 <= i < |shown| ==> years(shown[i].code).Got?) ==>
      && |run.fetched| == 1 + |shown|
      && run.output == Text(Join("\n", ExpectedBlocks(shown, years)))
    ensures (exists i :: 0 <= i < |shown| && years(shown[i].code).Failed?) ==>
      && |run.fetched| >= 2
      && years(shown[|run.fetched| - 2].code).Failed?
      && (forall i :: 0 <= i < |run.fetched| - 2 ==> years(shown[i].code).Got?)
      && run.output == Error(FailureMessage(LookupFailed(years(shown[|run.fetched| - 2].code).reason)))
  {
    var f := FetchYears(q.vehicleType, q.brand, shown, years);
    FetchYearsRequests(q.vehicleType, q.brand, shown, years);
    FetchYearsComplete(q.vehicleType, q.brand, shown, years);
    FetchYearsStops(q.vehicleType, q.brand, shown, years);
    var fetched := [ModelsList(q.vehicleType, q.brand)] + f.fetched;
    assert fetched[1..] == f.fetched;
    match f.failure
    case Some(reason) => ToolRun(Error(FailureMessage(LookupFailed(reason))), fetched)
    case None => ToolRun(Text(Join("\n", Blocks(shown, f.shownYears))), fetched)
  }

  /** The fetching half: the models request, then the years loop. */
  function RunQuery(q: ModelsQuery, catalogue: Catalogue): (run: ToolRun)
    ensures |run.fetched| >= 1 && run.fetched[0] == ModelsList(q.vehicleType, q.brand)
    ensures catalogue.models.Failed? ==>
      run == ToolRun(Error(FailureMessage(LookupFailed(catalogue.models.reason))),
                     [ModelsList(q.vehicleType, q.brand)])
    ensures catalogue.models.Got? ==>
      var shown := Shown(q, catalogue.models.body);
      && |run.fetched| <= 1 + |shown|
      && run.fetched[1..] == YearsRequests(q.vehicleType, q.brand, shown[..|run.fetched| - 1])
      && (shown == [] ==> run.output == Text(NoModelsMessage(q.brand, q.vehicleType)))
      && (shown != [] && (forall i :: 0 <= i < |shown| ==> catalogue.years(shown[i].code).Got?) ==>
            && |run.fetched| == 1 + |shown|
            && run.output == Text(Join("\n", ExpectedBlocks(shown, catalogue.years))))
      && ((exists i :: 0 <= i < |shown| && catalogue.years(shown[i].code).Failed?) ==>
            && |run.fetched| >= 2
            && catalogue.years(shown[|run.fetched| - 2].code).Failed?
            && (forall i :: 0 <= i < |run.fetched| - 2 ==> catalogue.years(shown[i].code).Got?)
            && run.output == Error(FailureMessage(LookupFailed(
                 catalogue.years(shown[|run.fetched| - 2].code).reason))))
  {
    var first := ModelsList(q.vehicleType, q.brand);
    match catalogue.models
    case Failed(reason) => ToolRun(Error(FailureMessage(LookupFailed(reason))), [first])
    case Got(body) =>
      var shown := Shown(q, body);
      if shown == [] then
        assert shown[..0] == [];
        ToolRun(Text(NoModelsMessage(q.brand, q.vehicleType)), [first])
      else VisitModels(q, shown, catalogue.years)
  }

  /** Once the models are fetched, the tool answers with the "no model"
      text after that one request exactly when `modelos[:limit]` is empty:
      the brand has no models, the limit is zero, or a negative limit
      reaches back past the first model. */
  lemma NoModelsIffEmptySlice(q: ModelsQuery, catalogue: Catalogue)
    requires catalogue.models.Got?
    ensures var m := catalogue.models.body.GetOr([]);
      var run := RunQuery(q, catalogue);
      && ((|m| == 0 || q.limit == 0 || q.limit <= -|m|) <==> run.fetched == [ModelsList(q.vehicleType, q.brand)])
      && ((|m| == 0 || q.limit == 0 || q.limit <= -|m|) ==>
            run.output == Text(NoModelsMessage(q.brand, q.vehicleType)))
  {
    SliceToEmpty(catalogue.models.body.GetOr([]), q.limit);
  }

  /** `get_models_and_years_tool(input)`. */
  function GetModelsAndYears(input: string, catalogue: Catalogue): (run: ToolRun)
    ensures ReadQuery(input).Failure? <==> run.fetched == []
    ensures ReadQuery(input).Failure? ==> run.output == ReadQuery(input).error
    ensures run.fetched != [] ==>
      var q := ReadQuery(input).value;
      && run.fetched[0] == ModelsList(q.vehicleType, q.brand)
      && forall i :: 1 <= i < |run.fetched| ==> run.fetched[i].YearsList?
  {
    match ReadQuery(input)
    case Failure(out) => ToolRun(out, [])
    case Success(q) => RunQuery(q, catalogue)
  }

  /** A kept piece with two or more `=` never reaches the network: the
      tool answers with its error payload for the `dict()` failure. */
  lemma ExtraEqualsCaught(input: string, catalogue: Catalogue, i: int)
    requires 0 <= i < |KeptPieces(input)| && Count(KeptPieces(input)[i], '=') >= 2
    ensures ParseInput(input).Failure?
    ensures GetModelsAndYears(input, catalogue) ==
      ToolRun(Error(FailureMessage(ParseInput(input).error)), [])
  {
  }

  /** Any non-empty vehicle type, known code or not, reaches the models
      request, together with the brand code as given. */
  lemma AnyTypeIsFetched(input: string, catalogue: Catalogue)
    requires ParseInput(input).Success?
    requires IntParam(ParseInput(input).value, "limit", DefaultLimit).Success?
    requires Truthy(Get(ParseInput(input).value, "vehicle_type"))
    requires Truthy(Get(ParseInput(input).value, "brand_code"))
    ensures var params := ParseInput(input).value;
      GetModelsAndYears(input, catalogue).fetched[0]
        == ModelsList(params["vehicle_type"], params["brand_code"])
  {
  }
}
