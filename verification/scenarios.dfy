/** Tool calls worked through end to end, for every input of a given shape:
    the input text as the agent writes it, the catalogue's answers, and
    exactly what the tool returns and which requests it issues. */
module Scenarios {
  import opened Prelude
  import opened PyText
  import opened PyInt
  import opened PySlice
  import opened PyErrors
  import opened ParamParser
  import opened Fipe
  import BrandsTool
  import ModelsTool

  /** A key or value the input syntax can carry unchanged. */
  predicate PlainWord(w: string) {
    ';' !in w && '=' !in w
  }

  /** The three keys the tools read are plain. */
  lemma KeysArePlain()
    ensures PlainWord("vehicle_type") && PlainWord("brand_code") && PlainWord("limit")
  {
  }

  /** `str(i)` is plain: a minus sign and digits. */
  lemma NumeralIsPlain(i: int)
    ensures PlainWord(IntToString(i))
  {
    var s := IntToString(i);
    var digits := NatToString(if i < 0 then -i else i);
    forall k | 0 <= k < |s| ensures s[k] == '-' || IsDigit(s[k]) {
      if i < 0 && k > 0 {
        assert s[k] == digits[k - 1];
      }
    }
  }

  /** The dictionary of one entry. */
  lemma DictOfOne(k: string, v: string)
    ensures DictOf([(k, v)]) == map[k := v]
  {
    assert [(k, v)][..0] == [];
  }

  /** The dictionary of two entries, the second winning on a shared key. */
  lemma DictOfTwo(k1: string, v1: string, k2: string, v2: string)
    ensures DictOf([(k1, v1), (k2, v2)]) == map[k1 := v1, k2 := v2]
  {
    assert [(k1, v1), (k2, v2)][..1] == [(k1, v1)];
    DictOfOne(k1, v1);
  }

  /** The dictionary of three entries, later ones winning on a shared key. */
  lemma DictOfThree(k1: string, v1: string, k2: string, v2: string, k3: string, v3: string)
    ensures DictOf([(k1, v1), (k2, v2), (k3, v3)]) == map[k1 := v1, k2 := v2, k3 := v3]
  {
    assert [(k1, v1), (k2, v2), (k3, v3)][..2] == [(k1, v1), (k2, v2)];
    DictOfTwo(k1, v1, k2, v2);
  }

  /** A catalogue that only answers the brands request. */
  function BrandsCatalogue(brands: seq<Item>): Catalogue {
    Catalogue(Got(brands), Failed("not requested"), (code: string) => Failed("not requested"))
  }

  /** Once the input is read, the brands tool is its query run. */
  lemma BrandsRunsQuery(input: string, q: BrandsTool.BrandsQuery, catalogue: Catalogue)
    requires BrandsTool.ReadQuery(input) == Success(q)
    ensures BrandsTool.GetBrands(input, catalogue) == BrandsTool.RunQuery(q, catalogue)
  {
  }

  /** Any input decoding to a known type and a rendered limit asks for that
      type with that limit. */
  lemma ReadsTypeAndLimit(input: string, vt: string, n: int)
    requires ParseInput(input) == Success(map["vehicle_type" := vt, "limit" := IntToString(n)])
    requires vt in BrandsTool.VehicleTypes
    ensures BrandsTool.ReadQuery(input) == Success(BrandsTool.BrandsQuery(vt, n))
  {
    ParseIntRoundTrip(n);
  }

  /** Any input decoding to a rendered limit alone asks for car brands with
      that limit. */
  lemma ReadsLimitOnly(input: string, n: int)
    requires ParseInput(input) == Success(map["limit" := IntToString(n)])
    ensures BrandsTool.ReadQuery(input) == Success(BrandsTool.BrandsQuery("carros", n))
  {
    ParseIntRoundTrip(n);
  }

  /** Any input decoding to an unknown type alone is refused by name. */
  lemma ReadsUnknownType(input: string, vt: string)
    requires ParseInput(input) == Success(map["vehicle_type" := vt])
    requires vt !in BrandsTool.VehicleTypes
    ensures BrandsTool.ReadQuery(input) == Failure(Error(BrandsTool.InvalidTypeMessage(vt)))
  {
  }

  /** Any input decoding to a type and an unreadable limit fails on the limit. */
  lemma ReadsBadLimit(input: string, vt: string, text: string)
    requires ParseInput(input) == Success(map["vehicle_type" := vt, "limit" := text])
    requires ParseInt(text).None?
    ensures BrandsTool.ReadQuery(input) == Failure(Error(BrandsTool.FailureMessage(InvalidIntLiteral(text))))
  {
  }

  /** For the models tool too, an unreadable limit fails before the
      missing brand code is noticed. */
  lemma ModelsReadsBadLimit(input: string, vt: string, text: string)
    requires ParseInput(input) == Success(map["vehicle_type" := vt, "limit" := text])
    requires ParseInt(text).None?
    ensures ModelsTool.ReadQuery(input) == Failure(Error(ModelsTool.FailureMessage(InvalidIntLiteral(text))))
  {
  }

  /** Any input decoding to a type alone lacks the brand code. */
  lemma ReadsTypeOnly(input: string, vt: string)
    requires ParseInput(input) == Success(map["vehicle_type" := vt])
    ensures ModelsTool.ReadQuery(input) == Failure(Error(ModelsTool.MissingMessage))
  {
  }

  /** Any input decoding to non-empty type and brand and a rendered limit
      is accepted as that query. */
  lemma ReadsModelsQuery(input: string, vt: string, brand: string, n: int)
    requires ParseInput(input)
      == Success(map["vehicle_type" := vt, "brand_code" := brand, "limit" := IntToString(n)])
    requires vt != "" && brand != ""
    ensures ModelsTool.ReadQuery(input) == Success(ModelsTool.ModelsQuery(vt, brand, n))
  {
    var params := ParseInput(input).value;
    IntParamReadsRenderedInt(params, "limit", ModelsTool.DefaultLimit, n);
    assert Get(params, "vehicle_type") == Some(vt);
    assert Get(params, "brand_code") == Some(brand);
  }

  /** Once the input is read, the models tool is its query run. */
  lemma ModelsRunsQuery(input: string, q: ModelsTool.ModelsQuery, catalogue: Catalogue)
    requires ModelsTool.ReadQuery(input) == Success(q)
    ensures ModelsTool.GetModelsAndYears(input, catalogue) == ModelsTool.RunQuery(q, catalogue)
  {
  }

  /** `vehicle_type=<vt>;limit=<n>` with a known type and `n >= 0` lists the
      first `n` brands (all of them if there are fewer), after exactly one
      request for that type's brands. */
  lemma LimitListsFirstBrands(vt: string, n: nat, brands: seq<Item>)
    requires vt in BrandsTool.VehicleTypes
    ensures BrandsTool.GetBrands(EncodeParams([("vehicle_type", vt), ("limit", IntToString(n))]),
                                 BrandsCatalogue(brands))
      == ToolRun(Text(BrandsTool.RenderBrands(vt, brands[..Min(n, |brands|)])), [BrandsList(vt)])
  {
    var entries := [("vehicle_type", vt), ("limit", IntToString(n))];
    KeysArePlain();
    NumeralIsPlain(n);
    assert vt == "carros" || vt == "motos" || vt == "caminhoes";
    ParseEncoded(entries);
    DictOfTwo("vehicle_type", vt, "limit", IntToString(n));
    var input := EncodeParams(entries);
    ReadsTypeAndLimit(input, vt, n);
    BrandsRunsQuery(input, BrandsTool.BrandsQuery(vt, n), BrandsCatalogue(brands));
  }

  /** `limit=-<n>` is not refused: the type defaults to `carros` and the
      last `n` brands are dropped, all of them when there are at most `n`. */
  lemma NegativeLimitDropsFromTheEnd(n: nat, brands: seq<Item>)
    requires n > 0
    ensures BrandsTool.GetBrands(EncodeParams([("limit", IntToString(-(n as int)))]), BrandsCatalogue(brands))
      == ToolRun(Text(BrandsTool.RenderBrands("carros", brands[..|brands| - Min(n, |brands|)])),
                 [BrandsList("carros")])
  {
    var limit: int := -(n as int);
    var entries := [("limit", IntToString(limit))];
    KeysArePlain();
    NumeralIsPlain(limit);
    ParseEncoded(entries);
    DictOfOne("limit", IntToString(limit));
    var input := EncodeParams(entries);
    ReadsLimitOnly(input, limit);
    BrandsRunsQuery(input, BrandsTool.BrandsQuery("carros", limit), BrandsCatalogue(brands));
  }

  /** `vehicle_type=<vt>` with a type outside the three codes is refused with
      a message naming it, whatever the catalogue holds, and nothing is
      requested. */
  lemma UnknownTypeRefused(vt: string, catalogue: Catalogue)
    requires PlainWord(vt) && vt !in BrandsTool.VehicleTypes
    ensures BrandsTool.GetBrands(EncodeParams([("vehicle_type", vt)]), catalogue)
      == ToolRun(Error(BrandsTool.InvalidTypeMessage(vt)), [])
  {
    KeysArePlain();
    ParseEncoded([("vehicle_type", vt)]);
    DictOfOne("vehicle_type", vt);
    ReadsUnknownType(EncodeParams([("vehicle_type", vt)]), vt);
  }

  /** An unreadable limit is reported before the vehicle type is looked at:
      whatever the type, known or not, the answer is the `int()` error. */
  lemma LimitReadBeforeType(vt: string, text: string, catalogue: Catalogue)
    requires PlainWord(vt) && PlainWord(text) && ParseInt(text).None?
    ensures BrandsTool.GetBrands(EncodeParams([("vehicle_type", vt), ("limit", text)]), catalogue)
      == ToolRun(Error(BrandsTool.FailureMessage(InvalidIntLiteral(text))), [])
  {
    ParsesTypeAndLimit(vt, text);
    ReadsBadLimit(EncodeParams([("vehicle_type", vt), ("limit", text)]), vt, text);
  }

  /** In the models tool an unreadable limit is reported before the
      missing brand code: `vehicle_type=<vt>;limit=<text>` answers with the
      `int()` error, not the reminder, and requests nothing. */
  lemma LimitReadBeforeMissingBrand(vt: string, text: string, catalogue: Catalogue)
    requires PlainWord(vt) && PlainWord(text) && ParseInt(text).None?
    ensures ModelsTool.GetModelsAndYears(EncodeParams([("vehicle_type", vt), ("limit", text)]), catalogue)
      == ToolRun(Error(ModelsTool.FailureMessage(InvalidIntLiteral(text))), [])
  {
    var input := EncodeParams([("vehicle_type", vt), ("limit", text)]);
    ParsesTypeAndLimit(vt, text);
    ModelsReadsBadLimit(input, vt, text);
    ModelsRefuses(input, Error(ModelsTool.FailureMessage(InvalidIntLiteral(text))), catalogue);
  }

  /** `vehicle_type=<vt>;limit=<text>` decodes to exactly those two values. */
  lemma ParsesTypeAndLimit(vt: string, text: string)
    requires PlainWord(vt) && PlainWord(text)
    ensures ParseInput(EncodeParams([("vehicle_type", vt), ("limit", text)]))
      == Success(map["vehicle_type" := vt, "limit" := text])
  {
    KeysArePlain();
    ParseEncoded([("vehicle_type", vt), ("limit", text)]);
    DictOfTwo("vehicle_type", vt, "limit", text);
  }

  /** An input the models tool refuses is answered with the refusal alone. */
  lemma ModelsRefuses(input: string, out: ToolOutput, catalogue: Catalogue)
    requires ModelsTool.ReadQuery(input) == Failure(out)
    ensures ModelsTool.GetModelsAndYears(input, catalogue) == ToolRun(out, [])
  {
  }

  /** `<k>=<v1>=<v2>` is one kept piece that splits into three parts, so
      `dict()` raises on element #0. */
  lemma ParseTwoEqualsSigns(k: string, v1: string, v2: string)
    requires PlainWord(k) && PlainWord(v1) && PlainWord(v2)
    ensures ParseInput(k + "=" + v1 + "=" + v2) == Failure(DictUpdateLength(0, 3))
  {
    var input := k + "=" + v1 + "=" + v2;
    assert ';' !in input;
    SplitWithoutSeparator(input, ';');
    assert '=' in input by {
      assert input[|k|] == '=';
    }
    var single: seq<string> := [input];
    assert Split(input, ';') == single;
    assert single[1..] == [];
    assert Keep(single) == [input] + Keep(single[1..]);
    assert KeptPieces(input) == [input];
    CountTwo(k, v1, v2);
  }

  lemma CountOne(c: char)
    ensures Count([c], c) == 1
  {
    assert [c][1..] == [];
  }

  /** Three `=`-free words joined by `=` hold two of them. */
  lemma CountTwo(a: string, b: string, c: string)
    requires '=' !in a && '=' !in b && '=' !in c
    ensures Count(a + "=" + b + "=" + c, '=') == 2
  {
    CountOne('=');
    var ab := a + "=" + b;
    CountAppend(ab, "=" + c, '=');
    CountAppend(a + "=", b, '=');
    CountAppend(a, "=", '=');
    CountAppend("=", c, '=');
    assert a + "=" + b + "=" + c == ab + ("=" + c);
  }

  /** A value holding `=` makes both tools answer with the `dict()` error,
      element #0 of length 3, and neither issues a request. */
  lemma TwoEqualsSignsRaise(k: string, v1: string, v2: string, catalogue: Catalogue)
    requires PlainWord(k) && PlainWord(v1) && PlainWord(v2)
    ensures BrandsTool.GetBrands(k + "=" + v1 + "=" + v2, catalogue)
      == ToolRun(Error(BrandsTool.FailureMessage(DictUpdateLength(0, 3))), [])
    ensures ModelsTool.GetModelsAndYears(k + "=" + v1 + "=" + v2, catalogue)
      == ToolRun(Error(ModelsTool.FailureMessage(DictUpdateLength(0, 3))), [])
  {
    ParseTwoEqualsSigns(k, v1, v2);
  }

  /** `vehicle_type=<vt>` alone makes the models tool answer with its
      reminder, and nothing is requested. */
  lemma MissingBrandCode(vt: string, catalogue: Catalogue)
    requires PlainWord(vt)
    ensures ModelsTool.GetModelsAndYears(EncodeParams([("vehicle_type", vt)]), catalogue)
      == ToolRun(Error(ModelsTool.MissingMessage), [])
  {
    KeysArePlain();
    ParseEncoded([("vehicle_type", vt)]);
    DictOfOne("vehicle_type", vt);
    ReadsTypeOnly(EncodeParams([("vehicle_type", vt)]), vt);
  }

  /** `vehicle_type=<vt>;brand_code=<b>;limit=<n>` with non-empty values,
      `n > 0`, a non-empty model list and every years request answered:
      the models request comes first, then one years request for each of
      the first `n` models and for no other, and the answer is their blocks
      joined by newlines. */
  lemma OneYearsRequestPerShownModel(vt: string, brand: string, n: nat, models: seq<Item>,
                                     catalogue: Catalogue)
    requires PlainWord(vt) && PlainWord(brand) && vt != "" && brand != ""
    requires catalogue.models == Got(Some(models))
    requires 0 < n && 0 < |models|
    requires forall i :: 0 <= i < Min(n, |models|) ==> catalogue.years(models[i].code).Got?
    ensures var shown := models[..Min(n, |models|)];
      ModelsTool.GetModelsAndYears(
        EncodeParams([("vehicle_type", vt), ("brand_code", brand), ("limit", IntToString(n))]), catalogue)
      == ToolRun(Text(Join("\n", ModelsTool.ExpectedBlocks(shown, catalogue.years))),
                 [ModelsList(vt, brand)] + ModelsTool.YearsRequests(vt, brand, shown))
  {
    var entries := [("vehicle_type", vt), ("brand_code", brand), ("limit", IntToString(n))];
    KeysArePlain();
    NumeralIsPlain(n);
    ParseEncoded(entries);
    DictOfThree("vehicle_type", vt, "brand_code", brand, "limit", IntToString(n));
    var input := EncodeParams(entries);
    var q := ModelsTool.ModelsQuery(vt, brand, n);
    ReadsModelsQuery(input, vt, brand, n);
    ModelsRunsQuery(input, q, catalogue);
    RunsEveryShownModel(q, models, catalogue);
  }

  /** With every years request answered, a query with a positive limit
      over a non-empty model list fetches the models and then the years of
      the first `limit` models, and shows their blocks. */
  lemma RunsEveryShownModel(q: ModelsTool.ModelsQuery, models: seq<Item>, catalogue: Catalogue)
    requires catalogue.models == Got(Some(models))
    requires 0 < q.limit && 0 < |models|
    requires forall i :: 0 <= i < Min(q.limit, |models|) ==> catalogue.years(models[i].code).Got?
    ensures var shown := models[..Min(q.limit, |models|)];
      ModelsTool.RunQuery(q, catalogue)
      == ToolRun(Text(Join("\n", ModelsTool.ExpectedBlocks(shown, catalogue.years))),
                 [ModelsList(q.vehicleType, q.brand)] + ModelsTool.YearsRequests(q.vehicleType, q.brand, shown))
  {
    var shown := models[..Min(q.limit, |models|)];
    assert ModelsTool.Shown(q, Some(models)) == shown;
    forall i | 0 <= i < |shown| ensures catalogue.years(shown[i].code).Got? {
      assert shown[i] == models[i];
    }
    VisitsEveryModel(q, shown, catalogue.years);
  }

  /** The visit of a non-empty list of models whose years are all
      answered, written out as one run. */
  lemma VisitsEveryModel(q: ModelsTool.ModelsQuery, shown: seq<Item>, years: string -> Fetch<seq<Item>>)
    requires shown != []
    requires forall i :: 0 <= i < |shown| ==> years(shown[i].code).Got?
    ensures ModelsTool.VisitModels(q, shown, years)
      == ToolRun(Text(Join("\n", ModelsTool.ExpectedBlocks(shown, years))),
                 [ModelsList(q.vehicleType, q.brand)] + ModelsTool.YearsRequests(q.vehicleType, q.brand, shown))
  {
    var run := ModelsTool.VisitModels(q, shown, years);
    assert run.fetched == [run.fetched[0]] + run.fetched[1..];
    assert shown[..|run.fetched| - 1] == shown;
  }
}
