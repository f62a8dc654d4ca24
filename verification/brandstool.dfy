/** `get_brands_str`: validate the parameters, fetch the brand list once,
    and render its first `limit` entries as an HTML list. */
module BrandsTool {
  import opened Prelude
  import opened PyText
  import opened PyInt
  import opened PySlice
  import opened PyErrors
  import opened ParamParser
  import opened Fipe

  /** The three FIPE vehicle-type codes the tool accepts. */
  const VehicleTypes: seq<string> := ["carros", "motos", "caminhoes"]
  const DefaultVehicleType := "carros"
  const DefaultLimit := 20

  /** A validated query: a known vehicle type and an integer limit. */
  datatype BrandsQuery = BrandsQuery(vehicleType: string, limit: int)

  function InvalidTypeMessage(vt: string): string {
    "Tipe kendaraan '" + vt + "' tidak valid. Pilih antara 'carros', 'motos', atau 'caminhoes'."
  }

  /** The message for every exception the tool catches. */
  function FailureMessage(e: Exception): string {
    "Kesalahan saat mengambil merek: " + Describe(e)
  }

  /** The validating half of the tool, which never touches the network:
      parse, apply the defaults, convert `limit` with `int()`, and only
      then check the vehicle type. */
  function ReadQuery(input: string): (r: Result<BrandsQuery, ToolOutput>)
    ensures r.Success? ==> r.value.vehicleType in VehicleTypes
    ensures r.Failure? ==> r.error.Error?
    ensures ParseInput(input).Failure? ==>
      r == Failure(Error(FailureMessage(ParseInput(input).error)))
    ensures ParseInput(input).Success? ==>
      var params := ParseInput(input).value;
      && ("vehicle_type" !in params && r.Success? ==> r.value.vehicleType == DefaultVehicleType)
      && ("limit" !in params && r.Success? ==> r.value.limit == DefaultLimit)
      && ("limit" in params && r.Success? ==> ParseInt(params["limit"]) == Some(r.value.limit))
      && ("limit" in params && ParseInt(params["limit"]).None? ==>
            r == Failure(Error(FailureMessage(InvalidIntLiteral(params["limit"])))))
  {
    match ParseInput(input)
    case Failure(e) => Failure(Error(FailureMessage(e)))
    case Success(params) =>
      var vt := Get(params, "vehicle_type").GetOr(DefaultVehicleType);
      match IntParam(params, "limit", DefaultLimit)
      case Failure(e) => Failure(Error(FailureMessage(e)))
      case Success(limit) =>
        if vt !in VehicleTypes then Failure(Error(InvalidTypeMessage(vt)))
        else Success(BrandsQuery(vt, limit))
  }

  /** With a readable limit, a vehicle type outside the three codes
      (including the empty value of `vehicle_type=`) is rejected with a
      message naming it; a type inside them is accepted as given. */
  lemma TypeChecked(input: string)
    requires ParseInput(input).Success?
    requires IntParam(ParseInput(input).value, "limit", DefaultLimit).Success?
    ensures var vt := Get(ParseInput(input).value, "vehicle_type").GetOr(DefaultVehicleType);
      && (vt !in VehicleTypes ==> ReadQuery(input) == Failure(Error(InvalidTypeMessage(vt))))
      && (vt in VehicleTypes ==> ReadQuery(input).Success? && ReadQuery(input).value.vehicleType == vt)
  {
  }

  /** Markup around one brand. */
  const ItemOpen := "<li><b>"
  const ItemMiddle := "</b> (Kode: <code>"
  const ItemClose := "</code>)</li>"
  const Instruction := "<i>Silakan pilih kode merek yang Anda minati.</i>"

  function Header(vt: string): string {
    "<h3>\U{1F697} Merek untuk Tipe Kendaraan: " + Upper(vt) + "</h3>"
  }

  function ListItem(item: Item): string {
    ItemOpen + item.name + ItemMiddle + item.code + ItemClose
  }

  /** One `<li>` per item, in order. */
  function ListItems(items: seq<Item>): string
    decreases |items|
  {
    if |items| == 0 then "" else ListItem(items[0]) + ListItems(items[1..])
  }

  /** The whole success output for the brands `shown`. */
  function RenderBrands(vt: string, shown: seq<Item>): string {
    Header(vt) + "<ul>" + ListItems(shown) + "</ul>" + Instruction
  }

  /** Reads a run of `<li>` entries back into the items they show. */
  function ReadItems(s: string): Option<seq<Item>>
    decreases |s|
  {
    if |s| == 0 then Some([])
    else if !(ItemOpen <= s) then None
    else
      var afterOpen := s[|ItemOpen|..];
      var name := TakeUntil(afterOpen, '<');
      var afterName := afterOpen[|name|..];
      if !(ItemMiddle <= afterName) then None
      else
        var afterMiddle := afterName[|ItemMiddle|..];
        var code := TakeUntil(afterMiddle, '<');
        var afterCode := afterMiddle[|code|..];
        if !(ItemClose <= afterCode) then None
        else
          match ReadItems(afterCode[|ItemClose|..])
          case None => None
          case Some(rest) => Some([Item(name, code)] + rest)
  }

  /** No field of any item contains `<`. */
  predicate PlainFields(items: seq<Item>) {
    forall i :: 0 <= i < |items| ==> '<' !in items[i].name && '<' !in items[i].code
  }

  /** Reading one rendered entry consumes exactly that entry. */
  lemma ReadOneItem(item: Item, rest: string)
    requires '<' !in item.name && '<' !in item.code
    ensures ReadItems(ListItem(item) + rest) ==
      match ReadItems(rest)
      case None => None
      case Some(tail) => Some([item] + tail)
  {
    var s := ListItem(item) + rest;
    var afterOpen := item.name + (ItemMiddle + (item.code + (ItemClose + rest)));
    assert s == ItemOpen + afterOpen;
    assert ItemOpen <= s && s[|ItemOpen|..] == afterOpen;
    TakeUntilStops(item.name, ItemMiddle + (item.code + (ItemClose + rest)), '<');
    var afterName := ItemMiddle + (item.code + (ItemClose + rest));
    assert afterOpen[|item.name|..] == afterName;
    var afterMiddle := item.code + (ItemClose + rest);
    assert ItemMiddle <= afterName && afterName[|ItemMiddle|..] == afterMiddle;
    TakeUntilStops(item.code, ItemClose + rest, '<');
    var afterCode := ItemClose + rest;
    assert afterMiddle[|item.code|..] == afterCode;
    assert ItemClose <= afterCode && afterCode[|ItemClose|..] == rest;
  }

  /** Dropping the first item keeps the fields plain. */
  lemma PlainFieldsTail(items: seq<Item>)
    requires PlainFields(items) && |items| > 0
    ensures PlainFields(items[1..])
  {
    forall i | 0 <= i < |items[1..]| ensures '<' !in items[1..][i].name && '<' !in items[1..][i].code {
      assert items[1..][i] == items[i + 1];
    }
  }

  /** Reading a list whose tail reads back reads back the whole list. */
  lemma ReadListStep(first: Item, tail: seq<Item>)
    requires '<' !in first.name && '<' !in first.code
    requires ReadItems(ListItems(tail)) == Some(tail)
    ensures ReadItems(ListItems([first] + tail)) == Some([first] + tail)
  {
    var rest := ListItems(tail);
    ReadOneItem(first, rest);
    assert ([first] + tail)[1..] == tail;
    assert ListItems([first] + tail) == ListItem(first) + rest;
  }

  /** The rendered list shows exactly the given items, in order. */
  lemma {:induction false} ReadListItems(items: seq<Item>)
    requires PlainFields(items)
    ensures ReadItems(ListItems(items)) == Some(items)
    decreases |items|
  {
    if |items| > 0 {
      PlainFieldsTail(items);
      ReadListItems(items[1..]);
      ReadListStep(items[0], items[1..]);
      assert [items[0]] + items[1..] == items;
    }
  }

  /** A prefix of a list with plain fields reads back from its rendering. */
  lemma SliceReadsBack(data: seq<Item>, stop: int)
    ensures PlainFields(data) ==> ReadItems(ListItems(SliceTo(data, stop))) == Some(SliceTo(data, stop))
  {
    if PlainFields(data) {
      var shown := SliceTo(data, stop);
      forall i | 0 <= i < |shown| ensures '<' !in shown[i].name && '<' !in shown[i].code {
        assert shown[i] == data[i];
      }
      ReadListItems(shown);
    }
  }

  /** The fetching half: one request for the brand list, then the render. */
  function RunQuery(q: BrandsQuery, catalogue: Catalogue): (run: ToolRun)
    ensures run.fetched == [BrandsList(q.vehicleType)]
    ensures run.output.Text? <==> catalogue.brands.Got?
    ensures catalogue.brands.Failed? ==>
      run.output == Error(FailureMessage(LookupFailed(catalogue.brands.reason)))
    ensures catalogue.brands.Got? ==>
      var shown := SliceTo(catalogue.brands.body, q.limit);
      && run.output == Text(Header(q.vehicleType) + "<ul>" + ListItems(shown) + "</ul>" + Instruction)
      && (PlainFields(catalogue.brands.body) ==> ReadItems(ListItems(shown)) == Some(shown))
  {
    match catalogue.brands
    case Failed(reason) =>
      ToolRun(Error(FailureMessage(LookupFailed(reason))), [BrandsList(q.vehicleType)])
    case Got(data) =>
      SliceReadsBack(data, q.limit);
      ToolRun(Text(RenderBrands(q.vehicleType, SliceTo(data, q.limit))), [BrandsList(q.vehicleType)])
  }

  /** `get_brands_str(input)`. */
  function GetBrands(input: string, catalogue: Catalogue): (run: ToolRun)
    ensures |run.fetched| <= 1
    ensures ReadQuery(input).Failure? <==> run.fetched == []
    ensures ReadQuery(input).Failure? ==> run.output == ReadQuery(input).error
    ensures run.fetched != [] ==>
      run.fetched == [BrandsList(ReadQuery(input).value.vehicleType)]
      && run.fetched[0].vehicleType in VehicleTypes
    ensures run.output.Text? <==> ReadQuery(input).Success? && catalogue.brands.Got?
    ensures run.output.Text? ==>
      var q := ReadQuery(input).value;
      run.output.body == RenderBrands(q.vehicleType, SliceTo(catalogue.brands.body, q.limit))
  {
    match ReadQuery(input)
    case Failure(out) => ToolRun(out, [])
    case Success(q) => RunQuery(q, catalogue)
  }

  /** A kept piece with two or more `=` never reaches the network: the
      tool answers with its error payload for the `dict()` failure. */
  lemma ExtraEqualsCaught(input: string, catalogue: Catalogue, i: int)
    requires 0 <= i < |KeptPieces(input)| && Count(KeptPieces(input)[i], '=') >= 2
    ensures ParseInput(input).Failure?
    ensures GetBrands(input, catalogue) ==
      ToolRun(Error(FailureMessage(ParseInput(input).error)), [])
  {
  }

  /** On success the list between `<ul>` and `</ul>` holds exactly
      `data[:limit]`, in the catalogue's order. */
  lemma ListsExactlyTheSlice(input: string, catalogue: Catalogue)
    requires ReadQuery(input).Success? && catalogue.brands.Got?
    requires PlainFields(catalogue.brands.body)
    ensures var q := ReadQuery(input).value;
      var shown := SliceTo(catalogue.brands.body, q.limit);
      && GetBrands(input, catalogue).output
           == Text(Header(q.vehicleType) + "<ul>" + ListItems(shown) + "</ul>" + Instruction)
      && ReadItems(ListItems(shown)) == Some(shown)
  {
    var shown := SliceTo(catalogue.brands.body, ReadQuery(input).value.limit);
    assert PlainFields(shown) by {
      forall i | 0 <= i < |shown| ensures '<' !in shown[i].name && '<' !in shown[i].code {
        assert shown[i] == catalogue.brands.body[i];
      }
    }
    ReadListItems(shown);
  }
}
