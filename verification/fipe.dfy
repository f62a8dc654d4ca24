/** The vehicle-price catalogue the tools call, supplied as data: the
    answer each request would get during one tool call, and the record of
    which requests a tool issued. */
module Fipe {
  import opened Prelude
  import opened PyText

  /** A `{nome, codigo}` record of the catalogue: a brand, a model or a year. */
  datatype Item = Item(name: string, code: string)

  /** `requests.get(url, timeout=10).json()` together with the reads of
      `nome` and `codigo`: the decoded body, or the reason one of them raised. */
  datatype Fetch<+T> = Got(body: T) | Failed(reason: string)

  /** One GET issued by a tool. */
  datatype Request =
    | BrandsList(vehicleType: string)
    | ModelsList(vehicleType: string, brand: string)
    | YearsList(vehicleType: string, brand: string, model: string)

  const BaseUrl := "https://parallelum.com.br/fipe/api/v1/"

  /** The path segments that name a request below the base URL. */
  function Segments(r: Request): (path: seq<string>)
    ensures 0 < |path|
  {
    match r
    case BrandsList(vt) => [vt, "marcas"]
    case ModelsList(vt, brand) => [vt, "marcas", brand, "modelos"]
    case YearsList(vt, brand, model) => [vt, "marcas", brand, "modelos", model, "anos"]
  }

  /** The codes a request interpolates into its URL. */
  predicate PlainCodes(r: Request) {
    match r
    case BrandsList(vt) => '/' !in vt
    case ModelsList(vt, brand) => '/' !in vt && '/' !in brand
    case YearsList(vt, brand, model) => '/' !in vt && '/' !in brand && '/' !in model
  }

  /** The URL text the tools build for a request: the base URL, then its
      segments separated by `/`. */
  function Url(r: Request): string {
    BaseUrl + Join("/", Segments(r))
  }

  /** When no code holds `/`, the path of a request's URL splits back into
      its segments. */
  lemma UrlReadsBack(r: Request)
    requires PlainCodes(r)
    ensures Url(r)[..|BaseUrl|] == BaseUrl
    ensures Split(Url(r)[|BaseUrl|..], '/') == Segments(r)
  {
    var path := Segments(r);
    assert forall i :: 0 <= i < |path| ==> '/' !in path[i];
    assert Url(r)[|BaseUrl|..] == Join("/", path);
    SplitJoin(path, '/');
  }

  /** Two requests with `/`-free codes never share a URL text. */
  lemma UrlsDistinct(r1: Request, r2: Request)
    requires PlainCodes(r1) && PlainCodes(r2)
    requires Url(r1) == Url(r2)
    ensures r1 == r2
  {
    UrlReadsBack(r1);
    UrlReadsBack(r2);
    assert Segments(r1) == Segments(r2);
  }

  /** The catalogue's answers during one tool call: the brand list, the
      models object (`None` when it has no `modelos` field, which the tool
      reads as an empty list), and the year list for each model code. */
  datatype Catalogue = Catalogue(
    brands: Fetch<seq<Item>>,
    models: Fetch<Option<seq<Item>>>,
    years: string -> Fetch<seq<Item>>)

  /** What a tool returns: `json.dumps({"error": message})`, or text. */
  datatype ToolOutput = Error(message: string) | Text(body: string)

  /** A tool's output and the requests it issued, in the order issued. */
  datatype ToolRun = ToolRun(output: ToolOutput, fetched: seq<Request>)
}
