# Vehicle-catalogue tools of the FIPE chat assistant

The assistant answers questions about Brazilian vehicle prices. It calls the
public FIPE catalogue (`https://parallelum.com.br/fipe/api/v1/`) through
two tools that a language-model agent invokes with one text argument:

- `get_brands_str` lists the brands of a vehicle type (`carros`, `motos`,
  `caminhoes`) as HTML;
- `get_models_and_years_tool` lists the models of one brand, each with up
  to five of its model years, as HTML blocks.

Both read their argument with `parse_input`. That helper cuts the text at
`;` and hands every piece containing `=` to `dict()`, after cutting the
piece at each `=`.

This project models those three functions in Dafny and proves what they
do. The catalogue is not called: each tool receives a `Catalogue` value
holding the answer every request would get during the call. Each tool
returns its output together with the list of requests it issued.
An output is either `Error(message)`, standing for
`json.dumps({"error": message})`, or `Text(body)`.

Modules, in dependency order:

- `Prelude`: `Option` and `Result`.
- `PyText`: the Python string behaviour the tools rely on. It covers
  `str.split` with a one-character separator, `str.join`, the whitespace
  `int()` skips around a numeral, and
  ASCII `str.upper`.
- `PyInt`: `int()` on text, and `str()` on integers.
- `PySlice`: `s[:stop]`, including negative stops and clamping.
- `PyErrors`: the exceptions the tools turn into error payloads, and
  `str(e)` for each of them.
- `ParamParser`: `parse_input`, `params.get` and the `int(params.get(...))`
  reads.
- `Fipe`: items, requests with their URLs, the catalogue's answers, and
  tool outputs.
- `BrandsTool`: `get_brands_str`.
- `ModelsTool`: `get_models_and_years_tool`.
- `Scenarios`: tool calls worked out end to end, for every input of a
  given shape (`vehicle_type=<vt>;limit=<n>` and the like).

Each tool is split in two:

- `ReadQuery` turns the input text into a validated query, or into the
  error the tool returns. It never contacts the catalogue.
- `RunQuery` issues the requests and renders the answer.

Where the behaviour of the code differs from what its documentation
suggests, the model follows the code:

- `pair.split("=")` cuts at every `=`, not only the first. A value that
  itself contains `=` (for example `vehicle_type=carros=motos`) makes
  `dict()` raise. The tool then answers with its generic error instead of
  reading the value.
- `int(limit)` runs before the vehicle type is checked. In the models tool
  it also runs before the missing-parameter check. An unreadable limit
  therefore hides those messages.
- The models tool does not check the vehicle type against the three known
  codes. Any non-empty value is sent to the catalogue.
- `limit` is not clamped. A negative limit keeps all but the last `-limit`
  entries, as Python slicing does, and `limit=0` lists nothing.

## Model

| member | source | states |
|---|---|---|
| PyText.Split | bot.py:27-28 | `str.split` with one separator character gives one more piece than the text holds separators, and no piece contains the separator |
| PyText.JoinSplit | bot.py:27 | joining the pieces of `split(sep)` with `sep` gives back the original text, so splitting loses nothing |
| PyText.SplitJoin | bot.py:27 | splitting a join of separator-free pieces gives back exactly those pieces, so `split` keeps empty pieces and their order |
| PyText.CountAppend | bot.py:27-28 | occurrences of a character in a concatenation add up; this is what fixes how many parts a piece splits into |
| PyInt.ParseIntRoundTrip | bot.py:41 | `int(str(i)) == i` for every integer `i`, negative ones included |
| PyInt.ParseIntAccepts | bot.py:41 | `int()` (`ParseInt`) reads a text exactly when, once the whitespace `int()` skips is stripped from both ends (tab to carriage return, space, and the non-ASCII spaces, but not the separators `\x1c` to `\x1f`), it is an optional `+` or `-` followed by one or more decimal digits; the value is that of the digits, negated after `-`. Every other text raises |
| PyInt.SeparatorIsNotSkipped | bot.py:41 | a text starting with one of the ASCII separators `\x1c` to `\x1f` is refused by `int()`, whatever follows, although `str.isspace()` holds for those characters |
| PySlice.SliceTo | bot.py:51 | `s[:stop]` is a prefix of `s`; its length is `min(stop, len(s))` for a non-negative stop; for a negative stop it drops `min(-stop, len(s))` entries from the end |
| ParamParser.Keep | bot.py:28 | the `if "=" in pair` filter keeps only pieces containing `=`, keeps every such piece, and keeps no more entries than there are pieces |
| ParamParser.KeepAppend | bot.py:28 | filtering a concatenation filters each part and concatenates the results, so the kept pieces stay in their original order |
| ParamParser.KeepIdempotent | bot.py:28 | filtering twice keeps the same pieces as filtering once |
| ParamParser.BuildDict | bot.py:28 | `dict()` over the split pieces succeeds exactly when every piece has two parts; otherwise it raises on the first bad element, naming its index and its number of parts |
| ParamParser.BuildDictKeys | bot.py:28 | the keys of the built dictionary are exactly the first parts of the pairs |
| ParamParser.BuildDictLastWins | bot.py:28 | a key's value comes from the last pair carrying that key |
| ParamParser.ParseInput | bot.py:25-28 | `parse_input` raises exactly when some kept piece holds two or more `=`. The error names the first such piece's index among the kept pieces and its part count (one more than its `=` count); all earlier kept pieces hold exactly one `=` |
| ParamParser.ParseInputKeys | bot.py:25-28 | the keys of a successful parse are exactly the texts before `=` in the kept pieces |
| ParamParser.LastOccurrenceWins | bot.py:27-28 | a kept piece that no later piece overrides is exactly `key=value` for its key and the parsed value |
| ParamParser.IgnoresPiecesWithoutEquals | bot.py:27-28 | removing the pieces without `=` from an input leaves its parse unchanged |
| ParamParser.ParseEncoded | bot.py:25-28 | writing entries free of `;` and `=` as `k=v;k=v;...` and parsing the text gives the dictionary of those entries, later entries overriding earlier ones |
| ParamParser.IntParam | bot.py:41 | `int(params.get(key, default))`: an absent key gives the default; a present value is read by `int()`, and a value `int()` refuses raises the invalid-literal error carrying that value |
| ParamParser.IntParamReadsRenderedInt | bot.py:41 | a parameter whose value is `str(n)` is read as `n` |
| Fipe.UrlReadsBack | bot.py:77-90 | every URL text the tools build is the FIPE base URL followed by the request's path; when no code holds `/`, the path splits back into exactly the request's segments (type, `marcas`, brand, `modelos`, model, `anos`) |
| Fipe.UrlsDistinct | bot.py:77-90 | for two different requests whose codes hold no `/`, the tools build different URL texts |
| BrandsTool.ReadQuery | bot.py:38-44 | a parse failure becomes the generic error. Absent keys default to `carros` and 20. A present limit is the value `int()` reads; an unreadable one becomes the generic `int()` error. A successful query always names one of the three known types |
| BrandsTool.TypeChecked | bot.py:40-44 | once the limit is read, a type outside `carros`/`motos`/`caminhoes` is refused with a message naming it, and a known type is accepted as given |
| BrandsTool.ReadListItems | bot.py:50-53 | the rendered list of brands can be read back to exactly the brands listed, so each brand appears once, in order, with its name and code |
| BrandsTool.RunQuery | bot.py:46-58 | exactly one request is issued, for the brand list of the query's type. A failed request gives the error message with `str(e)` of the failure. An answered one gives the header for the type, the `<ul>` list of `data[:limit]` and the instruction; that list reads back to exactly the slice when no field holds `<` |
| BrandsTool.GetBrands | bot.py:38-58 | at most one request is issued. It is issued exactly when the input is valid, and it is the brand list of the validated type. The output is the HTML list of `brands[:limit]` exactly when the input is valid and the request succeeds; otherwise it is an error |
| BrandsTool.ExtraEqualsCaught | bot.py:38-39 | an input with a kept piece holding two `=` issues no request and answers with the `dict()` error, whose `str(e)` text `PyErrors.Describe` gives |
| BrandsTool.ListsExactlyTheSlice | bot.py:49-56 | on success the body is header, list of `brands[:limit]`, and instruction, and the list reads back to exactly that slice |
| ModelsTool.ReadQuery | bot.py:68-75 | the query is accepted exactly when the input parses, the limit is readable, and both `vehicle_type` and `brand_code` are present and non-empty. Its fields are those values, and its limit is 5 or the value read. A limit `int()` cannot read gives the `int()` error payload, whether or not the values are present; with parse and limit fine, a missing value gives the reminder message |
| ModelsTool.PlaceholderIffNoYears | bot.py:93-99 | the "no year data" placeholder is shown exactly when the model has no years |
| ModelsTool.NoModelsIffEmptySlice | bot.py:79-82 | once the models are fetched, the tool stops after that one request exactly when `modelos[:limit]` is empty (no models, a zero limit, or a negative limit reaching past the first model), and then answers with the "no model" text |
| ModelsTool.FetchYears | bot.py:86-103 | the loop issues at most one request per model. Without a failure it has visited every model and kept years for each; after a failure it has kept years for every model but the last one it requested. No model keeps more than five years |
| ModelsTool.FetchYearsRequests | bot.py:86-91 | the loop requests the years of the shown models in order, one request per model, and of no model out of order: its requests are those of a prefix of the shown models |
| ModelsTool.FetchYearsComplete | bot.py:86-103 | the loop ends without an exception exactly when every years request is answered; it has then requested every shown model and kept, for each, the first five years of its answer |
| ModelsTool.FetchYearsStops | bot.py:86-91 | when a years request raises, the loop stops there: the last request issued is the one that raised, and every earlier one was answered |
| ModelsTool.VisitModels | bot.py:84-108 | with at least one shown model, the requests are the models list and then the years of a prefix of the shown models. If every years request is answered, all shown models are visited and the output is the reference blocks joined by newlines. If one raises, the loop stops at the first that raises: every earlier years request was answered, the last request issued is the one that raised, and the output is the error message carrying its `str(e)` |
| ModelsTool.RunQuery | bot.py:77-108 | the models request comes first. If it fails, nothing else is requested and the output is the error message. No shown models gives the "no model" text. If every year request succeeds, there is one year request per shown model and the output is the blocks joined by newlines. If a year request fails, the requests stop at the first failing one, all earlier ones were answered, and the output is the error message carrying that failure's `str(e)` |
| ModelsTool.GetModelsAndYears | bot.py:68-108 | requests are issued exactly when the input is valid, and an invalid input answers with the `ReadQuery` error. The first request is the models list of the given type and brand, and every later one is a year list |
| ModelsTool.ExtraEqualsCaught | bot.py:68-69 | an input with a kept piece holding two `=` issues no request and answers with the `dict()` error |
| ModelsTool.AnyTypeIsFetched | bot.py:70-78 | any non-empty vehicle type, a known code or not, is sent to the catalogue together with the brand code as given |
| Scenarios.LimitListsFirstBrands | bot.py:38-56 | `vehicle_type=<vt>;limit=<n>` with a known type and `n >= 0` lists exactly the first `n` brands (all of them if there are fewer) and issues one request, for that type's brands |
| Scenarios.NegativeLimitDropsFromTheEnd | bot.py:40-51 | `limit=-<n>` is accepted: the type defaults to `carros` and the last `n` brands are dropped, or all of them when there are at most `n` |
| Scenarios.UnknownTypeRefused | bot.py:40-44 | `vehicle_type=<vt>` with a type outside the three codes is refused with the message naming it, whatever the catalogue holds, and nothing is requested |
| Scenarios.LimitReadBeforeType | bot.py:40-44 | a limit `int()` cannot read gives the `int()` error whatever the vehicle type, known or not, and nothing is requested |
| Scenarios.LimitReadBeforeMissingBrand | bot.py:69-75 | in the models tool, `vehicle_type=<vt>;limit=<text>` with a limit `int()` cannot read gives the `int()` error, not the reminder about the missing brand code, and nothing is requested |
| Scenarios.ParseTwoEqualsSigns | bot.py:27-28 | `<k>=<v1>=<v2>` is one kept piece that splits into three parts, so `dict()` raises on element #0 with length 3 |
| Scenarios.TwoEqualsSignsRaise | bot.py:25-58 | for `<k>=<v1>=<v2>` both tools answer with the `dict()` error and request nothing |
| Scenarios.MissingBrandCode | bot.py:69-75 | `vehicle_type=<vt>` alone makes the models tool answer with its reminder to give both parameters, and nothing is requested |
| Scenarios.RunsEveryShownModel | bot.py:77-105 | over a non-empty model list, with a positive limit and the years of each of the first `limit` models answered, the models request is followed by exactly one years request for each of the first `limit` models, and the output is their blocks joined by newlines |
| Scenarios.OneYearsRequestPerShownModel | bot.py:68-105 | the same for the full input `vehicle_type=<vt>;brand_code=<b>;limit=<n>` with non-empty type and brand |

## Left out

- The agent (`build_agent`, the prompt and the conversation memory in `bot.py`) and the Streamlit interface in `app.py` are outside this model; they only pass text to and from the tools.
- `get_replicate_api_token`, the SQLite log table and `load_dotenv` are configuration and I/O, so they are not modelled.
- HTTP and JSON decoding are not modelled. Each request's outcome is an input. A network error, a timeout, a body that is not JSON, a missing `nome`/`codigo` field or a non-list body all appear as one `Failed(reason)`, whose reason stands for `str(e)`.
- `json.dumps` escaping is not modelled: `Error(message)` stands for the JSON object whose `error` field is `message`.
- `time.sleep(0.1)` between year requests has no observable effect on the output, so it is not modelled.
- PyInt.ParseIntAccepts: does not accept underscores between digits or non-ASCII decimal digits, both of which Python's `int()` accepts. It also reads numerals of any length, while Python 3.11 and later refuse texts of more than 4300 digits.
- PyInt.ParseIntRoundTrip: holds for integers of any size, while Python 3.11 and later refuse `str()` of an integer with more than 4300 digits.
- PyText.Upper: maps only ASCII letters; Python's `str.upper` also maps other letters, for example `ß` to `SS`.
- PyErrors.Describe: the invalid-literal message quotes the whole text with plain single quotes. Python uses `repr`, which escapes quotes, backslashes and control characters, and it cuts the quoted text at 200 characters, leaving a longer text without its closing quote.
- Fipe.UrlsDistinct: is about the URL text the tools build. The HTTP client then normalises that text: it drops a `#` fragment and percent-encodes spaces, so two different codes such as `1#a` and `1#b` can reach the same HTTP request. That normalisation is not modelled.
- A missing `nome` or `codigo` in an entry the tool reads is folded into the failure of the request that returned it. Two consequences follow. The program reads these fields only for the entries inside `data[:limit]` and `[:5]`, so a malformed entry past the slice never raises in the program; the model has no way to express such an entry. And a model entry at position k without `nome` or `codigo` raises in the program after k years requests, while in the model only the models request is issued (the models fetch fails as a whole).
- The brand and model codes are carried as text. The catalogue returns them as strings or numbers, and the tools only interpolate them.
