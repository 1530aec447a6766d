/**
 * The pure part of the request layer: the query parameters sent to the places
 * catalog, the weather provider URLs, and the start-up check for the weather
 * API key. The HTTP calls themselves are not modelled.
 */
module Api {
  import opened Wrappers

  const PlacesCatalogUrl :=
    "https://public.opendatasoft.com/api/explore/v2.1/catalog/datasets/geonames-all-cities-with-a-population-1000/records"
  const WeatherApiUrl := "https://api.openweathermap.org/data/2.5"
  const MissingKeyMessage := "Missing OpenWeather API key in environment variables."

  /** Defaults of `fetchCities(query = "", limit = 20, offset = 0)`. */
  const DefaultQuery := ""
  const DefaultLimit := 20
  const DefaultOffset := 0

  /** The `params` object of a catalog request; a `None` parameter is not sent. */
  datatype CatalogParams = CatalogParams(
    where: Option<string>,
    limit: int,
    offset: Option<int>,
    orderBy: Option<string>)

  /** `fetchIndianCities`: the hundred most populous Indian places, largest first. */
  function IndianCitiesParams(): (p: CatalogParams)
    ensures p.where == Some("country_code='IN'")
    ensures p.limit == 100 && p.offset.None?
    ensures p.orderBy == Some("population DESC")
  {
    CatalogParams(Some("country_code='IN'"), 100, None, Some("population DESC"))
  }

  /** The arguments of a `fetchCities` call; `None` is an omitted argument. */
  datatype CitiesArgs = CitiesArgs(query: Option<string>, limit: Option<int>, offset: Option<int>)

  const SearchPrefix := "search(name, \""
  const SearchSuffix := "\")"

  /** The `where` expression for a non-empty query; the query is not escaped. */
  function SearchWhere(query: string): (w: string)
    ensures |w| == |SearchPrefix| + |query| + |SearchSuffix|
    ensures w[..|SearchPrefix|] == SearchPrefix && w[|w| - |SearchSuffix|..] == SearchSuffix
    ensures w[|SearchPrefix|..|w| - |SearchSuffix|] == query
  {
    SearchPrefix + query + SearchSuffix
  }

  /** Reads the query back out of a `search(name, "...")` expression. */
  function SearchTerm(where: string): Option<string>
  {
    if |SearchPrefix| + |SearchSuffix| <= |where|
       && where[..|SearchPrefix|] == SearchPrefix
       && where[|where| - |SearchSuffix|..] == SearchSuffix
    then Some(where[|SearchPrefix|..|where| - |SearchSuffix|])
    else None
  }

  /** Every query, quotes included, is recovered verbatim from its `where` expression. */
  lemma SearchTermRoundTrip(query: string)
    ensures SearchTerm(SearchWhere(query)) == Some(query)
  {
    var w := SearchWhere(query);
    assert w[..|SearchPrefix|] == SearchPrefix;
    assert w[|w| - |SearchSuffix|..] == SearchSuffix;
    assert w[|SearchPrefix|..|w| - |SearchSuffix|] == query;
  }

  /**
   * The `params` of `fetchCities`: omitted arguments take their defaults,
   * `limit` and `offset` are passed through, and `where` is sent only for a
   * non-empty query, holding that query verbatim.
   */
  function CitiesParams(args: CitiesArgs): (p: CatalogParams)
    ensures p.limit == OrDefault(args.limit, DefaultLimit)
    ensures p.offset == Some(OrDefault(args.offset, DefaultOffset))
    ensures p.orderBy.None?
    ensures p.where.None? <==> OrDefault(args.query, DefaultQuery) == ""
    ensures p.where.Some? ==>
              p.where.value == SearchPrefix + OrDefault(args.query, DefaultQuery) + SearchSuffix &&
              SearchTerm(p.where.value) == Some(OrDefault(args.query, DefaultQuery)) &&
              |p.where.value| == |SearchPrefix| + |OrDefault(args.query, DefaultQuery)| + |SearchSuffix|
  {
    var query := OrDefault(args.query, DefaultQuery);
    SearchTermRoundTrip(query);
    CatalogParams(
      if query != "" then Some(SearchWhere(query)) else None,
      OrDefault(args.limit, DefaultLimit),
      Some(OrDefault(args.offset, DefaultOffset)),
      None)
  }

  /** A key that passed the start-up check: never empty. */
  type ApiKey = k: string | k != "" witness "k"

  /**
   * The weather API key, read once when the module is loaded. The module
   * throws before exporting anything when the key is missing, so every
   * request is built with a non-empty key.
   */
  datatype ApiConfig = ApiConfig(apiKey: ApiKey)

  /**
   * Module initialisation: a missing or empty key is an error before any
   * request is made; otherwise the key is kept as given.
   */
  function LoadApiConfig(envKey: Option<string>): (r: Result<ApiConfig, string>)
    ensures r.Success? <==> envKey.Some? && envKey.value != ""
    ensures r.Success? ==> r.value.apiKey == envKey.value
    ensures r.Failure? ==> r.error == MissingKeyMessage
  {
    if envKey.None? || envKey.value == "" then Failure(MissingKeyMessage)
    else Success(ApiConfig(envKey.value))
  }

  /** `k1=v1&k2=v2...` with keys and values inserted as they are (no URL encoding). */
  function JoinParams(params: seq<(string, string)>): string
  {
    if params == [] then ""
    else if |params| == 1 then params[0].0 + "=" + params[0].1
    else params[0].0 + "=" + params[0].1 + "&" + JoinParams(params[1..])
  }

  function WithQuery(path: string, params: seq<(string, string)>): string
  {
    path + "?" + JoinParams(params)
  }

  /** `fetchWeatherByCity`: current conditions by city name, in metric units. */
  function WeatherUrl(config: ApiConfig, cityName: string): (url: string)
    ensures url == WeatherApiUrl + "/weather?q=" + cityName + "&appid=" + config.apiKey + "&units=metric"
  {
    var params := [("q", cityName), ("appid", config.apiKey), ("units", "metric")];
    var key := config.apiKey;
    assert JoinParams(params[2..]) == "units=metric";
    assert JoinParams(params[1..]) == "appid" + "=" + key + "&" + "units=metric";
    assert JoinParams(params) == "q" + "=" + cityName + "&" + ("appid" + "=" + key + "&" + "units=metric");
    WithQuery(WeatherApiUrl + "/weather", params)
  }

  /** `fetchWeatherForecast`: the 3-hourly forecast, at most 40 entries. */
  function ForecastUrl(config: ApiConfig, cityName: string): (url: string)
    ensures url == WeatherApiUrl + "/forecast?q=" + cityName + "&appid=" + config.apiKey
                   + "&units=metric&cnt=40"
  {
    var params := [("q", cityName), ("appid", config.apiKey), ("units", "metric"), ("cnt", "40")];
    assert JoinParams(params[3..]) == "cnt=40";
    assert JoinParams(params[2..]) == "units=metric&cnt=40";
    var key := config.apiKey;
    assert JoinParams(params[1..]) == "appid" + "=" + key + "&" + "units=metric&cnt=40";
    assert JoinParams(params) == "q" + "=" + cityName + "&" + ("appid" + "=" + key + "&" + "units=metric&cnt=40");
    WithQuery(WeatherApiUrl + "/forecast", params)
  }
}
