/** The records the rates service returns: the latest rates against a
    base currency, and the result of a remote conversion. They carry no
    behaviour. */
module ExchangeRatesModel {

  datatype IExchangeRates = IExchangeRates(base: string, rates: map<string, real>, date: string)

  datatype IExchangeRateResult = IExchangeRateResult(from: string, to: string, amount: real, result: real)
}

/** The view model behind the rates screen: the last rate table received
    and the last error message shown. */
module ExchangeRatesViewModel {
  import opened Wrappers
  import opened ExchangeRatesModel
  import HTTPRequests

  /** The endpoint and query the view model asks for the latest rates with. */
  const LatestEndpoint := "latest"
  const LatestQuery: map<string, string> := map["base" := "USD"]

  /** The latest-rates query has the single key "base", so its query list
      is the access key followed by base=USD. */
  lemma LatestQueryItems(config: HTTPRequests.APIConfig)
    ensures HTTPRequests.IsIterationOrder(["base"], LatestQuery)
    ensures HTTPRequests.QueryItems(config, Some(LatestQuery), ["base"])
         == [HTTPRequests.URLQueryItem("access_key", config.apiKey), HTTPRequests.URLQueryItem("base", "USD")]
  {
  }

  /** The request for the latest rates, sent through `get`: a GET to the
      `latest` endpoint whose query is the access key and then base=USD.
      The target is the base URL and the endpoint joined with no separator. */
  method LatestRatesRequest(config: HTTPRequests.APIConfig,
                            parsesAsURLComponents: string -> bool,
                            formsURL: (string, seq<HTTPRequests.URLQueryItem>) -> bool)
    returns (r: Result<HTTPRequests.URLRequest, HTTPRequests.NetworkError>)
    ensures r.Failure? ==> r.error == HTTPRequests.InvalidURL
    ensures r.Success? ==>
              r.value.url == HTTPRequests.URL("https://" + config.baseURL + "latest",
                                               [HTTPRequests.URLQueryItem("access_key", config.apiKey),
                                                HTTPRequests.URLQueryItem("base", "USD")]) &&
              r.value.httpMethod == "GET" && r.value.httpBody == None
  {
    LatestQueryItems(config);
    r := HTTPRequests.GetRequest(config, LatestEndpoint, Some(LatestQuery), ["base"],
                                 parsesAsURLComponents, formsURL);
  }

  /** With the fallback configuration the target keeps the fallback's own
      scheme and has no separator before the endpoint. */
  lemma FallbackLatestTarget()
    ensures "https://" + HTTPRequests.FallbackConfig.baseURL + LatestEndpoint
         == "https://http://localhost:3000latest"
  {
  }

  class CurrencyViewModel {
    var rates: map<string, real>
    var errorMessage: Option<string>

    /** No rates and no error before the first fetch. */
    constructor ()
      ensures rates == map[] && errorMessage == None
    {
      rates := map[];
      errorMessage := None;
    }

    /** `fetchExchangeRates`, from the point where the request for the
        latest rates has completed with `result`. A success replaces the
        whole rate table and leaves any earlier error message in place; a
        failure shows the error's description and keeps the old rates. */
    method FetchExchangeRates(result: Result<IExchangeRates, HTTPRequests.Error>)
      modifies this
      ensures result.Success? ==> rates == result.value.rates && errorMessage == old(errorMessage)
      ensures result.Failure? ==>
                errorMessage == Some(HTTPRequests.LocalizedDescription(result.error)) && rates == old(rates)
    {
      match result
      case Success(response) =>
        rates := response.rates;
      case Failure(error) =>
        errorMessage := Some(HTTPRequests.LocalizedDescription(error));
    }
  }

  /** A failed fetch followed by a successful one: the new rates are shown
      together with the old error message, which nothing clears. */
  method StaleErrorAfterRecovery(error: HTTPRequests.Error, latest: IExchangeRates)
    returns (viewModel: CurrencyViewModel)
    ensures viewModel.rates == latest.rates
    ensures viewModel.errorMessage == Some(HTTPRequests.LocalizedDescription(error))
  {
    viewModel := new CurrencyViewModel();
    viewModel.FetchExchangeRates(Failure(error));
    viewModel.FetchExchangeRates(Success(latest));
  }

  /** A 429 answer to the fetch shows the monthly-limit message and keeps
      the rates from before. */
  method RateLimitedFetch(viewModel: CurrencyViewModel, data: Option<HTTPRequests.Data>,
                          parse: HTTPRequests.Data -> Option<HTTPRequests.ProviderErrorBody>,
                          decode: HTTPRequests.Data -> Result<IExchangeRates, HTTPRequests.Cause>)
    modifies viewModel
    ensures viewModel.rates == old(viewModel.rates)
    ensures viewModel.errorMessage == Some(HTTPRequests.RateLimitMessage)
  {
    var result := HTTPRequests.HandleError(Some(HTTPRequests.HTTPURLResponse(429)), data, None, parse, decode);
    viewModel.FetchExchangeRates(result);
  }
}
