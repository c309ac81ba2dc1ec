/** The full-archive search request of `src/twitter_api.py`: the bearer header, the fixed
    endpoint with its parameter dictionary, and the call that stamps the continuation token
    into the caller's dictionary and checks the status code. The HTTP exchange itself is a
    parameter. */
module TwitterApi {
  import opened Wrappers

  /** `"Bearer {}".format(token)`; an unset environment variable gives Python's `None`, which
      formats as the text "None". */
  function CreateHeaders(token: Option<string>): (headers: map<string, string>)
    ensures headers.Keys == {"Authorization"}
    ensures headers["Authorization"] == "Bearer " + if token.Some? then token.value else "None"
  {
    map["Authorization" := "Bearer " + match token { case Some(t) => t case None => "None" }]
  }

  /** A value of the query-parameter dictionary. */
  datatype ParamValue = Text(text: string) | Number(n: int) | EmptyDict | NoneValue

  const SearchUrl := "https://api.twitter.com/2/tweets/search/all"
  const Expansions := "author_id,in_reply_to_user_id,geo.place_id"
  const TweetFields := "id,text,author_id,in_reply_to_user_id,geo,conversation_id,created_at,lang,public_metrics,referenced_tweets,reply_settings,source"
  const UserFields := "id,name,username,created_at,description,public_metrics,verified"
  const PlaceFields := "full_name,id,country,country_code,geo,name,place_type"

  const ParamKeys: set<string> := {"query", "start_time", "end_time", "max_results", "expansions",
                                   "tweet.fields", "user.fields", "place.fields", "next_token"}

  /** The search endpoint and its query parameters; `max_results` defaults to 10. */
  function CreateUrl(keyword: string, startDate: string, endDate: string, maxResults: int := 10)
    : (r: (string, map<string, ParamValue>))
    ensures r.0 == SearchUrl
    ensures r.1.Keys == ParamKeys
    ensures r.1["query"] == Text(keyword) && r.1["start_time"] == Text(startDate)
    ensures r.1["end_time"] == Text(endDate) && r.1["max_results"] == Number(maxResults)
    ensures r.1["expansions"] == Text(Expansions) && r.1["tweet.fields"] == Text(TweetFields)
    ensures r.1["user.fields"] == Text(UserFields) && r.1["place.fields"] == Text(PlaceFields)
    ensures r.1["next_token"] == EmptyDict
  {
    (SearchUrl,
     map["query" := Text(keyword), "start_time" := Text(startDate), "end_time" := Text(endDate),
         "max_results" := Number(maxResults), "expansions" := Text(Expansions),
         "tweet.fields" := Text(TweetFields), "user.fields" := Text(UserFields),
         "place.fields" := Text(PlaceFields), "next_token" := EmptyDict])
  }

  /** The parameter dictionary the caller owns; `connect_to_endpoint` writes into it. */
  class Params {
    var entries: map<string, ParamValue>

    constructor (entries: map<string, ParamValue>)
      ensures this.entries == entries
    {
      this.entries := entries;
    }
  }

  /** What one GET request carries. */
  datatype Request = Request(url: string, headers: map<string, string>, params: map<string, ParamValue>)

  /** What the server answers: the status code, the raw text and the parsed JSON body. */
  datatype Response<J> = Response(statusCode: int, text: string, body: J)

  /** The value `params['next_token'] = next_token` stores: the token, or `None`. */
  function TokenValue(nextToken: Option<string>): ParamValue
  {
    match nextToken
    case Some(t) => Text(t)
    case None => NoneValue
  }

  /** The status check: HTTP 200 gives the parsed body, anything else the exception's
      `(status_code, text)` arguments. */
  function CheckStatus<J>(response: Response<J>): (r: Result<J, (int, string)>)
    ensures r.Success? <==> response.statusCode == 200
    ensures r.Success? ==> r.value == response.body
    ensures r.Failure? ==> r.error == (response.statusCode, response.text)
  {
    if response.statusCode != 200 then Failure((response.statusCode, response.text))
    else Success(response.body)
  }

  /** `connect_to_endpoint`: overwrites the caller's `next_token` entry, sends the request with
      the updated dictionary, and checks the status. */
  method ConnectToEndpoint<J>(url: string, headers: map<string, string>, params: Params,
                              send: Request -> Response<J>, nextToken: Option<string> := None)
    returns (r: Result<J, (int, string)>)
    modifies params
    ensures params.entries == old(params.entries)["next_token" := TokenValue(nextToken)]
    ensures r == CheckStatus(send(Request(url, headers, params.entries)))
  {
    params.entries := params.entries["next_token" := TokenValue(nextToken)];
    var response := send(Request(url, headers, params.entries));
    r := CheckStatus(response);
  }

  /** After the call, the dictionary built by `create_url` still carries the caller's keyword,
      window and page size, and `next_token` holds the token given (or `None`). */
  lemma TokenOverwriteKeepsQuery(keyword: string, startDate: string, endDate: string,
                                 maxResults: int, nextToken: Option<string>)
    ensures var p := CreateUrl(keyword, startDate, endDate, maxResults).1["next_token" := TokenValue(nextToken)];
      && p.Keys == ParamKeys
      && p["query"] == Text(keyword) && p["start_time"] == Text(startDate)
      && p["end_time"] == Text(endDate) && p["max_results"] == Number(maxResults)
      && p["next_token"] == (if nextToken.Some? then Text(nextToken.value) else NoneValue)
      && p["next_token"] != EmptyDict
  {
  }
}
