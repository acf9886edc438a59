/** The remote catalog client of civitai/lib.py: the records the by-hash endpoint returns, the
    exceptions, and `req`, which builds the request (headers, URL, body) and turns any status
    other than 200 into an exception. The transport itself is an oracle `send`. */
module Catalog {
  import opened Wrappers
  import opened Text

  const BaseUrl := "https://civitai.com/api/v1"
  const UserAgent := "CivitaiLink:Automatic1111"
  const ByHashEndpoint := "/model-versions/by-hash"

  /** What an operation of the core can raise. */
  datatype Error =
    | Upstream(status: int, text: string)  // req: a response whose status is not 200
    | MissingKey(key: string)              // KeyError on a record lacking a field
    | HostError(path: string)              // an exception from a host capability (hashing a file)
  {
    /** The text of the exception `req` raises. */
    function Message(): string {
      match this
      case Upstream(status, text) => "Error: " + IntToString(status) + " " + text
      case MissingKey(key) => key
      case HostError(path) => path
    }
  }

  /** One file of a catalog version; `hashes` maps algorithm names ("SHA256") to hashes and may be absent. */
  datatype FileInfo = FileInfo(hashes: Option<map<string, string>>)

  datatype ImageInfo = ImageInfo(url: string)

  /** A catalog model version. `createdAt` is the parsed ISO timestamp as an abstract integer;
      `baseModel`, `trainedWords` and `images` are optional in the record. */
  datatype Version = Version(
    id: int,
    modelId: int,
    createdAt: int,
    baseModel: Option<string>,
    trainedWords: Option<seq<string>>,
    files: seq<FileInfo>,
    images: Option<seq<ImageInfo>>)

  datatype Request = Request(
    verb: string,
    url: string,
    headers: map<string, string>,
    body: Option<string>,
    params: map<string, string>)

  datatype Response<J> = Response(status: int, text: string, json: J)

  /** The headers `req` sends: the caller's headers plus User-Agent, a bearer Authorization whenever an
      API key is configured (even an empty one), and Content-Type exactly when data is given; the
      caller's other headers pass through unchanged. */
  function BuildHeaders(headers: Option<map<string, string>>, apiKey: Option<string>, hasData: bool): (h: map<string, string>)
    ensures "User-Agent" in h && h["User-Agent"] == UserAgent
    ensures apiKey.Some? ==> "Authorization" in h && h["Authorization"] == "Bearer " + apiKey.value
    ensures hasData ==> "Content-Type" in h && h["Content-Type"] == "application/json"
    ensures forall k :: k in h <==>
                        (k == "User-Agent" || (k == "Authorization" && apiKey.Some?) ||
                         (k == "Content-Type" && hasData) || (headers.Some? && k in headers.value))
    ensures forall k :: (headers.Some? && k in headers.value && k != "User-Agent" &&
                         (k != "Authorization" || apiKey.None?) && (k != "Content-Type" || !hasData))
                        ==> h[k] == headers.value[k]
  {
    var h0 := if headers.Some? then headers.value else map[];
    var h1 := h0["User-Agent" := UserAgent];
    var h2 := if apiKey.Some? then h1["Authorization" := "Bearer " + apiKey.value] else h1;
    if hasData then h2["Content-Type" := "application/json"] else h2
  }

  /** The URL `req` calls: the endpoint under the base URL, with a '/' put in front when it lacks one. */
  function BuildUrl(endpoint: string): (url: string)
    ensures StartsWith(url, BaseUrl + "/") && EndsWith(url, endpoint)
    ensures url == BaseUrl + endpoint || url == BaseUrl + "/" + endpoint
    ensures StartsWith(endpoint, "/") ==> url == BaseUrl + endpoint
  {
    var ep := if StartsWith(endpoint, "/") then endpoint else "/" + endpoint;
    assert (BaseUrl + ep)[..|BaseUrl + "/"|] == BaseUrl + "/";
    assert (BaseUrl + ep)[|BaseUrl + ep| - |endpoint|..] == endpoint;
    BaseUrl + ep
  }

  /** The request `req` hands to the transport: the headers and URL above, the encoded body exactly
      when data is given, and the query parameters (none when not given). */
  function BuildRequest<D>(endpoint: string, verb: string, data: Option<D>, params: Option<map<string, string>>,
                           headers: Option<map<string, string>>, apiKey: Option<string>, encode: D -> string): (q: Request)
    ensures q.verb == verb
    ensures q.headers == BuildHeaders(headers, apiKey, data.Some?)
    ensures q.url == BuildUrl(endpoint)
    ensures q.body.Some? <==> data.Some?
    ensures data.Some? ==> q.body == Some(encode(data.value))
    ensures params.None? ==> q.params == map[]
    ensures params.Some? ==> q.params == params.value
  {
    var body := if data.Some? then Some(encode(data.value)) else None;
    Request(verb, BuildUrl(endpoint), BuildHeaders(headers, apiKey, data.Some?), body,
            if params.Some? then params.value else map[])
  }

  /** `req`: send the request and return the decoded body, raising unless the status is 200. */
  function Req<D, J>(endpoint: string, verb: string, data: Option<D>, params: Option<map<string, string>>,
                     headers: Option<map<string, string>>, apiKey: Option<string>, encode: D -> string,
                     send: Request -> Response<J>): (r: Result<J, Error>)
    ensures var resp := send(BuildRequest(endpoint, verb, data, params, headers, apiKey, encode));
      && (r.Success? <==> resp.status == 200)
      && (r.Success? ==> r.value == resp.json)
      && (r.Failure? ==> r.error == Upstream(resp.status, resp.text))
  {
    var resp := send(BuildRequest(endpoint, verb, data, params, headers, apiKey, encode));
    if resp.status != 200 then Failure(Upstream(resp.status, resp.text)) else Success(resp.json)
  }

  /** The configured client: API key setting, JSON encoder for a list of hashes, and the transport. */
  datatype Api = Api(
    apiKey: Option<string>,
    encodeHashes: seq<string> -> string,
    send: Request -> Response<seq<Version>>)

  /** `get_all_by_hash`: one POST of a batch of hashes to the by-hash endpoint. */
  function GetAllByHash(api: Api, batch: seq<string>): Result<seq<Version>, Error> {
    Req(ByHashEndpoint, "POST", Some(batch), None, None, api.apiKey, api.encodeHashes, api.send)
  }

  function ByHashRequest(api: Api, batch: seq<string>): Request {
    BuildRequest(ByHashEndpoint, "POST", Some(batch), None, None, api.apiKey, api.encodeHashes)
  }

  /** Each batch goes out as one authenticated POST to the by-hash endpoint, carrying the encoded
      batch as a JSON body, and its answer is accepted only with status 200. */
  lemma GetAllByHashSends(api: Api, batch: seq<string>)
    ensures var q := ByHashRequest(api, batch);
      && q.verb == "POST" && q.url == BaseUrl + ByHashEndpoint
      && q.body == Some(api.encodeHashes(batch))
      && q.headers["Content-Type"] == "application/json" && q.headers["User-Agent"] == UserAgent
      && (api.apiKey.Some? ==> q.headers["Authorization"] == "Bearer " + api.apiKey.value)
      && (api.apiKey.None? ==> "Authorization" !in q.headers)
      && (GetAllByHash(api, batch).Success? <==> api.send(q).status == 200)
      && (GetAllByHash(api, batch).Success? ==> GetAllByHash(api, batch).value == api.send(q).json)
  {
    assert StartsWith(ByHashEndpoint, "/");
  }
}
