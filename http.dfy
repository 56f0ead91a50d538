/** The HTTP client: `Client.get`, `stream_get`, `get_photo_raw` and `get_file_extension`.
    A client remembers the one response it accepted and asks the network again only
    while it has none. */
module Http {
  import opened Wrappers

  /** What `requests.get` hands back: a status, the raw body and the Content-Type header. */
  datatype Response = Response(statusCode: int, raw: Bytes, contentType: Option<string>)

  /** The network's answer to a GET of one URL: a connection failure or a response. */
  datatype Reply = TransportFailure | Replied(response: Response)

  /** The remote side, as a fixed answer per URL. */
  type Network = string -> Reply

  /** `Content-Type` to extension, as `mimetypes.guess_extension` does for a present header. */
  type ExtensionGuess = string -> Option<string>

  datatype FetchError =
    | Transport          // `requests.get` raised
    | BadStatus(code: int)  // 'response status not is 200'

  datatype ExtensionError =
    | ExtensionFetch(cause: FetchError)  // the lookup had to fetch, and that failed
    | MissingContentType                 // `guess_extension(None)` raises

  /** Python's `bool(response)`, which is `response.ok`: a response is falsy exactly when
      its status is a client or server error (400 to 599), and no response at all is falsy. */
  predicate IsTruthy(r: Option<Response>)
    ensures r.None? ==> !IsTruthy(r)
    ensures r.Some? && r.value.statusCode == 200 ==> IsTruthy(r)
    ensures r.Some? && 400 <= r.value.statusCode < 600 ==> !IsTruthy(r)
  {
    r.Some? && !(400 <= r.value.statusCode < 600)
  }

  /** The extension of an accepted response: the guess for its content type, or an error
      when the header is missing. */
  function ExtensionOf(contentType: Option<string>, guess: ExtensionGuess): (r: Result<Option<string>, ExtensionError>)
    ensures r.Err? <==> contentType.None?
  {
    match contentType
    case None => Err(MissingContentType)
    case Some(t) => Ok(guess(t))
  }

  class Client {
    const url: string
    /** `self.response`: the last response whose status was 200, if any. */
    var response: Option<Response>
    /** How many GET requests this client has sent. */
    var requests: nat

    /** Only status-200 responses are ever stored. */
    ghost predicate Valid()
      reads this
    {
      response.Some? ==> response.value.statusCode == 200
    }

    constructor (url: string)
      ensures Valid()
      ensures this.url == url && response == None && requests == 0
    {
      this.url := url;
      response := None;
      requests := 0;
    }

    /** One GET of `url`; the response is kept and returned only for status 200. */
    method Get(net: Network) returns (r: Result<Response, FetchError>)
      requires Valid()
      modifies this
      ensures Valid()
      ensures requests == old(requests) + 1
      ensures net(url).TransportFailure? ==> r == Err(Transport) && response == old(response)
      ensures net(url).Replied? && net(url).response.statusCode == 200 ==>
        r == Ok(net(url).response) && response == Some(net(url).response)
      ensures net(url).Replied? && net(url).response.statusCode != 200 ==>
        r == Err(BadStatus(net(url).response.statusCode)) && response == old(response)
    {
      requests := requests + 1;
      match net(url)
      case TransportFailure =>
        r := Err(Transport);
      case Replied(resp) =>
        if resp.statusCode == 200 {
          response := Some(resp);
          r := Ok(resp);
        } else {
          r := Err(BadStatus(resp.statusCode));
        }
    }

    /** `get(stream=True)`, keeping only whether it raised. */
    method StreamGet(net: Network) returns (r: Result<(), FetchError>)
      requires Valid()
      modifies this
      ensures Valid()
      ensures requests == old(requests) + 1
      ensures net(url).TransportFailure? ==> r == Err(Transport) && response == old(response)
      ensures net(url).Replied? && net(url).response.statusCode == 200 ==>
        r == Ok(()) && response == Some(net(url).response)
      ensures net(url).Replied? && net(url).response.statusCode != 200 ==>
        r == Err(BadStatus(net(url).response.statusCode)) && response == old(response)
    {
      var g := Get(net);
      r := if g.Ok? then Ok(()) else Err(g.error);
    }

    /** The raw body of the cached response, fetching it first when nothing is cached. */
    method GetPhotoRaw(net: Network) returns (r: Result<Bytes, FetchError>)
      requires Valid()
      modifies this
      ensures Valid()
      ensures old(response).Some? ==>
        requests == old(requests) && response == old(response) && r == Ok(old(response).value.raw)
      ensures old(response).None? ==> requests == old(requests) + 1
      ensures old(response).None? && net(url).TransportFailure? ==> r == Err(Transport) && response == None
      ensures old(response).None? && net(url).Replied? && net(url).response.statusCode == 200 ==>
        r == Ok(net(url).response.raw) && response == Some(net(url).response)
      ensures old(response).None? && net(url).Replied? && net(url).response.statusCode != 200 ==>
        r == Err(BadStatus(net(url).response.statusCode)) && response == None
    {
      if !IsTruthy(response) {
        var g := StreamGet(net);
        if g.Err? {
          return Err(g.error);
        }
      }
      r := Ok(response.value.raw);
    }

    /** The extension for the cached response's content type, fetching first when nothing is cached. */
    method GetFileExtension(net: Network, guess: ExtensionGuess) returns (r: Result<Option<string>, ExtensionError>)
      requires Valid()
      modifies this
      ensures Valid()
      ensures old(response).Some? ==>
        requests == old(requests) && response == old(response) && r == ExtensionOf(old(response).value.contentType, guess)
      ensures old(response).None? ==> requests == old(requests) + 1
      ensures old(response).None? && net(url).TransportFailure? ==> r == Err(ExtensionFetch(Transport)) && response == None
      ensures old(response).None? && net(url).Replied? && net(url).response.statusCode == 200 ==>
        r == ExtensionOf(net(url).response.contentType, guess) && response == Some(net(url).response)
      ensures old(response).None? && net(url).Replied? && net(url).response.statusCode != 200 ==>
        r == Err(ExtensionFetch(BadStatus(net(url).response.statusCode))) && response == None
    {
      if !IsTruthy(response) {
        var g := Get(net);
        if g.Err? {
          return Err(ExtensionFetch(g.error));
        }
      }
      r := ExtensionOf(response.value.contentType, guess);
    }
  }
}
