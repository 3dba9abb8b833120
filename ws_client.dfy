/**
  * The web-service client `MoodleWSClient`: its configuration state (site,
  * endpoint, token, curl options), the preparation of a remote call (token
  * check, URL, POST body) and the classification of the HTTP response.
  * The HTTP exchange itself is an object that answers each request by a
  * given function (status code, curl error text, decoded JSON body) and
  * logs every request it is handed.
  */
module WSClient {
  import opened Wrappers
  import opened PhpStrings
  import opened FormEncoding
  import opened SeqFacts

  /** The curl options the client sets. */
  datatype CurlOpt =
    | UserAgent | Header | NoBody | MaxRedirs | Encoding | ReturnTransfer | BinaryTransfer
    | SslVerifyPeer | SslVerifyHost | ConnectTimeout
    | ProxyType | Proxy | ProxyPort | ProxyUserPwd

  datatype OptValue = Int(n: int) | Str(s: Bytes)

  type CurlOptions = map<CurlOpt, OptValue>

  /** The options every client starts with (peer verification is off). */
  const DefaultCurlOptions: CurlOptions := map[
    UserAgent := Str("MoodleWsClient/0.1"),
    Header := Int(0),
    NoBody := Int(0),
    MaxRedirs := Int(10),
    Encoding := Str(""),
    ReturnTransfer := Int(1),
    BinaryTransfer := Int(0),
    SslVerifyPeer := Int(0),
    SslVerifyHost := Int(2),
    ConnectTimeout := Int(30)
  ]

  const DefaultEndpoint: Bytes := "/webservice/rest/server.php"

  predicate IsProxyOption(o: CurlOpt) {
    o == ProxyType || o == Proxy || o == ProxyPort || o == ProxyUserPwd
  }

  /**
    * The endpoint as stored: a truthy argument with its leading slashes
    * replaced by a single `/`, otherwise the default endpoint.
    */
  function NormalizeEndpoint(endpoint: Option<Bytes>): (r: Bytes)
    ensures |r| >= 1 && r[0] == '/' && (|r| == 1 || !IsSlash(r[1]))
    ensures Truthy(endpoint) ==>
      exists n :: 0 <= n <= |endpoint.value|
        && (forall i :: 0 <= i < n ==> IsSlash(endpoint.value[i]))
        && r == "/" + endpoint.value[n..]
    ensures !Truthy(endpoint) ==> r == DefaultEndpoint
  {
    if Truthy(endpoint) then
      var t := TrimLeadingSlashes(endpoint.value);
      assert t == endpoint.value[|endpoint.value| - |t|..];
      "/" + t
    else DefaultEndpoint
  }

  /**
    * The options after `setupProxy(host, port, user, pass)`: proxy type,
    * host and port always set, credentials only when both are truthy, and
    * every other option as it was.
    */
  function WithProxy(opts: CurlOptions, host: Bytes, port: int, user: Option<Bytes>, pass: Option<Bytes>)
    : (r: CurlOptions)
    ensures r.Keys == opts.Keys + {ProxyType, Proxy, ProxyPort}
                      + (if Truthy(user) && Truthy(pass) then {ProxyUserPwd} else {})
    ensures r[ProxyType] == Str("HTTP") && r[Proxy] == Str(host) && r[ProxyPort] == Int(port)
    ensures Truthy(user) && Truthy(pass) ==> r[ProxyUserPwd] == Str(user.value + ":" + pass.value)
    ensures !(Truthy(user) && Truthy(pass)) && ProxyUserPwd in opts ==> r[ProxyUserPwd] == opts[ProxyUserPwd]
    ensures forall o :: o in opts && !IsProxyOption(o) ==> r[o] == opts[o]
  {
    var r := opts[ProxyType := Str("HTTP")][Proxy := Str(host)][ProxyPort := Int(port)];
    if Truthy(user) && Truthy(pass) then r[ProxyUserPwd := Str(user.value + ":" + pass.value)] else r
  }

  /** What `json_decode` gives back, reduced to the properties the client reads. */
  datatype Decoded = Decoded(exception: Option<Bytes>, message: Option<Bytes>, debuginfo: Option<Bytes>, token: Option<Bytes>)

  /** What curl reports for one exchange. */
  datatype Response = Response(httpCode: int, curlError: Bytes, decoded: Decoded)

  /** The request handed to curl, with the options in force. */
  datatype Request =
    | PostRequest(url: Bytes, body: Bytes, options: CurlOptions)
    | GetRequest(url: Bytes, options: CurlOptions)

  /** The three ways a call throws `MoodleWSException`. */
  datatype WSError =
    | MissingToken                              // message "Missing token", code 0
    | TransportError(error: Bytes, code: int)   // curl's error text, the HTTP status
    | RemoteError(message: Option<Bytes>)       // the server's message, code 0

  /**
    * The shared tail of `call` and `get`: a status other than 200 throws with
    * that status, then a truthy `exception` throws with the server's message,
    * and otherwise the decoded result is returned unchanged.
    */
  function Classify(resp: Response): (r: Result<Decoded, WSError>)
    ensures resp.httpCode != 200 <==> r == Failure(TransportError(resp.curlError, resp.httpCode))
    ensures resp.httpCode == 200 && Truthy(resp.decoded.exception)
            <==> r == Failure(RemoteError(resp.decoded.message))
    ensures r.Success? <==> resp.httpCode == 200 && !Truthy(resp.decoded.exception)
    ensures r.Success? ==> r.value == resp.decoded
  {
    if resp.httpCode != 200 then Failure(TransportError(resp.curlError, resp.httpCode))
    else if Truthy(resp.decoded.exception) then Failure(RemoteError(resp.decoded.message))
    else Success(resp.decoded)
  }

  /**
    * The POST body of `call`: an array or object is flattened, a scalar is
    * sent verbatim.
    */
  function PostBody(args: Value): (r: Bytes)
    ensures args.Leaf? ==> r == args.scalar
    ensures args.Node? ==> r == Join(Fields(LeafPaths(args.entries)), '&')
    ensures args.Node? ==> ParseBody(r) == LeafPaths(args.entries)
  {
    match args
    case Leaf(s) => s
    case Node(es) => PostFieldsPerLeaf(es); RoundTrip(es); FormatPostdata(es)
  }

  /** Position `i` of `u` holds the only slash of a run: no slash just before or after it. */
  predicate OneSlashAt(u: Bytes, i: nat) {
    i + 1 < |u| && u[i] == '/' && !IsSlash(u[i + 1]) && (i == 0 || !IsSlash(u[i - 1]))
  }

  /** The URL of `call`; token and function name go in unencoded. */
  function CallUrl(site: Bytes, endpoint: Bytes, token: Bytes, fn: Bytes): Bytes {
    site + endpoint + "?wstoken=" + token + "&moodlewsrestformat=json&wsfunction=" + fn
  }

  /** A site without a trailing slash and an endpoint with one leading slash meet at a single `/`. */
  lemma JoinAtSlash(site: Bytes, endpoint: Bytes, rest: Bytes)
    requires site == [] || !IsSlash(site[|site| - 1])
    requires |endpoint| >= 1 && endpoint[0] == '/' && (|endpoint| == 1 || !IsSlash(endpoint[1]))
    requires rest != [] && !IsSlash(rest[0])
    ensures OneSlashAt(site + (endpoint + rest), |site|)
  {
    var url := site + (endpoint + rest);
    assert url[|site|] == endpoint[0];
    assert url[|site| + 1] == if |endpoint| == 1 then rest[0] else endpoint[1];
  }

  /** The argument `__call` forwards: the first one, or an empty array when there is none. */
  function SelectArgs(arguments: seq<Value>): (r: Value)
    ensures |arguments| > 0 ==> r == arguments[0]
    ensures |arguments| == 0 ==> r == Node([]) && PostBody(r) == []
  {
    if |arguments| == 0 then Node([]) else arguments[0]
  }

  /** The query `newToken` appends to `/login/token.php`; the credentials go in unencoded. */
  function TokenQuery(username: Bytes, password: Bytes, service: Bytes): Bytes {
    "username=" + username + "&password=" + password + "&service=" + service
  }

  /** The token query's eight pieces around the separator `&`, regrouped to the right. */
  lemma Regroup<T>(l1: seq<T>, u: seq<T>, amp: seq<T>, l2: seq<T>, a: seq<T>, b: seq<T>, l3: seq<T>, v: seq<T>)
    ensures l1 + u + (amp + l2) + (a + amp + b) + (amp + l3) + v
         == l1 + u + amp + (l2 + a + amp + (b + amp + (l3 + v)))
  {
  }

  /**
    * As written, a password holding `&` is read by the server as two fields:
    * the three credentials come back as four fields, and the password field
    * holds only the part before the `&`.
    */
  lemma TokenQuerySplitsPassword(username: Bytes, a: Bytes, b: Bytes, service: Bytes)
    requires '&' !in username && '&' !in a && '&' !in b && '&' !in service
    ensures Split(TokenQuery(username, a + "&" + b, service), '&')
         == ["username=" + username, "password=" + a, b, "service=" + service]
    ensures |ParseBody(TokenQuery(username, a + "&" + b, service))| == 4
  {
    var f1, f2, f4 := "username=" + username, "password=" + a, "service=" + service;
    assert "&password=" == "&" + "password=" && "&service=" == "&" + "service=";
    Regroup("username=", username, "&", "password=", a, b, "service=", service);
    assert TokenQuery(username, a + "&" + b, service) == f1 + ['&'] + (f2 + ['&'] + (b + ['&'] + f4));
    SplitAtFirstSeparator(f1, f2 + ['&'] + (b + ['&'] + f4), '&');
    SplitAtFirstSeparator(f2, b + ['&'] + f4, '&');
    SplitAtFirstSeparator(b, f4, '&');
    SplitWithoutSeparator(f4, '&');
  }

  /** The field names of the token request. */
  const UsernameKey: Bytes := "username"
  const PasswordKey: Bytes := "password"
  const ServiceKey: Bytes := "service"

  /** The query `newToken` evidently means: every credential `urlencode`d. */
  function EncodedTokenQuery(username: Bytes, password: Bytes, service: Bytes): Bytes {
    FormatPostdata([Entry(UsernameKey, Leaf(username)), Entry(PasswordKey, Leaf(password)), Entry(ServiceKey, Leaf(service))])
  }

  /** The encoded query reads back as exactly the three credentials, whatever they hold. */
  lemma EncodedTokenQueryReadsBack(username: Bytes, password: Bytes, service: Bytes)
    ensures ParseBody(EncodedTokenQuery(username, password, service))
         == [KeyedLeaf(UsernameKey, [], username), KeyedLeaf(PasswordKey, [], password),
             KeyedLeaf(ServiceKey, [], service)]
  {
    var es := [Entry(UsernameKey, Leaf(username)), Entry(PasswordKey, Leaf(password)), Entry(ServiceKey, Leaf(service))];
    RoundTrip(es);
    CredentialLeaves(username, password, service);
  }

  lemma CredentialLeaves(username: Bytes, password: Bytes, service: Bytes)
    ensures LeafPaths([Entry(UsernameKey, Leaf(username)), Entry(PasswordKey, Leaf(password)), Entry(ServiceKey, Leaf(service))])
         == [KeyedLeaf(UsernameKey, [], username), KeyedLeaf(PasswordKey, [], password),
             KeyedLeaf(ServiceKey, [], service)]
  {
    var e1, e2, e3 := Entry(UsernameKey, Leaf(username)), Entry(PasswordKey, Leaf(password)), Entry(ServiceKey, Leaf(service));
    assert [e3][1..] == [];
    assert LeafPaths([e3]) == [KeyedLeaf(ServiceKey, [], service)];
    assert [e2, e3][1..] == [e3];
    assert LeafPaths([e2, e3]) == [KeyedLeaf(PasswordKey, [], password), KeyedLeaf(ServiceKey, [], service)];
    assert [e1, e2, e3][1..] == [e2, e3];
  }

  /**
    * The HTTP exchange (`curl_exec` with `curl_getinfo` and `curl_error`):
    * answers every request by `respond` and records each request it is
    * handed, in order, in `log`.
    */
  class Transport {
    const respond: Request -> Response
    var log: seq<Request>

    constructor (respond: Request -> Response)
      ensures this.respond == respond && log == []
    {
      this.respond := respond;
      log := [];
    }

    method Exchange(req: Request) returns (resp: Response)
      modifies this`log
      ensures log == old(log) + [req]
      ensures resp == respond(req)
    {
      log := log + [req];
      resp := respond(req);
    }
  }

  class MoodleWSClient {
    var site: Bytes
    var endpoint: Bytes
    var token: Option<Bytes>
    var curlOptions: CurlOptions

    /**
      * What construction establishes and no method breaks: the site has no
      * trailing slash and the endpoint starts with exactly one, so `call`
      * joins them with a single `/`.
      */
    predicate Valid()
      reads this
    {
      (site == [] || !IsSlash(site[|site| - 1]))
      && |endpoint| >= 1 && endpoint[0] == '/' && (|endpoint| == 1 || !IsSlash(endpoint[1]))
    }

    constructor (site: Bytes, token: Option<Bytes> := None, endpoint: Option<Bytes> := None)
      ensures Valid()
      ensures this.site == TrimTrailingSlashes(site)
      ensures this.endpoint == NormalizeEndpoint(endpoint)
      ensures this.token == if Truthy(token) then token else None
      ensures curlOptions == DefaultCurlOptions
    {
      this.site := TrimTrailingSlashes(site);
      this.token := None;
      this.curlOptions := DefaultCurlOptions;
      this.endpoint := NormalizeEndpoint(endpoint);
      new;
      assert Valid();
      if Truthy(token) {
        SetToken(token);
      }
    }

    function GetToken(): Option<Bytes>
      reads this
    {
      token
    }

    method SetToken(t: Option<Bytes>)
      modifies this`token
      ensures GetToken() == t
      ensures site == old(site) && endpoint == old(endpoint) && curlOptions == old(curlOptions)
      ensures old(Valid()) ==> Valid()
    {
      token := t;
    }

    method SetupProxy(host: Bytes, port: int, user: Option<Bytes> := None, pass: Option<Bytes> := None)
      modifies this`curlOptions
      ensures curlOptions == WithProxy(old(curlOptions), host, port, user, pass)
      ensures site == old(site) && endpoint == old(endpoint) && token == old(token)
      ensures old(Valid()) ==> Valid()
    {
      curlOptions := curlOptions[ProxyType := Str("HTTP")];
      curlOptions := curlOptions[Proxy := Str(host)];
      curlOptions := curlOptions[ProxyPort := Int(port)];
      if Truthy(user) && Truthy(pass) {
        curlOptions := curlOptions[ProxyUserPwd := Str(user.value + ":" + pass.value)];
      }
    }

    /**
      * `format_array_postdata_for_curlcall`: appends to `data` the fields of
      * `arraydata` below the name `currentdata`.
      */
    method FormatArrayPostdata(arraydata: seq<Entry>, currentdata: Bytes, data: seq<Bytes>)
      returns (out: seq<Bytes>)
      ensures out == data + ArrayFields(arraydata, currentdata)
    {
      out := data;
      for i := 0 to |arraydata|
        invariant out == data + ArrayFields(arraydata[..i], currentdata)
      {
        var k, v := arraydata[i].key, arraydata[i].value;
        var newcurrentdata := currentdata;
        ghost var before := out;
        if v.Node? {
          newcurrentdata := newcurrentdata + "[" + UrlEncode(k) + "]";
          out := FormatArrayPostdata(v.entries, newcurrentdata, out);
          assert out == before + EntryFields(arraydata[i], currentdata);
        } else {
          out := out + [newcurrentdata + "[" + UrlEncode(k) + "]=" + UrlEncode(v.scalar)];
        }
        assert out == before + EntryFields(arraydata[i], currentdata);
        ArrayFieldsSnoc(arraydata, i, currentdata);
        AppendAssoc(data, ArrayFields(arraydata[..i], currentdata), EntryFields(arraydata[i], currentdata));
      }
      assert arraydata[..|arraydata|] == arraydata;
    }

    /**
      * `format_postdata_for_curlcall`: one field per leaf, in depth-first
      * order, joined with `&`; the body reads back as the leaves.
      */
    method FormatPostdata(postdata: seq<Entry>) returns (body: Bytes)
      ensures body == Join(Fields(LeafPaths(postdata)), '&')
      ensures ParseBody(body) == LeafPaths(postdata)
    {
      var data: seq<Bytes> := [];
      for i := 0 to |postdata|
        invariant data == PostFields(postdata[..i])
      {
        var k, v := postdata[i].key, postdata[i].value;
        ghost var before := data;
        if v.Node? {
          var currentdata := UrlEncode(k);
          data := FormatArrayPostdata(v.entries, currentdata, data);
        } else {
          data := data + [UrlEncode(k) + "=" + UrlEncode(v.scalar)];
        }
        assert data == before + TopFields(postdata[i]);
        PostFieldsSnoc(postdata, i);
      }
      assert postdata[..|postdata|] == postdata;
      PostFieldsPerLeaf(postdata);
      body := Join(data, '&');
      RoundTrip(postdata);
    }

    /** The request `call` hands to curl, or None when the token check throws first. */
    function CallRequest(fn: Bytes, args: Value): Option<Request>
      reads this
    {
      if Truthy(token) then Some(PostRequest(CallUrl(site, endpoint, token.value, fn), PostBody(args), curlOptions))
      else None
    }

    /**
      * `call`: throws "Missing token" before any exchange when the token is
      * PHP-empty; otherwise hands exactly one POST to the transport and
      * classifies the response.
      */
    method Call(fn: Bytes, args: Value := Node([]), t: Transport) returns (r: Result<Decoded, WSError>)
      modifies t`log
      ensures !Truthy(token) ==> t.log == old(t.log) && r == Failure(MissingToken)
      ensures Truthy(token) ==>
        var req := PostRequest(site + endpoint + "?wstoken=" + token.value
                               + "&moodlewsrestformat=json&wsfunction=" + fn, PostBody(args), curlOptions);
        && t.log == old(t.log) + [req]
        && r == Classify(t.respond(req))
      ensures Truthy(token) && Valid() ==> OneSlashAt(CallUrl(site, endpoint, token.value, fn), |site|)
    {
      if !Truthy(token) {
        return Failure(MissingToken);
      }
      var url := CallUrl(site, endpoint, token.value, fn);
      ghost var valid := Valid();
      if valid {
        ghost var rest := "?wstoken=" + token.value + "&moodlewsrestformat=json&wsfunction=" + fn;
        assert url == site + (endpoint + rest);
        JoinAtSlash(site, endpoint, rest);
      }
      var postbody: Bytes;
      if args.Node? {
        postbody := FormatPostdata(args.entries);
      } else {
        postbody := args.scalar;
      }
      var response := t.Exchange(PostRequest(url, postbody, curlOptions));
      r := Classify(response);
    }

    /** `__call`: forwards the method name and its first argument (or `[]`) to `call`. */
    method MagicCall(name: Bytes, arguments: seq<Value>, t: Transport) returns (r: Result<Decoded, WSError>)
      modifies t`log
      ensures CallRequest(name, SelectArgs(arguments)).None? ==> t.log == old(t.log) && r == Failure(MissingToken)
      ensures CallRequest(name, SelectArgs(arguments)).Some? ==>
        var req := CallRequest(name, SelectArgs(arguments)).value;
        && t.log == old(t.log) + [req]
        && r == Classify(t.respond(req))
        && req.body == if |arguments| == 0 then [] else PostBody(arguments[0])
    {
      r := Call(name, if |arguments| == 0 then Node([]) else arguments[0], t);
    }

    /** `get`: no token check; exactly one GET of the site root plus `url`, classified like `call`. */
    method Get(url: Bytes, t: Transport) returns (r: Result<Decoded, WSError>)
      modifies t`log
      ensures t.log == old(t.log) + [GetRequest(site + url, curlOptions)]
      ensures r == Classify(t.respond(GetRequest(site + url, curlOptions)))
    {
      var response := t.Exchange(GetRequest(site + url, curlOptions));
      r := Classify(response);
    }

    /**
      * `newToken`: the `token` property of what `get` returns; the client's
      * own token is left alone.
      */
    method NewToken(username: Bytes, password: Bytes, service: Bytes := "admin", t: Transport)
      returns (r: Result<Option<Bytes>, WSError>)
      modifies t`log
      ensures var req := GetRequest(site + "/login/token.php?" + TokenQuery(username, password, service), curlOptions);
        var resp := t.respond(req);
        && t.log == old(t.log) + [req]
        && (r.Success? <==> resp.httpCode == 200 && !Truthy(resp.decoded.exception))
        && (r.Success? ==> r.value == resp.decoded.token)
        && (r.Failure? ==> Failure(r.error) == Classify(resp))
    {
      var path := "/login/token.php?" + TokenQuery(username, password, service);
      assert site + path == site + "/login/token.php?" + TokenQuery(username, password, service);
      var response := Get(path, t);
      if response.Failure? {
        return Failure(response.error);
      }
      r := Success(response.value.token);
    }
  }
}
