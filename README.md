# MoodleWSClient in Dafny

A model of `UniGe\MoodleWSClient`, a PHP client for Moodle web services. The
client holds a site root, an endpoint path, a security token and a set of curl
options. It calls remote functions by name through PHP's `__call`. Each call
sends one HTTP POST whose body is the arguments flattened into bracketed form
fields (`a[b][c]=v`). The model covers:

- `wrappers.dfy`: `Option` (PHP `null`) and `Result` (a return value or a thrown `MoodleWSException`).
- `php_strings.dfy` (module `PhpStrings`): the PHP built-ins the client relies on.
  - Byte strings and PHP truthiness of a nullable string.
  - `rtrim`/`ltrim` with the list `/\`.
  - `implode`, and `explode` as its inverse.
  - `urlencode`: `[A-Za-z0-9_.-]` kept, space to `+`, every other byte to upper-case `%XX`.
  - `urldecode`, proved to undo `urlencode`.
- `seq_facts.dfy` (module `SeqFacts`): generic facts about sequence concatenation that the proofs below use.
- `form_encoding.dfy` (module `FormEncoding`): the POST-body serialiser.
  - `format_postdata_for_curlcall` and `format_array_postdata_for_curlcall` as recursive functions.
  - A reference description: one field per leaf, in depth-first order, named by the leaf's key path.
  - A reference form reader (split on `&`, on the first `=` and on brackets, then `urldecode` every segment).
  - Proofs that the serialiser agrees with the description and that the reader gets every leaf back.
- `ws_client.dfy` (module `WSClient`): the client itself.
  - The class `MoodleWSClient` with the fields `site`, `endpoint`, `token` and `curlOptions`, and its constructor, `setToken`/`getToken` and `setupProxy`.
  - The two serialiser methods, written imperatively as in the source and proved against the functions above.
  - `call`, `__call`, `get` and `newToken`, with the HTTP exchange passed in as a `Transport` object.

The HTTP exchange is a `Transport` object. It answers each request by a fixed
function `respond` and appends every request it is handed to its `log`. The
client methods may change only that log. Their contracts state the whole new
log, so "nothing is sent before the token check" and "exactly one request per
call" are part of them. A response is the HTTP status, curl's error text and the result of
`json_decode`. That result is reduced to the properties the client reads:
`exception`, `message`, `debuginfo` and `token`.

`setupProxy` without both credentials leaves earlier credentials in place. It
only ever adds `CURLOPT_PROXYUSERPWD` and never removes it. `WithProxy` states
this.

`newToken` puts the username, password and service into the query string
unencoded (see "## Findings"). The call URL carries `moodlewsrestformat=json`.

## Model

| member | source | states |
|---|---|---|
| `PhpStrings.TrimTrailingSlashes` | src/MoodleWSClient.php:63 | The stored site is a prefix of the argument. What was cut off is all `/` or `\`. What is left is empty or does not end in a slash. |
| `PhpStrings.TrimLeadingSlashes` | src/MoodleWSClient.php:68 | The result is a suffix of the argument. What was cut off is all `/` or `\`. What is left is empty or does not start with a slash. |
| `PhpStrings.UrlEncodeAlphabet` | src/MoodleWSClient.php:116-120 | The output is at least as long as the input and at most three times as long. It holds only `[A-Za-z0-9_.-]`, `+` and `%`, so never `&`, `=`, `[` or `]`. |
| `PhpStrings.DecodeEncode` | src/MoodleWSClient.php:120 | `urldecode(urlencode(s)) == s` for every byte string. |
| `PhpStrings.EncodeInjective` | src/MoodleWSClient.php:145 | Distinct keys or values never get the same encoding. |
| `PhpStrings.SplitJoin` | src/MoodleWSClient.php:152 | Exploding the `implode`d fields on `&` gives the fields back when none holds `&`. |
| `FormEncoding.LeafPaths` | src/MoodleWSClient.php:110-122 | The depth-first list of leaves, with their key paths, has one element per scalar leaf; an empty container has none. |
| `FormEncoding.ArrayFieldsPerLeaf` | src/MoodleWSClient.php:108-123 | Below the name `current`, the recursive helper emits one field per leaf, in depth-first order: `current[urlencode(k1)]...[urlencode(kn)]=urlencode(v)`. |
| `FormEncoding.PostFieldsPerLeaf` | src/MoodleWSClient.php:134-152 | The body's fields are exactly one per leaf, in depth-first order. The leaf at path k1..kn gives `urlencode(k1)[urlencode(k2)]...[urlencode(kn)]=urlencode(v)`. |
| `FormEncoding.FieldCount` | src/MoodleWSClient.php:139-152 | The number of fields equals the number of scalar leaves in the input. |
| `FormEncoding.TopLevelLeafField` | src/MoodleWSClient.php:148-149 | A top-level scalar entry gives exactly `urlencode(k)=urlencode(v)`, with no bracket. |
| `FormEncoding.EmptyContainerDropped` | src/MoodleWSClient.php:144-146 | An empty nested array emits no field at all, not even `k=` or `k[]=`. The fields around it are unchanged. |
| `FormEncoding.BracketsReadBack` | src/MoodleWSClient.php:116 | The bracketed name suffix reads back as the encoded keys, one per bracket pair. |
| `FormEncoding.FieldReadBack` | src/MoodleWSClient.php:120 | Every field is free of `&` and reads back as the key path and value it was made from. |
| `FormEncoding.RoundTrip` | src/MoodleWSClient.php:134-154 | The reference form reader, applied to the flattened body, returns every leaf with its key path, in depth-first order. |
| `FormEncoding.FormatPostdataInjective` | src/MoodleWSClient.php:134-154 | Two argument structures with the same body have the same leaves, key paths and order. |
| `WSClient.NormalizeEndpoint` | src/MoodleWSClient.php:67-69 | A truthy endpoint is stored as `/` plus the argument without its leading slashes. A falsy one (null, `""`, `"0"`) leaves `/webservice/rest/server.php`. Either way the stored endpoint starts with exactly one slash. |
| `WSClient.WithProxy` | src/MoodleWSClient.php:80-88 | Proxy type `HTTP`, host and port are always set. `user:pass` is set only when both are truthy; otherwise any earlier credentials stay. Every other option keeps its key and value. |
| `WSClient.Classify` | src/MoodleWSClient.php:196-209 | A status other than 200 throws with that status and curl's error text. At 200, a truthy `exception` throws with the server's `message`. Otherwise the decoded result is returned unchanged. Each outcome holds exactly when its condition does. |
| `WSClient.PostBody` | src/MoodleWSClient.php:182-187 | A scalar argument is sent verbatim. An array or object is sent as exactly the `&`-join of one field `urlencode(k1)[urlencode(k2)]...=urlencode(v)` per leaf, in depth-first order, and that body reads back as its leaves and key paths. |
| `WSClient.SelectArgs` | src/MoodleWSClient.php:214 | `__call` forwards its first argument, or an empty array whose body is empty. |
| `WSClient.TokenQuerySplitsPassword` | src/MoodleWSClient.php:245 | As written, a password `a&b` gives four query fields instead of three, and the password field holds only `a`. |
| `WSClient.EncodedTokenQueryReadsBack` | src/MoodleWSClient.php:245 | With every credential `urlencode`d, the query reads back as exactly username, password and service, whatever bytes they hold. |
| `WSClient.MoodleWSClient.constructor` | src/MoodleWSClient.php:59-70 | Stores the site with its trailing slashes removed and the normalised endpoint. Stores the token only when it is truthy, else null. Starts from the default curl options. Establishes `Valid()`. Token and endpoint default to null. |
| `WSClient.MoodleWSClient.SetToken` | src/MoodleWSClient.php:90-96 | `getToken()` afterwards returns exactly the token set. Site, endpoint and options are unchanged. |
| `WSClient.MoodleWSClient.SetupProxy` | src/MoodleWSClient.php:80-88 | The options become `WithProxy` of the old ones. Site, endpoint and token are unchanged. User and password default to null. |
| `WSClient.MoodleWSClient.FormatArrayPostdata` | src/MoodleWSClient.php:108-123 | The loop appends to `data` exactly the fields of the recursive definition, which `ArrayFieldsPerLeaf` shows are one per leaf in order. |
| `WSClient.MoodleWSClient.FormatPostdata` | src/MoodleWSClient.php:134-154 | The body is the `&`-join of one field per leaf in depth-first order, and the reference reader gets every leaf back from it. |
| `WSClient.Transport.Exchange` | src/MoodleWSClient.php:194-197 | One `curl_exec` (as in `call` here and in `get` at lines 226-229): the request is appended to the log and the answer is `respond` of it. |
| `WSClient.MoodleWSClient.Call` | src/MoodleWSClient.php:164-209 | A PHP-empty token (null, `""`, `"0"`) throws "Missing token" and leaves the transport's log unchanged. Otherwise exactly one POST is appended to the log, to `site . endpoint . '?wstoken=' . token . '&moodlewsrestformat=json&wsfunction=' . fn`. It carries the flattened or verbatim body and the configured options, and the response to it is classified. On a client in its `Valid()` state, the URL has exactly one `/` where the site meets the endpoint. The arguments default to `[]`. |
| `WSClient.MoodleWSClient.MagicCall` | src/MoodleWSClient.php:212-215 | `__call` changes the log exactly as `call` would with the first argument or `[]`, and returns the same result. With no argument the body is empty. |
| `WSClient.MoodleWSClient.Get` | src/MoodleWSClient.php:217-242 | There is no token check. Exactly one GET, of the site root plus the path, is appended to the log, and the response to it is classified as in `call`. |
| `WSClient.MoodleWSClient.NewToken` | src/MoodleWSClient.php:244-248 | Succeeds exactly when the token request comes back 200 without a truthy `exception`. It then returns the response's `token`; otherwise it throws what `get` throws. Exactly one GET, of `/login/token.php` with the query, is appended to the log. The client's own state is left alone: the method may modify only the log. The service defaults to `admin`, as in the PHP signature. |

## Left out

- Network transport: `curl_init`, `curl_exec`, `curl_getinfo`, `curl_error`, TLS, timeouts and redirects. The exchange is the `Transport` object, whose answers are a fixed function of the request. The options are carried as data.
- `json_decode`: the decoded body is the abstract `Decoded`, holding only the four properties the client reads. A non-object result, or an object without `exception`, is a `Decoded` with `exception == None`.
- Logger calls (lines 177, 189, 204, 236), including the logging of `debuginfo`: they are side effects on a PSR-3 collaborator and do not change any result.
- `upload` (lines 258-280): multipart file streaming through `CURLFile`. Its only check, the status test, is the one `Classify` models.
- PHP objects versus arrays, integer versus string keys, and non-string scalars (`true`, `null`, numbers): one container constructor with byte-string keys and byte-string leaves stands for all of them.
- `WSClient.Classify`: when the server's error object has no `message`, PHP raises a `TypeError` from the exception's typed constructor. The model instead returns a `RemoteError` carrying `None`.
- Rebuilding the nested array from the leaf paths that the reader returns is not proved. The round trip stops at the depth-first list of leaves and key paths.
- `__call` is also reached for the protected `call` and `get` when they are called from outside the class. The model has no visibility, so it does not capture this.
- `WSClient.MoodleWSClient.FormatArrayPostdata`: its `ensures` is stated against the recursive definition `ArrayFields`. The one-field-per-leaf reading is the separate lemma `ArrayFieldsPerLeaf`.

## Findings

| source | as written | input that shows it | evidently intended | confidence | as-written member | corrected member |
|---|---|---|---|---|---|---|
| src/MoodleWSClient.php:245 | `newToken` interpolates username, password and service into the query string without `urlencode` | password `p&q`: the server reads four fields, and the password field is `p` | each credential `urlencode`d, so the server reads back exactly the three values given | medium; not executed | `WSClient.TokenQuerySplitsPassword` | `WSClient.EncodedTokenQueryReadsBack` |

The client method `NewToken` keeps the query as written, so that the model of
the class stays faithful to the code. `EncodedTokenQuery` is the corrected
query, and `EncodedTokenQueryReadsBack` proves its property.
