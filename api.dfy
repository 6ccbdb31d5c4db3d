/** The client's gateway to the backend (src/services/api.js): the headers
    every request carries, the single error a failed call turns into, and
    the requests the endpoints build. `fetch` itself is not modelled: what
    it returns (or throws) is an input. */
module Api {
  import opened Wrappers
  import opened Text
  import opened JsValue
  import opened PlainObjects
  import Browser

  const ApiUrl := "http://localhost:3000/api/v1"
  const BackendDownMessage := "Backend server is not running. Please start: npm start in backend folder"
  const FallbackMessage := "API request failed"
  const TokenKey := "token"
  const UserKey := "user"

  // ---------------------------------------------------------------------
  // Headers, and the Bearer scheme of section 2.1 of RFC 6750.

  /** `localStorage.getItem('token')` over the storage contents. */
  function StoredToken(items: map<string, string>): Option<string> {
    if TokenKey in items then Some(items[TokenKey]) else None
  }

  /** The `Authorization` value for a token. */
  function BearerCredentials(token: string): string {
    "Bearer " + token
  }

  /** `getHeaders()`: always a JSON content type; an `Authorization`
      header exactly when the stored token is truthy. */
  function GetHeaders(items: map<string, string>): (headers: Fields)
    ensures Get(headers, "Content-Type") == Some("application/json")
    ensures Get(headers, "Authorization").Some? <==> Browser.Truthy(StoredToken(items))
    ensures Browser.Truthy(StoredToken(items)) ==>
      Get(headers, "Authorization") == Some(BearerCredentials(items[TokenKey]))
    ensures DistinctKeys(headers)
    ensures forall i :: 0 <= i < |headers| ==> headers[i].0 in {"Content-Type", "Authorization"}
  {
    var base := [("Content-Type", "application/json")];
    if Browser.Truthy(StoredToken(items)) then
      var h := base + [("Authorization", BearerCredentials(items[TokenKey]))];
      assert Get(h[1..], "Authorization").Some?;
      h
    else base
  }

  predicate IsB64TokenChar(c: char) {
    'A' <= c <= 'Z' || 'a' <= c <= 'z' || '0' <= c <= '9'
    || c == '-' || c == '.' || c == '_' || c == '~' || c == '+' || c == '/'
  }

  /** The length of the run of token characters `t` starts with. */
  function LeadingTokenChars(t: string): (k: nat)
    ensures k <= |t|
    ensures forall i :: 0 <= i < k ==> IsB64TokenChar(t[i])
    ensures k < |t| ==> !IsB64TokenChar(t[k])
    decreases |t|
  {
    if |t| == 0 || !IsB64TokenChar(t[0]) then 0
    else
      var k := 1 + LeadingTokenChars(t[1..]);
      assert forall i :: 1 <= i < k ==> t[i] == t[1..][i - 1];
      k
  }

  /** `b64token = 1*( ALPHA / DIGIT / "-" / "." / "_" / "~" / "+" / "/" ) *"="`. */
  predicate IsB64Token(t: string) {
    var k := LeadingTokenChars(t);
    k > 0 && forall i :: k <= i < |t| ==> t[i] == '='
  }

  function SkipSpaces(s: string): (r: string)
    ensures |r| <= |s|
    ensures |r| > 0 ==> r[0] != ' '
    ensures |s| > 0 && s[0] != ' ' ==> r == s
    decreases |s|
  {
    if |s| > 0 && s[0] == ' ' then SkipSpaces(s[1..]) else s
  }

  /** Reads `credentials = "Bearer" 1*SP b64token`, giving the token. */
  function ParseBearer(h: string): Option<string> {
    if StartsWith(h, "Bearer ") then
      var t := SkipSpaces(h[7..]);
      if IsB64Token(t) then Some(t) else None
    else None
  }

  /** The header the client builds is read back as its token exactly when
      the token has the syntax section 2.1 of RFC 6750 gives it; the
      client itself sends whatever token is stored. */
  lemma BearerRoundTrip(token: string)
    ensures ParseBearer(BearerCredentials(token)) == Some(token) <==> IsB64Token(token)
  {
    var h := BearerCredentials(token);
    assert h[..7] == "Bearer " && h[7..] == token;
    if |token| > 0 && token[0] == ' ' {
      assert !IsB64TokenChar(token[0]);
      assert !IsB64Token(token);
      var t := SkipSpaces(token);
      assert |t| < |token| by {
        assert SkipSpaces(token) == SkipSpaces(token[1..]);
      }
    }
  }

  /** A header is only ever sent with a non-empty token, as a b64token
      must be. */
  lemma AuthorizationNeverEmpty(items: map<string, string>)
    requires Get(GetHeaders(items), "Authorization").Some?
    ensures TokenKey in items && |items[TokenKey]| > 0
    ensures Get(GetHeaders(items), "Authorization") == Some(BearerCredentials(items[TokenKey]))
  {
  }

  // ---------------------------------------------------------------------
  // Requests.

  /** The `options` argument of `apiCall` (`verb` is its `method`); `None`
      is an absent property.
      Bodies are kept as the JSON value `JSON.stringify` is given. */
  datatype RequestInit = RequestInit(verb: Option<string>, body: Option<Json>, headers: Option<Fields>)

  /** A call of `apiCall(url, options)`. */
  datatype Request = Request(path: string, options: RequestInit)

  /** What `apiCall` hands to `fetch`. */
  datatype FetchCall = FetchCall(url: string, init: RequestInit)

  /** `fetch(API_URL + url, { ...options, headers: getHeaders() })`: the
      computed headers replace whatever headers the caller gave. */
  function FetchCallOf(request: Request, items: map<string, string>): (call: FetchCall)
    ensures call.url == ApiUrl + request.path
    ensures call.init.verb == request.options.verb
    ensures call.init.body == request.options.body
    ensures call.init.headers == Some(GetHeaders(items))
  {
    FetchCall(ApiUrl + request.path, request.options.(headers := Some(GetHeaders(items))))
  }

  /** Whatever headers two callers pass, the same storage yields the same
      request on the wire. */
  lemma CallerHeadersIgnored(path: string, verb: Option<string>, body: Option<Json>, h1: Option<Fields>, h2: Option<Fields>, items: map<string, string>)
    ensures FetchCallOf(Request(path, RequestInit(verb, body, h1)), items)
         == FetchCallOf(Request(path, RequestInit(verb, body, h2)), items)
  {
  }

  // ---------------------------------------------------------------------
  // Error normalisation.

  /** What `response.json()` gives (or throws), and `response.ok`. */
  datatype Response = Response(ok: bool, body: Result<Json, JsError>)

  /** `fetch` either rejects or yields a response. */
  datatype FetchOutcome = Rejected(error: JsError) | Responded(response: Response)

  /** `${d.field}: ${d.message}` for one item of `details`: each property
      is read and then converted to text, left to right. */
  function DetailText(d: Json): (r: Result<string, JsError>)
    ensures r.Err? ==> r.error.name == "TypeError"
    ensures d.JNull? ==> r.Err?
    ensures d.JObj? ==>
      (r.Ok? <==> PrintableOpt(Lookup(d.members, "field")) && PrintableOpt(Lookup(d.members, "message")))
    ensures !d.JNull? && !d.JObj? ==> r == Ok("undefined: undefined")
  {
    assert "undefined" + ": " + "undefined" == "undefined: undefined";
    match Member(d, "field")
    case Err(e) => Err(e)
    case Ok(field) =>
      match ShowOpt(field)
      case Err(e) => Err(e)
      case Ok(f) =>
        match Member(d, "message")
        case Err(e) => Err(e)
        case Ok(message) =>
          match ShowOpt(message)
          case Err(e) => Err(e)
          case Ok(m) => Ok(f + ": " + m)
  }

  /** `details.map(...)`, which stops at the first item that throws and
      throws its error. */
  function DetailTexts(details: seq<Json>): (r: Result<seq<string>, JsError>)
    ensures r.Ok? <==> forall i :: 0 <= i < |details| ==> DetailText(details[i]).Ok?
    ensures r.Ok? ==> |r.value| == |details|
    ensures r.Ok? ==> forall i :: 0 <= i < |details| ==> DetailText(details[i]) == Ok(r.value[i])
    ensures r.Err? ==> r.error.name == "TypeError"
    decreases |details|
  {
    if |details| == 0 then Ok([])
    else
      match DetailText(details[0])
      case Err(e) => Err(e)
      case Ok(t) =>
        assert forall i :: 1 <= i < |details| ==> details[i] == details[1..][i - 1];
        match DetailTexts(details[1..])
        case Err(e) => Err(e)
        case Ok(ts) => Ok([t] + ts)
  }

  /** When the map stops, the error it throws is the first failing item's:
      every item before that one converts. */
  lemma {:induction false} DetailTextsFirstError(details: seq<Json>)
    requires DetailTexts(details).Err?
    ensures exists i :: (0 <= i < |details| && DetailText(details[i]) == Err(DetailTexts(details).error)
      && forall j :: 0 <= j < i ==> DetailText(details[j]).Ok?)
    decreases |details|
  {
    var e := DetailTexts(details).error;
    if DetailText(details[0]).Err? {
      assert DetailText(details[0]) == Err(e);
    } else {
      DetailTextsFirstError(details[1..]);
      var k :| 0 <= k < |details[1..]| && DetailText(details[1..][k]) == Err(e)
        && forall j :: 0 <= j < k ==> DetailText(details[1..][j]).Ok?;
      assert DetailText(details[k + 1]) == Err(e);
      assert forall j :: 1 <= j < k + 1 ==> details[j] == details[1..][j - 1];
    }
  }

  /** `new Error(x)`, where converting `x` to its message may throw first. */
  function NewError(message: Result<string, JsError>): (e: JsError)
    ensures message.Ok? ==> e == MakeError(message.value)
    ensures message.Err? ==> e == message.error
  {
    match message
    case Ok(m) => MakeError(m)
    case Err(e) => e
  }

  /** `new Error(data.error || data.details || 'API request failed')`. */
  function ChosenError(error: Option<Json>, details: Option<Json>): (e: JsError)
    ensures e == NoPrimitive || e.name == "Error"
  {
    if Truthy(error) then NewError(Show(error.value))
    else if Truthy(details) then NewError(Show(details.value))
    else MakeError(FallbackMessage)
  }

  /** The error a non-ok response with body `data` is turned into. */
  function FailureError(data: Json): (e: JsError)
    ensures e.name == "Error" || e.name == "TypeError"
    ensures data.JNull? ==> e.name == "TypeError"
  {
    match Member(data, "details")
    case Err(e) => e
    case Ok(details) =>
      if Truthy(details) && details.value.JArr? then
        match DetailTexts(details.value.items)
        case Err(e) => e
        case Ok(texts) => MakeError(Join(texts, ", "))
      else
        match Member(data, "error")
        case Err(e) => e
        case Ok(error) => ChosenError(error, details)
  }

  /** The `try` block of `apiCall`: a value only from an ok response whose
      body parses, and otherwise the error raised on the way. */
  function TryCall(outcome: FetchOutcome): (r: Result<Json, JsError>)
    ensures r.Ok? <==> outcome.Responded? && outcome.response.ok && outcome.response.body.Ok?
    ensures r.Ok? ==> r.value == outcome.response.body.value
    ensures outcome.Rejected? ==> r == Err(outcome.error)
    ensures outcome.Responded? && outcome.response.body.Err? ==> r == Err(outcome.response.body.error)
  {
    match outcome
    case Rejected(e) => Err(e)
    case Responded(response) =>
      match response.body
      case Err(e) => Err(e)
      case Ok(data) => if response.ok then Ok(data) else Err(FailureError(data))
  }

  /** A `TypeError` that mentions `fetch` is how a browser reports that it
      could not reach the server. */
  predicate IsFetchFailure(e: JsError) {
    e.name == "TypeError" && Includes(e.message, "fetch")
  }

  /** The `catch` block of `apiCall`: what it throws is never again taken
      for a network failure, so a second pass changes nothing. */
  function Rethrow(e: JsError): (r: JsError)
    ensures !IsFetchFailure(r)
    ensures r == e || r == MakeError(BackendDownMessage)
  {
    if IsFetchFailure(e) then MakeError(BackendDownMessage) else e
  }

  /** `apiCall(url, options)`, given what `fetch` does. */
  function ApiCall(outcome: FetchOutcome): (r: Result<Json, JsError>)
    ensures r.Ok? ==> outcome == Responded(Response(true, Ok(r.value)))
    ensures r.Err? ==> !IsFetchFailure(r.error)
  {
    match TryCall(outcome)
    case Ok(data) => Ok(data)
    case Err(e) => Err(Rethrow(e))
  }

  /** The call succeeds exactly on an ok response whose body parses, and
      then yields that body unchanged. */
  lemma ApiCallSucceeds(outcome: FetchOutcome, data: Json)
    ensures ApiCall(outcome) == Ok(data) <==> outcome == Responded(Response(true, Ok(data)))
  {
  }

  /** A non-ok response with a `details` array of objects whose `field`
      and `message` convert to text fails with the items as
      `field: message`, in order, joined by `, `. */
  lemma DetailsMessage(members: seq<(string, Json)>, details: seq<Json>)
    requires Lookup(members, "details") == Some(JArr(details))
    requires forall i :: 0 <= i < |details| ==> (details[i].JObj?
      && PrintableOpt(Lookup(details[i].members, "field")) && PrintableOpt(Lookup(details[i].members, "message")))
    ensures DetailTexts(details).Ok?
    ensures ApiCall(Responded(Response(false, Ok(JObj(members)))))
         == Err(MakeError(Join(DetailTexts(details).value, ", ")))
    ensures forall i :: 0 <= i < |details| ==>
      DetailTexts(details).value[i]
        == ShowOpt(Lookup(details[i].members, "field")).value + ": "
           + ShowOpt(Lookup(details[i].members, "message")).value
  {
    var texts := DetailTexts(details).value;
    var e := MakeError(Join(texts, ", "));
    assert FailureError(JObj(members)) == e by {
      assert Member(JObj(members), "details") == Ok(Some(JArr(details)));
    }
    assert TryCall(Responded(Response(false, Ok(JObj(members))))) == Err(e);
    assert Rethrow(e) == e;
    forall i | 0 <= i < |details|
      ensures texts[i] == ShowOpt(Lookup(details[i].members, "field")).value + ": "
                          + ShowOpt(Lookup(details[i].members, "message")).value
    {
      assert DetailText(details[i]) == Ok(texts[i]);
    }
  }

  /** A `details` array whose map throws turns into that error. */
  lemma DetailsFailure(members: seq<(string, Json)>, details: seq<Json>)
    requires Lookup(members, "details") == Some(JArr(details))
    requires DetailTexts(details).Err?
    ensures FailureError(JObj(members)) == DetailTexts(details).error
  {
    assert Member(JObj(members), "details") == Ok(Some(JArr(details)));
  }

  /** When an item of a `details` array throws (a `null` item, or a
      `field` or `message` with its own `toString`), the call fails with
      the first such item's error, not with a message. */
  lemma DetailsThrow(members: seq<(string, Json)>, details: seq<Json>)
    requires Lookup(members, "details") == Some(JArr(details))
    requires exists i :: 0 <= i < |details| && DetailText(details[i]).Err?
    ensures DetailTexts(details).Err?
    ensures ApiCall(Responded(Response(false, Ok(JObj(members)))))
         == Err(Rethrow(DetailTexts(details).error))
  {
    assert DetailTexts(details).Err?;
    var e := DetailTexts(details).error;
    DetailsFailure(members, details);
    assert TryCall(Responded(Response(false, Ok(JObj(members))))) == Err(e);
  }

  /** A text without the letter `f` never mentions `fetch`. */
  lemma NoFetchWithoutF(s: string)
    requires forall i :: 0 <= i < |s| ==> s[i] != 'f'
    ensures !Includes(s, "fetch")
  {
    IncludesIffOccurs(s, "fetch");
    forall i ensures !OccursAt(s, "fetch", i) {
      if 0 <= i <= |s| - 5 {
        assert s[i..i + 5][0] == s[i];
      }
    }
  }

  /** The error of a failed conversion to text is thrown on unchanged. */
  lemma NoPrimitiveKept()
    ensures Rethrow(NoPrimitive) == NoPrimitive
  {
    NoPrimitiveMessage();
    NoFetchWithoutF(NoPrimitive.message);
  }

  /** `{"details":[{"field":{"toString":"x"},"message":"m"}]}` with a
      non-ok status makes `apiCall` throw the conversion's `TypeError`. */
  lemma OwnToStringThrows()
    ensures ApiCall(Responded(Response(false, Ok(JObj([("details", JArr([
              JObj([("field", JObj([("toString", JStr("x"))])), ("message", JStr("m"))])]))])))))
         == Err(NoPrimitive)
  {
    var item := JObj([("field", JObj([("toString", JStr("x"))])), ("message", JStr("m"))]);
    assert DetailText(item) == Err(NoPrimitive) by {
      assert Member(item, "field") == Ok(Some(JObj([("toString", JStr("x"))])));
    }
    assert DetailTexts([item]) == Err(NoPrimitive);
    DetailsThrow([("details", JArr([item]))], [item]);
    NoPrimitiveKept();
  }

  /** When no item holds a comma, the message splits back into the items. */
  lemma DetailsMessageSplits(texts: seq<string>)
    requires |texts| > 0
    requires forall i :: 0 <= i < |texts| ==> ',' !in texts[i]
    ensures Split(Join(texts, ", "), ", ") == texts
  {
    SplitJoin(texts, ", ");
  }

  lemma FailureErrorFallback(members: seq<(string, Json)>)
    requires !(Lookup(members, "details").Some? && Lookup(members, "details").value.JArr?)
    ensures FailureError(JObj(members)) == ChosenError(Lookup(members, "error"), Lookup(members, "details"))
  {
    assert Member(JObj(members), "details") == Ok(Lookup(members, "details"));
    assert Member(JObj(members), "error") == Ok(Lookup(members, "error"));
  }

  /** Without a `details` array the message is `data.error`, else
      `data.details`, else the fixed fallback, whichever is truthy first;
      converting the chosen value to text may throw instead. */
  lemma FallbackMessageOrder(members: seq<(string, Json)>)
    requires !(Lookup(members, "details").Some? && Lookup(members, "details").value.JArr?)
    ensures var r := ApiCall(Responded(Response(false, Ok(JObj(members)))));
      var error, details := Lookup(members, "error"), Lookup(members, "details");
      r == Err(
        if Truthy(error) then NewError(Show(error.value))
        else if Truthy(details) then NewError(Show(details.value))
        else MakeError(FallbackMessage))
  {
    var error, details := Lookup(members, "error"), Lookup(members, "details");
    var e := ChosenError(error, details);
    var outcome := Responded(Response(false, Ok(JObj(members))));
    assert TryCall(outcome) == Err(e) by {
      FailureErrorFallback(members);
    }
    assert ApiCall(outcome) == Err(e) by {
      ChosenErrorKept(error, details);
    }
  }

  /** The errors of the fallback chain are thrown on unchanged. */
  lemma ChosenErrorKept(error: Option<Json>, details: Option<Json>)
    ensures Rethrow(ChosenError(error, details)) == ChosenError(error, details)
  {
    if ChosenError(error, details) == NoPrimitive {
      NoPrimitiveKept();
    }
  }

  /** The rewrite, stated by occurrence rather than by scanning: exactly
      the `TypeError`s whose message has `fetch` somewhere become the
      backend-down error; every other error passes through unchanged. */
  lemma RethrowSpec(e: JsError)
    ensures (e.name == "TypeError" && exists i :: OccursAt(e.message, "fetch", i))
        ==> Rethrow(e) == MakeError(BackendDownMessage)
    ensures !(e.name == "TypeError" && exists i :: OccursAt(e.message, "fetch", i))
        ==> Rethrow(e) == e
  {
    IncludesIffOccurs(e.message, "fetch");
  }

  /** The network failures of the common browsers are reported as the
      backend being down. */
  lemma BrowserNetworkFailures()
    ensures Rethrow(JsError("TypeError", "Failed to fetch")) == MakeError(BackendDownMessage)
    ensures Rethrow(JsError("TypeError", "NetworkError when attempting to fetch resource."))
         == MakeError(BackendDownMessage)
  {
    IncludesInfix("Failed to ", "fetch", "");
    assert "Failed to " + "fetch" + "" == "Failed to fetch";
    IncludesInfix("NetworkError when attempting to ", "fetch", " resource.");
    assert "NetworkError when attempting to " + "fetch" + " resource."
        == "NetworkError when attempting to fetch resource.";
  }

  // ---------------------------------------------------------------------
  // Endpoints.

  function Post(path: string, body: Json): Request {
    Request(path, RequestInit(Some("POST"), Some(body), None))
  }

  function GetRequest(path: string): Request {
    Request(path, RequestInit(Some("GET"), None, None))
  }

  /** An object literal as `JSON.stringify` sees it: properties whose value
      is `undefined` are left out, the others keep their order. */
  function Defined(members: seq<(string, Option<Json>)>): (r: seq<(string, Json)>)
    ensures |r| <= |members|
    ensures forall k, v :: (k, v) in r <==> (k, Some(v)) in members
    decreases |members|
  {
    if |members| == 0 then []
    else
      var rest := Defined(members[1..]);
      assert forall m :: m in members <==> m == members[0] || m in members[1..];
      if members[0].1.Some? then [(members[0].0, members[0].1.value)] + rest else rest
  }

  /** Leaving out `undefined` properties works piecewise, so the defined
      properties keep their relative order. */
  lemma {:induction false} DefinedAppend(a: seq<(string, Option<Json>)>, b: seq<(string, Option<Json>)>)
    ensures Defined(a + b) == Defined(a) + Defined(b)
    decreases |a|
  {
    if |a| > 0 {
      assert (a + b)[0] == a[0] && (a + b)[1..] == a[1..] + b;
      DefinedAppend(a[1..], b);
    } else {
      assert a + b == b;
    }
  }

  /** `auth.loginPatient(patientId, password)`: the server finds the
      credentials under `patientId` and `password`. */
  function LoginPatient(patientId: string, password: string): (r: Request)
    ensures r.options.verb == Some("POST") && r.options.body.Some? && r.options.body.value.JObj?
    ensures Lookup(r.options.body.value.members, "patientId") == Some(JStr(patientId))
    ensures Lookup(r.options.body.value.members, "password") == Some(JStr(password))
  {
    Post("/auth/login/patient", JObj([("patientId", JStr(patientId)), ("password", JStr(password))]))
  }

  /** `auth.loginDoctor(doctorId, password)`: the server finds the
      credentials under `doctorId` and `password`. */
  function LoginDoctor(doctorId: string, password: string): (r: Request)
    ensures r.options.verb == Some("POST") && r.options.body.Some? && r.options.body.value.JObj?
    ensures Lookup(r.options.body.value.members, "doctorId") == Some(JStr(doctorId))
    ensures Lookup(r.options.body.value.members, "password") == Some(JStr(password))
  {
    Post("/auth/login/doctor", JObj([("doctorId", JStr(doctorId)), ("password", JStr(password))]))
  }

  /** `access.grant(patientId, doctorId, durationHours, purpose)`. */
  function Grant(patientId: Option<Json>, doctorId: Option<Json>, durationHours: Option<Json>, purpose: Option<Json>): Request {
    Post("/access/grant", JObj(Defined([
      ("patientID", patientId), ("doctorID", doctorId),
      ("durationHours", durationHours), ("purpose", purpose)])))
  }

  /** The grant body carries the four arguments, in order, under the four
      fixed names, when all four are given. */
  lemma GrantBody(patientId: Json, doctorId: Json, durationHours: Json, purpose: Json)
    ensures Grant(Some(patientId), Some(doctorId), Some(durationHours), Some(purpose))
         == Post("/access/grant", JObj([
              ("patientID", patientId), ("doctorID", doctorId),
              ("durationHours", durationHours), ("purpose", purpose)]))
  {
    var ms := [("patientID", Some(patientId)), ("doctorID", Some(doctorId)),
               ("durationHours", Some(durationHours)), ("purpose", Some(purpose))];
    assert ms[3..][1..] == [] && ms[2..][1..] == ms[3..] && ms[1..][1..] == ms[2..];
    assert Defined(ms[3..]) == [("purpose", purpose)];
    assert Defined(ms[2..]) == [("durationHours", durationHours), ("purpose", purpose)];
    assert Defined(ms[1..]) == [("doctorID", doctorId), ("durationHours", durationHours), ("purpose", purpose)];
    assert Defined(ms) == [("patientID", patientId), ("doctorID", doctorId), ("durationHours", durationHours), ("purpose", purpose)];
    assert Grant(Some(patientId), Some(doctorId), Some(durationHours), Some(purpose)) == Post("/access/grant", JObj(Defined(ms)));
  }

  /** `access.revoke(accessKey)`: the key reads back from the body as
      given; an `undefined` key leaves the body `{}`. */
  function Revoke(accessKey: Option<Json>): (r: Request)
    ensures r.path == "/access/revoke" && r.options.verb == Some("POST")
    ensures r.options.body.Some? && r.options.body.value.JObj?
    ensures Lookup(r.options.body.value.members, "accessKey") == accessKey
    ensures accessKey.None? ==> r.options.body == Some(JObj([]))
  {
    Post("/access/revoke", JObj(Defined([("accessKey", accessKey)])))
  }

  /** `access.checkValidity(accessKey)`: the key is written into the path,
      which throws when it does not convert to text. */
  function CheckValidity(accessKey: Option<Json>): (r: Result<Request, JsError>)
    ensures r.Ok? <==> PrintableOpt(accessKey)
    ensures r.Err? ==> r.error == NoPrimitive
    ensures r.Ok? ==> StartsWith(r.value.path, "/access/check/") && r.value.options.verb == Some("GET")
    ensures accessKey.None? ==> r == Ok(GetRequest("/access/check/undefined"))
  {
    assert "/access/check/" + "undefined" == "/access/check/undefined";
    match ShowOpt(accessKey)
    case Err(e) => Err(e)
    case Ok(k) => Ok(GetRequest("/access/check/" + k))
  }

  /** `access.getActiveAccesses(patientId)`, likewise. */
  function GetActiveAccesses(patientId: Option<Json>): (r: Result<Request, JsError>)
    ensures r.Ok? <==> PrintableOpt(patientId)
    ensures r.Err? ==> r.error == NoPrimitive
    ensures r.Ok? ==> StartsWith(r.value.path, "/access/patient/") && r.value.options.verb == Some("GET")
    ensures patientId.None? ==> r == Ok(GetRequest("/access/patient/undefined"))
  {
    assert "/access/patient/" + "undefined" == "/access/patient/undefined";
    match ShowOpt(patientId)
    case Err(e) => Err(e)
    case Ok(id) => Ok(GetRequest("/access/patient/" + id))
  }

  /** The methods `api.access` has. */
  const AccessMethods := ["grant", "revoke", "checkValidity", "getActiveAccesses"]

  /** An argument of a JavaScript call: a missing one is `undefined`. */
  function Arg(args: seq<Option<Json>>, i: nat): Option<Json> {
    if i < |args| then args[i] else None
  }

  /** `api.access[name](...args)`: calling a method `api.access` does not
      have throws a `TypeError`, and so does a path argument that does not
      convert to text. */
  function CallAccess(name: string, args: seq<Option<Json>>): (r: Result<Request, JsError>)
    ensures r.Ok? <==> (name in AccessMethods
      && (name == "checkValidity" || name == "getActiveAccesses" ==> PrintableOpt(Arg(args, 0))))
    ensures r.Err? ==> r.error.name == "TypeError"
  {
    if name == "grant" then Ok(Grant(Arg(args, 0), Arg(args, 1), Arg(args, 2), Arg(args, 3)))
    else if name == "revoke" then Ok(Revoke(Arg(args, 0)))
    else if name == "checkValidity" then CheckValidity(Arg(args, 0))
    else if name == "getActiveAccesses" then GetActiveAccesses(Arg(args, 0))
    else Err(JsError("TypeError", "api.access." + name + " is not a function"))
  }

  // ---------------------------------------------------------------------
  // Logout.

  /** Storage after `token` and `user` are removed. */
  function ClearSession(items: map<string, string>): (r: map<string, string>)
    ensures TokenKey !in r && UserKey !in r
    ensures forall k :: k in items && k != TokenKey && k != UserKey ==> k in r && r[k] == items[k]
    ensures r.Keys <= items.Keys
  {
    items - {TokenKey, UserKey}
  }

  /** `api.auth.logout()`. */
  method AuthLogout(storage: Browser.LocalStorage)
    modifies storage
    ensures storage.items == ClearSession(old(storage.items))
  {
    storage.RemoveItem(TokenKey);
    storage.RemoveItem(UserKey);
  }

  /** Logging out twice is logging out once. */
  lemma ClearSessionIdempotent(items: map<string, string>)
    ensures ClearSession(ClearSession(items)) == ClearSession(items)
  {
  }

  /** After logout no request carries credentials. */
  lemma NoCredentialsAfterLogout(items: map<string, string>)
    ensures Get(GetHeaders(ClearSession(items)), "Authorization") == None
  {
  }
}
