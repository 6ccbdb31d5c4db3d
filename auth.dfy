/** The session (src/context/AuthContext.jsx): the signed-in user kept in
    memory and in browser storage, restored at start-up, set by `login`
    and cleared by `logout`. */
module Auth {
  import opened Wrappers
  import opened JsValue
  import opened PlainObjects
  import Browser
  import Api
  import Routes

  /** What `login` reads of the response body: `data.token`, and the
      `data.doctor` or `data.patient` payload (`None` when it is
      `undefined` or `null`, which spread to nothing). */
  datatype LoginData = LoginData(token: Option<Json>, doctor: Option<Fields>, patient: Option<Fields>)

  /** What `login` resolves to: `{ success: true }` or
      `{ success: false, error }`. */
  datatype LoginResult = LoginResult(success: bool, error: Option<string>)

  /** How the start-up effect ends: a user restored, nothing to restore,
      or a stored user that `JSON.parse` does not read as a user (the
      effect then throws before `setLoading(false)`). */
  datatype RestoreOutcome = Restored(user: Fields) | NothingSaved | Unreadable

  /** The start-up effect over the storage contents: a restored user is
      what the stored user text reads back as. */
  function RestoreFrom(items: map<string, string>): (r: RestoreOutcome)
    ensures r.Restored? ==> Api.UserKey in items && Parse(items[Api.UserKey]) == Some(r.user)
    ensures r.Unreadable? ==> Api.UserKey in items && Parse(items[Api.UserKey]).None?
    ensures !r.NothingSaved? ==> Browser.Truthy(Api.StoredToken(items))
  {
    var token := Api.StoredToken(items);
    var saved := if Api.UserKey in items then Some(items[Api.UserKey]) else None;
    if Browser.Truthy(token) && Browser.Truthy(saved) then
      match Parse(saved.value)
      case Some(u) => Restored(u)
      case None => Unreadable
    else NothingSaved
  }

  /** `role === 'doctor'`; `None` is the default `'patient'`. */
  predicate IsDoctor(role: Option<string>) {
    role == Some("doctor")
  }

  /** The role the branch taken forces onto the user. */
  function BranchRole(role: Option<string>): string {
    if IsDoctor(role) then "doctor" else "patient"
  }

  function LoginRequest(id: string, password: string, role: Option<string>): Api.Request {
    if IsDoctor(role) then Api.LoginDoctor(id, password) else Api.LoginPatient(id, password)
  }

  /** The payload the branch spreads. */
  function Payload(data: LoginData, role: Option<string>): Fields {
    (if IsDoctor(role) then data.doctor else data.patient).GetOr([])
  }

  /** `{ ...payload, role }`: the branch's role, whatever the payload says. */
  function NormalizedUser(data: LoginData, role: Option<string>): (u: Fields)
    ensures Get(u, "role") == Some(BranchRole(role))
  {
    Put(Payload(data, role), "role", BranchRole(role))
  }

  /** Storage after a successful login, given the token's text (`setItem`
      stores `String(token)`, so a missing token is stored as `undefined`):
      the two items are written and every other item is kept. */
  function ItemsAfterLogin(items: map<string, string>, token: string, user: Fields): (r: map<string, string>)
    ensures Api.StoredToken(r) == Some(token)
    ensures Api.UserKey in r && r[Api.UserKey] == Stringify(user)
    ensures forall k :: k in items && k != Api.TokenKey && k != Api.UserKey ==> k in r && r[k] == items[k]
    ensures r.Keys == items.Keys + {Api.TokenKey, Api.UserKey}
  {
    items[Api.TokenKey := token][Api.UserKey := Stringify(user)]
  }

  class AuthProvider {
    var user: Option<Fields>
    var loading: bool
    const storage: Browser.LocalStorage

    /** `useState(null)` and `useState(true)`. */
    constructor(storage: Browser.LocalStorage)
      ensures user == None && loading
      ensures this.storage == storage
    {
      user := None;
      loading := true;
      this.storage := storage;
    }

    /** The start-up effect. */
    method Restore() returns (outcome: RestoreOutcome)
      modifies this
      ensures outcome == RestoreFrom(storage.items)
      ensures outcome.Restored? ==> user == Some(outcome.user) && !loading
      ensures outcome.NothingSaved? ==> user == old(user) && !loading
      ensures outcome.Unreadable? ==> user == old(user) && loading == old(loading)
    {
      var token := storage.GetItem(Api.TokenKey);
      var saved := storage.GetItem(Api.UserKey);
      if Browser.Truthy(token) && Browser.Truthy(saved) {
        var parsed := Parse(saved.value);
        if parsed.None? {
          return Unreadable;
        }
        user := parsed;
        outcome := Restored(parsed.value);
      } else {
        outcome := NothingSaved;
      }
      loading := false;
    }

    /** `login(id, password, role)`, given what the backend call yields;
        also returns the request it sends. */
    method Login(id: string, password: string, role: Option<string>, response: Result<LoginData, JsError>)
      returns (request: Api.Request, result: LoginResult)
      modifies this, storage
      ensures request == LoginRequest(id, password, role)
      ensures response.Ok? && ShowOpt(response.value.token).Ok? ==>
        && result == LoginResult(true, None)
        && storage.items == ItemsAfterLogin(old(storage.items), ShowOpt(response.value.token).value,
                                            NormalizedUser(response.value, role))
        && user == Some(NormalizedUser(response.value, role))
      ensures response.Ok? && ShowOpt(response.value.token).Err? ==>
        && result == LoginResult(false, Some(NoPrimitive.message))
        && storage.items == old(storage.items)
        && user == old(user)
      ensures response.Err? ==>
        && result == LoginResult(false, Some(response.error.message))
        && storage.items == old(storage.items)
        && user == old(user)
      ensures loading == old(loading)
    {
      if IsDoctor(role) {
        request := Api.LoginDoctor(id, password);
        if response.Err? {
          return request, LoginResult(false, Some(response.error.message));
        }
        var data := response.value;
        var token := ShowOpt(data.token);
        if token.Err? {
          return request, LoginResult(false, Some(token.error.message));
        }
        storage.SetItem(Api.TokenKey, token.value);
        var userObj := Put(data.doctor.GetOr([]), "role", "doctor");
        storage.SetItem(Api.UserKey, Stringify(userObj));
        user := Some(userObj);
      } else {
        request := Api.LoginPatient(id, password);
        if response.Err? {
          return request, LoginResult(false, Some(response.error.message));
        }
        var data := response.value;
        var token := ShowOpt(data.token);
        if token.Err? {
          return request, LoginResult(false, Some(token.error.message));
        }
        storage.SetItem(Api.TokenKey, token.value);
        var userObj := Put(data.patient.GetOr([]), "role", "patient");
        storage.SetItem(Api.UserKey, Stringify(userObj));
        user := Some(userObj);
      }
      result := LoginResult(true, None);
    }

    /** `logout()`. */
    method Logout()
      modifies this, storage
      ensures storage.items == Api.ClearSession(old(storage.items))
      ensures user == None && loading == old(loading)
    {
      storage.RemoveItem(Api.TokenKey);
      storage.RemoveItem(Api.UserKey);
      user := None;
    }
  }

  /** Start-up restores a user only when both items are stored and
      non-empty; otherwise it leaves the user alone and stops loading. */
  lemma RestoreNeedsBoth(items: map<string, string>)
    ensures RestoreFrom(items).NothingSaved?
        <==> !(Api.TokenKey in items && items[Api.TokenKey] != ""
               && Api.UserKey in items && items[Api.UserKey] != "")
  {
  }

  /** A stored user written by another JSON writer, with an emoji as the
      escapes of its UTF-16 pair, is restored with the emoji. */
  lemma EscapedUserRestored()
    ensures RestoreFrom(map[Api.TokenKey := "t", Api.UserKey := "{\"a\":\"\\ud83d\\ude00\"}"])
         == Restored([("a", [0x1F600 as char])])
  {
    ParseEscapedEmoji();
  }

  /** The branch taken: only the role `doctor` signs in as a doctor. */
  lemma BranchRoles(role: Option<string>)
    ensures BranchRole(role) == "doctor" <==> role == Some("doctor")
    ensures BranchRole(role) == "patient" <==> role != Some("doctor")
    ensures LoginRequest("", "", role).path
         == (if role == Some("doctor") then "/auth/login/doctor" else "/auth/login/patient")
  {
  }

  /** The forced role wins over any `role` in the payload, and every other
      property of the payload is kept. */
  lemma NormalizedRole(data: LoginData, role: Option<string>, k: string)
    ensures k != "role" ==> Get(NormalizedUser(data, role), k) == Get(Payload(data, role), k)
  {
    if k != "role" {
      PutOthers(Payload(data, role), "role", BranchRole(role), k);
    }
  }

  /** What a login stores is what a later start-up restores: the same user
      as the one kept in memory, unless the stored token text is empty. */
  lemma LoginThenRestore(items: map<string, string>, token: string, data: LoginData, role: Option<string>)
    requires DistinctKeys(Payload(data, role))
    ensures RestoreFrom(ItemsAfterLogin(items, token, NormalizedUser(data, role)))
         == if token != "" then Restored(NormalizedUser(data, role)) else NothingSaved
  {
    var u := NormalizedUser(data, role);
    PutDistinct(Payload(data, role), "role", BranchRole(role));
    ParseStringify(u);
  }

  /** After a login, requests carry the stored token as Bearer credentials
      unless its text is empty. */
  lemma LoginThenHeaders(items: map<string, string>, token: string, user: Fields)
    ensures var h := Get(Api.GetHeaders(ItemsAfterLogin(items, token, user)), "Authorization");
      h == if token != "" then Some(Api.BearerCredentials(token)) else None
  {
  }

  /** After logout nothing is restored and no request carries credentials. */
  lemma LogoutThenNothing(items: map<string, string>)
    ensures RestoreFrom(Api.ClearSession(items)) == NothingSaved
    ensures Get(Api.GetHeaders(Api.ClearSession(items)), "Authorization") == None
  {
  }

  /** A signed-in user lands on their own dashboard: a doctor sent to the
      patient dashboard is redirected to the doctor dashboard, which shows. */
  lemma LoginThenDashboard(data: LoginData, role: Option<string>)
    ensures var u := NormalizedUser(data, role);
      if IsDoctor(role) then
        && Routes.Visit("/dashboard", false, Some(u)) == Routes.Redirected("/doctor-dashboard")
        && Routes.Visit("/doctor-dashboard", false, Some(u)) == Routes.Shows(Routes.DoctorDashboard)
      else
        && Routes.Visit("/doctor-dashboard", false, Some(u)) == Routes.Redirected("/dashboard")
        && Routes.Visit("/dashboard", false, Some(u)) == Routes.Shows(Routes.PatientDashboard)
  {
    Routes.RouteGates(NormalizedUser(data, role));
  }
}
