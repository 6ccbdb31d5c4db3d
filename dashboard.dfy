/** The patient's dashboard (src/pages/PatientDashboard.jsx): the form that
    grants a doctor access, the list of active grants with their countdown,
    and revocation. The clock, the backend's answers and the user's answer
    to the confirmation dialog are inputs. */
module Dashboard {
  import opened Wrappers
  import opened Text
  import opened JsValue
  import opened PlainObjects
  import Api

  const DurationOptions := ["1", "6", "24", "168"]
  const DefaultDuration := "24"
  const PurposeOptions := ["Routine Checkup", "Surgery", "Lab Results", "Emergency"]
  const DefaultPurpose := "Routine Checkup"
  const GrantedAlert := "Access Granted Successfully!"

  // ---------------------------------------------------------------------
  // The countdown of an active grant.

  /** `Math.floor((key.expiryTime - Date.now()) / 1000 / 60)` over whole
      milliseconds, taking the expiry after its conversion to a number;
      `None` is `NaN`, from an expiry that converts to `NaN`. */
  function MinutesLeft(expiry: Option<int>, now: int): (m: Option<int>)
    ensures m.Some? <==> expiry.Some?
    ensures m.Some? ==> m.value * 60000 <= expiry.value - now < (m.value + 1) * 60000
  {
    match expiry
    case None => None
    case Some(e) => Some((e - now) / 60000)
  }

  /** `minutesLeft > 0 ? `${minutesLeft}m left` : 'Expired'`: a countdown
      exactly for a positive number of minutes, and `parseInt` reads that
      number back from it. */
  function Label(minutes: Option<int>): (s: string)
    ensures s != "Expired" <==> minutes.Some? && minutes.value > 0
    ensures s != "Expired" ==> ParseInt(s) == minutes
  {
    if minutes.Some? && minutes.value > 0 then
      var s := NatToString(minutes.value) + "m left";
      ParseIntOfNatText(minutes.value, "m left");
      assert s[|s| - 1] == 't';
      s
    else "Expired"
  }

  /** `minutesLeft < 60`, which picks the danger colour: every expired
      countdown gets it, and `NaN`, which compares false, never does. */
  function Warning(minutes: Option<int>): (w: bool)
    ensures minutes.None? ==> !w
    ensures minutes.Some? && Label(minutes) == "Expired" ==> w
  {
    minutes.Some? && minutes.value < 60
  }

  /** A countdown is shown exactly when at least a whole minute is left,
      and it is never a number below one: reading it back with `parseInt`
      gives the minutes left. */
  lemma CountdownShown(expiry: int, now: int)
    ensures Label(MinutesLeft(Some(expiry), now)) != "Expired" <==> expiry - now >= 60000
    ensures expiry - now >= 60000 ==>
      var m := MinutesLeft(Some(expiry), now).value;
      m >= 1 && ParseInt(Label(Some(m))) == Some(m)
  {
  }

  /** The danger colour is used exactly when less than an hour is left,
      expired grants included. */
  lemma WarningWithinTheHour(expiry: int, now: int)
    ensures Warning(MinutesLeft(Some(expiry), now)) <==> expiry - now < 3600000
    ensures Label(MinutesLeft(Some(expiry), now)) == "Expired" ==> Warning(MinutesLeft(Some(expiry), now))
  {
    CountdownShown(expiry, now);
  }

  /** An expiry that converts to `NaN` reads as expired yet not as urgent. */
  lemma NotANumber(now: int)
    ensures Label(MinutesLeft(None, now)) == "Expired" && !Warning(MinutesLeft(None, now))
  {
  }

  /** Time only ever runs down. */
  lemma MinutesLeftMonotone(expiry: int, now1: int, now2: int)
    requires now1 <= now2
    ensures MinutesLeft(Some(expiry), now2).value <= MinutesLeft(Some(expiry), now1).value
  {
  }

  // ---------------------------------------------------------------------
  // The form's choices.

  /** Every duration choice parses to a positive number of hours, the
      last being a week. */
  lemma DurationChoices()
    ensures DefaultDuration in DurationOptions
    ensures forall d :: d in DurationOptions ==> ParseInt(d).Some? && ParseInt(d).value > 0
    ensures ParseInt("1") == Some(1) && ParseInt("6") == Some(6)
    ensures ParseInt("24") == Some(24) && ParseInt("168") == Some(7 * 24)
  {
    assert ParseInt("1") == Some(1) by {
      ParsesOwnText(1);
    }
    assert ParseInt("6") == Some(6) by {
      ParsesOwnText(6);
    }
    assert ParseInt("24") == Some(24) by {
      ParsesOwnText(24);
      assert NatToString(2) == "2";
      assert NatToString(24) == "24";
    }
    assert ParseInt("168") == Some(168) by {
      ParsesOwnText(168);
      assert NatToString(1) == "1";
      assert NatToString(16) == "16";
      assert NatToString(168) == "168";
    }
  }

  /** The text `String(n)` of a natural number parses back to `n`. */
  lemma ParsesOwnText(n: nat)
    ensures ParseInt(NatToString(n)) == Some(n)
  {
    ParseIntOfNatText(n, "");
    assert NatToString(n) + "" == NatToString(n);
  }

  /** The purpose choices are four distinct texts, the first the default. */
  lemma PurposeChoices()
    ensures DefaultPurpose == PurposeOptions[0]
    ensures forall i, j :: 0 <= i < j < |PurposeOptions| ==> PurposeOptions[i] != PurposeOptions[j]
  {
  }

  // ---------------------------------------------------------------------
  // Loading the active grants.

  /** `user.patientID`; reading a property of `null` throws. */
  function PatientIdArg(user: Option<Fields>): Result<Option<Json>, JsError> {
    match user
    case None => Err(JsError("TypeError", "Cannot read properties of null (reading 'patientID')"))
    case Some(u) =>
      match Get(u, "patientID")
      case None => Ok(None)
      case Some(id) => Ok(Some(JStr(id)))
  }

  /** `api.access.getActiveKeys(user.patientID)`: the method the page
      calls, which `api.access` does not have. */
  function LoadCall(user: Option<Fields>): (r: Result<Api.Request, JsError>)
    ensures r.Err? && r.error.name == "TypeError"
  {
    assert "getActiveKeys" !in Api.AccessMethods;
    match PatientIdArg(user)
    case Err(e) => Err(e)
    case Ok(id) => Api.CallAccess("getActiveKeys", [id])
  }

  /** `data.activeKeys || []`: throws only on a `null` response, and the
      list it yields is always truthy. */
  function KeysFrom(data: Json): (r: Result<Json, JsError>)
    ensures r.Err? <==> data.JNull?
    ensures r.Ok? ==> Truthy(Some(r.value))
  {
    match Member(data, "activeKeys")
    case Err(e) => Err(e)
    case Ok(keys) => Ok(if Truthy(keys) then keys.value else JArr([]))
  }

  /** The list after `loadActiveKeys`: any error is caught and leaves it
      as it was. */
  function KeysAfterLoad(keys: Json, user: Option<Fields>, response: Result<Json, JsError>): Json {
    match LoadCall(user)
    case Err(_) => keys
    case Ok(_) =>
      match response
      case Err(_) => keys
      case Ok(data) =>
        match KeysFrom(data)
        case Err(_) => keys
        case Ok(loaded) => loaded
  }

  /** A response object yields its `activeKeys` when truthy and `[]`
      otherwise; a `null` response throws. */
  lemma KeysFromResponse(members: seq<(string, Json)>)
    ensures var v := Lookup(members, "activeKeys");
      KeysFrom(JObj(members)) == Ok(if Truthy(v) then v.value else JArr([]))
    ensures KeysFrom(JNull).Err?
  {
  }

  /** As written the call always throws (the method is missing), so
      loading never changes the list. */
  lemma LoadNeverChangesKeys(keys: Json, user: Option<Fields>, response: Result<Json, JsError>)
    ensures LoadCall(user).Err?
    ensures KeysAfterLoad(keys, user, response) == keys
  {
    assert "getActiveKeys" !in Api.AccessMethods;
  }

  /** `NaN` is written as `null` by `JSON.stringify`. */
  function NumberJson(n: Option<int>): Json {
    match n
    case Some(v) => JNum(v)
    case None => JNull
  }

  /** The arguments of `api.access.grant(doctorID, parseInt(duration), purpose)`. */
  function GrantArgs(doctorID: string, duration: string, purpose: string): seq<Option<Json>> {
    [Some(JStr(doctorID)), Some(NumberJson(ParseInt(duration))), Some(JStr(purpose))]
  }

  /** With three arguments for four parameters, the body sends the doctor's
      ID as `patientID`, the hours as `doctorID`, the purpose as
      `durationHours`, and no `purpose` and no patient ID at all. */
  lemma GrantAsCalled(doctorID: string, hours: int, duration: string, purpose: string)
    requires ParseInt(duration) == Some(hours)
    ensures Api.CallAccess("grant", GrantArgs(doctorID, duration, purpose))
         == Ok(Api.Post("/access/grant", JObj([
              ("patientID", JStr(doctorID)), ("doctorID", JNum(hours)),
              ("durationHours", JStr(purpose))])))
  {
    var ms := [("patientID", Some(JStr(doctorID))), ("doctorID", Some(JNum(hours))),
               ("durationHours", Some(JStr(purpose))), ("purpose", None)];
    assert ms[3..][1..] == [] && ms[2..][1..] == ms[3..] && ms[1..][1..] == ms[2..];
    assert Api.Defined(ms[3..]) == [];
    assert Api.Defined(ms[2..]) == [("durationHours", JStr(purpose))];
    assert Api.Defined(ms[1..]) == [("doctorID", JNum(hours)), ("durationHours", JStr(purpose))];
    assert Api.Defined(ms) == [("patientID", JStr(doctorID)), ("doctorID", JNum(hours)), ("durationHours", JStr(purpose))];
  }

  /** The `doctorID` values a grant from the form can carry. */
  const SentHours := {Some(JNum(1)), Some(JNum(6)), Some(JNum(24)), Some(JNum(168))}

  /** Whatever duration is chosen, the grant body's `doctorID` is that
      number of hours. */
  lemma GrantSendsHours(doctorID: string, duration: string, purpose: string)
    requires duration in DurationOptions
    ensures var r := Api.CallAccess("grant", GrantArgs(doctorID, duration, purpose));
      && r.Ok? && r.value.options.body.Some? && r.value.options.body.value.JObj?
      && Lookup(r.value.options.body.value.members, "doctorID") in SentHours
  {
    DurationChoices();
    var hours := ParseInt(duration).value;
    assert Some(JNum(hours)) in SentHours;
    GrantAsCalled(doctorID, hours, duration, purpose);
  }

  // ---------------------------------------------------------------------
  // The page's state.

  class PatientDashboard {
    var activeKeys: Json
    var loading: bool
    var doctorID: string
    var duration: string
    var purpose: string

    /** The two selects only ever hold one of their options. */
    predicate Valid()
      reads this
    {
      duration in DurationOptions && purpose in PurposeOptions
    }

    /** The initial `useState` values. */
    constructor()
      ensures Valid()
      ensures activeKeys == JArr([]) && !loading && doctorID == ""
      ensures duration == DefaultDuration && purpose == DefaultPurpose
    {
      activeKeys := JArr([]);
      loading := false;
      doctorID := "";
      duration := DefaultDuration;
      purpose := DefaultPurpose;
    }

    /** Typing in the doctor ID field. */
    method EnterDoctorID(value: string)
      modifies this
      ensures doctorID == value
      ensures activeKeys == old(activeKeys) && loading == old(loading)
      ensures duration == old(duration) && purpose == old(purpose)
    {
      doctorID := value;
    }

    /** Choosing a duration; the select only offers its options. */
    method SelectDuration(value: string)
      requires Valid() && value in DurationOptions
      modifies this
      ensures Valid() && duration == value
      ensures activeKeys == old(activeKeys) && loading == old(loading)
      ensures doctorID == old(doctorID) && purpose == old(purpose)
    {
      duration := value;
    }

    /** Choosing a purpose; the select only offers its options. */
    method SelectPurpose(value: string)
      requires Valid() && value in PurposeOptions
      modifies this
      ensures Valid() && purpose == value
      ensures activeKeys == old(activeKeys) && loading == old(loading)
      ensures doctorID == old(doctorID) && duration == old(duration)
    {
      purpose := value;
    }

    /** `loadActiveKeys()`, given what the backend would answer; returns
        the request it makes, or the error that stops it. */
    method LoadActiveKeys(user: Option<Fields>, response: Result<Json, JsError>)
      returns (request: Result<Api.Request, JsError>)
      modifies this
      ensures request == LoadCall(user)
      ensures activeKeys == KeysAfterLoad(old(activeKeys), user, response)
      ensures activeKeys == old(activeKeys)
      ensures loading == old(loading) && doctorID == old(doctorID)
      ensures duration == old(duration) && purpose == old(purpose)
    {
      LoadNeverChangesKeys(activeKeys, user, response);
      request := LoadCall(user);
      var keys := activeKeys;
      match request {
        case Err(_) =>
        case Ok(_) =>
          match response {
            case Err(_) =>
            case Ok(data) =>
              match KeysFrom(data) {
                case Err(_) =>
                case Ok(loaded) => keys := loaded;
              }
          }
      }
      activeKeys := keys;
    }

    /** The part of `handleGrantAccess` before its `await`: the button
        shows as busy and the grant request is sent. */
    method SubmitGrant() returns (request: Api.Request)
      requires Valid()
      modifies this
      ensures loading
      ensures request.options.body.Some? && request.options.body.value.JObj?
      ensures Lookup(request.options.body.value.members, "doctorID") in SentHours
      ensures Api.CallAccess("grant", GrantArgs(doctorID, duration, purpose)) == Ok(request)
      ensures activeKeys == old(activeKeys) && doctorID == old(doctorID)
      ensures duration == old(duration) && purpose == old(purpose)
    {
      loading := true;
      GrantSendsHours(doctorID, duration, purpose);
      var call := Api.CallAccess("grant", GrantArgs(doctorID, duration, purpose));
      request := call.value;
    }

    /** The rest of `handleGrantAccess`, once the grant call settles:
        success clears the doctor ID and reloads the list, failure alerts
        the error; either way the button is released. */
    method GrantSettled(user: Option<Fields>, response: Result<Json, JsError>, reload: Result<Json, JsError>)
      returns (alert: string)
      requires Valid()
      modifies this
      ensures Valid() && !loading
      ensures response.Ok? ==> alert == GrantedAlert && doctorID == ""
      ensures response.Err? ==> alert == "Error: " + response.error.message && doctorID == old(doctorID)
      ensures activeKeys == old(activeKeys)
      ensures duration == old(duration) && purpose == old(purpose)
    {
      match response {
        case Ok(_) =>
          alert := GrantedAlert;
          doctorID := "";
          var _ := LoadActiveKeys(user, reload);
        case Err(e) =>
          alert := "Error: " + e.message;
      }
      loading := false;
    }

    /** `handleRevoke(accessKey)`: nothing happens unless the user confirms;
        then the revoke request is sent, and a failure is alerted. */
    method HandleRevoke(confirmed: bool, accessKey: Option<Json>, user: Option<Fields>,
                        response: Result<Json, JsError>, reload: Result<Json, JsError>)
      returns (request: Option<Api.Request>, alert: Option<string>)
      modifies this
      ensures !confirmed ==> request.None? && alert.None?
      ensures confirmed ==> request == Some(Api.Revoke(accessKey))
      ensures confirmed && response.Err? ==> alert == Some("Error: " + response.error.message)
      ensures response.Ok? ==> alert.None?
      ensures activeKeys == old(activeKeys) && loading == old(loading) && doctorID == old(doctorID)
      ensures duration == old(duration) && purpose == old(purpose)
    {
      if !confirmed {
        return None, None;
      }
      var call := Api.CallAccess("revoke", [accessKey]);
      request := Some(call.value);
      match response {
        case Ok(_) =>
          var _ := LoadActiveKeys(user, reload);
          alert := None;
        case Err(e) =>
          alert := Some("Error: " + e.message);
      }
    }
  }
}
