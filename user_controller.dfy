/**
 * The eligibility check and the test-user upsert of
 * backend/controllers/userController.js.
 */
module UserController {
  import opened Common
  import opened JsText
  import opened UserModel

  const DAILY_LIMIT := 5

  const DEVICE_ID_REQUIRED := "Device ID required"
  const NOT_FOUND := "User not found"
  const BLOCKED := "User is blocked"
  const LIMIT_REACHED := "Daily limit reached"

  /** The HTTP status and JSON body `{ eligible, message }`. */
  datatype Eligibility = Eligibility(status: nat, eligible: bool, message: Option<string>)

  /** `checkEligibility`: the first failing test decides the message. */
  function CheckEligibility(deviceId: Option<string>, found: Option<UserRecord>): Eligibility {
    if !TruthyString(deviceId) then Eligibility(400, false, Some(DEVICE_ID_REQUIRED))
    else if found.None? then Eligibility(200, false, Some(NOT_FOUND))
    else if found.value.blocked then Eligibility(200, false, Some(BLOCKED))
    else if found.value.dailyMatches >= DAILY_LIMIT then Eligibility(200, false, Some(LIMIT_REACHED))
    else Eligibility(200, true, None)
  }

  /** A user is eligible exactly when found, not blocked and under the daily
      limit; only a missing deviceId is answered with 400. */
  lemma EligibleExactly(deviceId: Option<string>, found: Option<UserRecord>)
    ensures CheckEligibility(deviceId, found).eligible <==>
      TruthyString(deviceId) && found.Some? && !found.value.blocked && found.value.dailyMatches < DAILY_LIMIT
    ensures CheckEligibility(deviceId, found).status == 400 <==> !TruthyString(deviceId)
  {
  }

  /** A blocked user is turned away as blocked, whatever the daily count. */
  lemma BlockedBeatsDailyCount(deviceId: string, u: UserRecord)
    requires deviceId != "" && u.blocked
    ensures CheckEligibility(Some(deviceId), Some(u)) == Eligibility(200, false, Some(BLOCKED))
  {
  }

  /** `checkEligibility` against the collection. */
  function EligibilityIn(users: UserCollection, deviceId: Option<string>): (r: Eligibility)
    reads users
    ensures TruthyString(deviceId) && deviceId.value !in users.users ==> r == Eligibility(200, false, Some(NOT_FOUND))
  {
    CheckEligibility(deviceId, if deviceId.Some? then users.FindOne(deviceId.value) else None)
  }

  /** The document `findOneAndUpdate` leaves: `$set` gender, lastVerified and
      blocked; `$setOnInsert` dailyMatches 0. */
  function Upserted(existing: Option<UserRecord>, deviceId: string, gender: string, now: real): (u: UserRecord)
    ensures u.deviceId == (if existing.Some? then existing.value.deviceId else deviceId)
    ensures u.gender == Some(gender) && u.lastVerified == now && !u.blocked
    ensures u.dailyMatches == if existing.Some? then existing.value.dailyMatches else 0
    ensures existing.Some? ==> u.reportsCount == existing.value.reportsCount && u.reportScore == existing.value.reportScore
  {
    match existing
    case Some(e) => e.(gender := Some(gender), lastVerified := now, blocked := false)
    case None => UserRecord(deviceId, Some(gender), now, 0, false, None, None)
  }

  /** `createTestUser`: gender defaults to 'unknown' when the body has none. */
  method CreateTestUser(users: UserCollection, deviceId: Option<string>, gender: Option<string>, now: real) returns (status: nat, success: bool)
    requires users.Valid()
    modifies users
    ensures users.Valid()
    ensures success <==> TruthyString(deviceId)
    ensures status == if success then 200 else 400
    ensures !success ==> users.users == old(users.users)
    ensures success ==> users.users == old(users.users)[deviceId.value :=
      Upserted(old(users.FindOne(deviceId.value)), deviceId.value, gender.GetOr("unknown"), now)]
  {
    if !TruthyString(deviceId) {
      return 400, false;
    }
    var id := deviceId.value;
    users.Save(Upserted(users.FindOne(id), id, gender.GetOr("unknown"), now));
    return 200, true;
  }

  /** Re-creating an existing test user unblocks it but keeps its match count. */
  lemma UpsertKeepsDailyMatches(e: UserRecord, gender: string, now: real)
    ensures Upserted(Some(e), e.deviceId, gender, now).dailyMatches == e.dailyMatches
    ensures CheckEligibility(Some("d"), Some(Upserted(Some(e), e.deviceId, gender, now))).eligible <==> e.dailyMatches < DAILY_LIMIT
  {
  }
}
