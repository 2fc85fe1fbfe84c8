/**
 * A user document of backend/models/User.js, and the collection the
 * controllers read and update, keyed by the unique `deviceId`.
 *
 * The schema declares deviceId, gender, lastVerified, dailyMatches and
 * blocked. The report controller also reads and writes `reportsCount` and
 * `reportScore`, which the schema does not declare; the record carries them
 * as optional fields so that the controller's logic can be stated.
 */
module UserModel {
  import opened Common

  datatype UserRecord = UserRecord(
    deviceId: string,
    gender: Option<string>,
    lastVerified: real,
    dailyMatches: int,
    blocked: bool,
    reportsCount: Option<int>,
    reportScore: Option<int>)

  /** The documents of the collection, stored under their own deviceId. */
  predicate Keyed(users: map<string, UserRecord>) {
    forall id :: id in users ==> users[id].deviceId == id
  }

  class UserCollection {
    var users: map<string, UserRecord>

    ghost predicate Valid()
      reads this
    {
      Keyed(users)
    }

    constructor()
      ensures Valid() && users == map[]
    {
      users := map[];
    }

    /** `User.findOne({ deviceId })`. */
    function FindOne(deviceId: string): (r: Option<UserRecord>)
      reads this
      ensures r.Some? <==> deviceId in users
      ensures r.Some? ==> r.value == users[deviceId]
    {
      if deviceId in users then Some(users[deviceId]) else None
    }

    /** `user.save()` of a document read from this collection. */
    method Save(u: UserRecord)
      requires Valid()
      modifies this
      ensures Valid()
      ensures users == old(users)[u.deviceId := u]
    {
      users := users[u.deviceId := u];
    }
  }
}
