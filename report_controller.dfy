/**
 * `submitReport` of backend/controllers/reportController.js: one report per
 * (match, reporter), stored for 30 days, and a soft reputation update of the
 * reported user with a three-strikes block.
 */
module ReportController {
  import opened Common
  import opened JsText
  import opened UserModel

  const REPORT_TTL: nat := 30 * 24 * 60 * 60
  const STRIKES := 3
  const POINTS_PER_REPORT := 10

  /** The fields of the request body. */
  datatype ReportBody = ReportBody(
    matchId: Option<string>,
    reporterId: Option<string>,
    reportedId: Option<string>,
    reason: Option<string>,
    customReason: Option<string>,
    timestamp: Option<real>)

  /** The stored report metadata; `customReason` is `null` unless the reason
      is "other". */
  datatype ReportData = ReportData(
    matchId: string,
    reporterId: string,
    reportedId: string,
    reason: string,
    customReason: Option<string>,
    time: real)

  predicate Complete(b: ReportBody) {
    TruthyString(b.matchId) && TruthyString(b.reporterId) && TruthyString(b.reportedId) && TruthyString(b.reason)
  }

  function ReportKey(matchId: string, reporterId: string): string {
    "report:" + matchId + ":" + reporterId
  }

  /** Two different (match, reporter) pairs can share a key when an id
      contains ':'; the second reporter is then refused as a repeat. */
  lemma ReportKeysCanCollide()
    ensures ReportKey("a:b", "c") == ReportKey("a", "b:c")
  {
  }

  function ReportDataOf(b: ReportBody, now: real): (d: ReportData)
    requires Complete(b)
    ensures d.customReason == if b.reason == Some("other") then b.customReason else None
    ensures d.time == if TruthyNumber(b.timestamp) then b.timestamp.value else now
  {
    ReportData(b.matchId.value, b.reporterId.value, b.reportedId.value, b.reason.value,
               if b.reason.value == "other" then b.customReason else None,
               if TruthyNumber(b.timestamp) then b.timestamp.value else now)
  }

  /** The reputation update of one accepted report. */
  function Reported(u: UserRecord): (r: UserRecord)
    ensures r.reportsCount == Some(u.reportsCount.GetOr(0) + 1)
    ensures r.reportScore == Some(u.reportScore.GetOr(0) + POINTS_PER_REPORT)
    ensures r.blocked <==> u.blocked || u.reportsCount.GetOr(0) + 1 >= STRIKES
    ensures r.deviceId == u.deviceId && r.dailyMatches == u.dailyMatches && r.gender == u.gender
  {
    var count := u.reportsCount.GetOr(0) + 1;
    u.(reportsCount := Some(count),
       reportScore := Some(u.reportScore.GetOr(0) + POINTS_PER_REPORT),
       blocked := if count >= STRIKES then true else u.blocked)
  }

  /** `n` accepted reports in a row. */
  function ReportedTimes(u: UserRecord, n: nat): UserRecord {
    if n == 0 then u else Reported(ReportedTimes(u, n - 1))
  }

  /** After `n` reports the counters have grown by `n` and `10 n`; a block is
      never lifted, and it is in place once the count reaches three. */
  lemma {:induction false} ReportedTimesCounts(u: UserRecord, n: nat)
    ensures ReportedTimes(u, n).reportsCount.GetOr(0) == u.reportsCount.GetOr(0) + n
    ensures ReportedTimes(u, n).reportScore.GetOr(0) == u.reportScore.GetOr(0) + POINTS_PER_REPORT * n
    ensures u.blocked ==> ReportedTimes(u, n).blocked
    ensures n > 0 && u.reportsCount.GetOr(0) + n >= STRIKES ==> ReportedTimes(u, n).blocked
  {
    if n > 0 {
      ReportedTimesCounts(u, n - 1);
    }
  }

  /** A fresh, unblocked user stays eligible by reputation for two reports and
      is blocked by the third. */
  lemma ThirdStrikeBlocks(u: UserRecord)
    requires u.reportsCount.None? && !u.blocked
    ensures !ReportedTimes(u, 2).blocked
    ensures ReportedTimes(u, 3).blocked
  {
    assert ReportedTimes(u, 1) == Reported(u);
    assert ReportedTimes(u, 2) == Reported(Reported(u));
  }

  /** The report keys in Redis. */
  class ReportLog {
    var reports: map<string, ReportData>
    var ttl: map<string, nat>

    constructor()
      ensures reports == map[] && ttl == map[]
    {
      reports := map[];
      ttl := map[];
    }
  }

  /** `submitReport`: 400 for a missing field, 429 for a repeat, otherwise
      store the report and update a known reported user; 200 either way. */
  method SubmitReport(log: ReportLog, users: UserCollection, b: ReportBody, now: real) returns (status: nat)
    requires users.Valid()
    modifies log, users
    ensures users.Valid()
    ensures status == if !Complete(b) then 400
      else if ReportKey(b.matchId.value, b.reporterId.value) in old(log.reports) then 429
      else 200
    ensures status != 200 ==> log.reports == old(log.reports) && log.ttl == old(log.ttl) && users.users == old(users.users)
    ensures status == 200 ==>
      var key := ReportKey(b.matchId.value, b.reporterId.value);
      && log.reports == old(log.reports)[key := ReportDataOf(b, now)]
      && log.ttl == old(log.ttl)[key := REPORT_TTL]
      && users.users == if b.reportedId.value in old(users.users)
           then old(users.users)[b.reportedId.value := Reported(old(users.users)[b.reportedId.value])]
           else old(users.users)
  {
    if !Complete(b) {
      return 400;
    }
    var key := ReportKey(b.matchId.value, b.reporterId.value);
    if key in log.reports {
      return 429;
    }
    log.reports := log.reports[key := ReportDataOf(b, now)];
    log.ttl := log.ttl[key := REPORT_TTL];
    var user := users.FindOne(b.reportedId.value);
    if user.Some? {
      users.Save(Reported(user.value));
    }
    return 200;
  }
}
