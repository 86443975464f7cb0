/**
 * `checkUserBanStatus`: whether a signed-in user is banned, decided from the
 * `restrict_account` record (permanent bans) first and from the account's
 * `status` and `bannedUntil` fields (temporary bans) second. Errors fail open.
 */
module BanUtils {
  import opened Base
  import opened Text
  import opened Store

  /** The details shown for a ban. Dates are integer timestamps. */
  datatype BanInfo = BanInfo(
    reason: string,
    bannedAt: int,
    bannedBy: string,
    permanent: bool,
    bannedUntil: Option<int>)

  datatype BanStatus = BanStatus(isBanned: bool, banInfo: Option<BanInfo>)

  const NotBanned := BanStatus(false, None)

  /** Which of the two lookups would throw, if any (network or permission failure). */
  datatype Fault = NoFault | RestrictQueryFails | UserDocFails

  const NoReason := "No reason provided"

  /** The ban details built from a `restrict_account` record (shared with the banned page). */
  function InfoFromRestrict(rec: RestrictRecord, now: int): (info: BanInfo)
    ensures info.permanent <==> rec.permanent == Some(true)
    ensures info.bannedUntil.None?
    ensures info.reason != "" && info.bannedBy != ""
    ensures info.reason == (if rec.reason == "" then NoReason else rec.reason)
    ensures info.bannedBy == (if rec.bannedBy == "" then "System" else rec.bannedBy)
    ensures info.bannedAt == (if rec.bannedAt.Some? then rec.bannedAt.value else now)
  {
    BanInfo(Or(rec.reason, NoReason), rec.bannedAt.GetOr(now), Or(rec.bannedBy, "System"),
            rec.permanent == Some(true), None)
  }

  /** The account is banned according to the stored data, stated over the collections:
      some restrict record names it, or its status is "banned" with no expiry or an expiry
      still in the future. */
  predicate BannedBySpec(db: Db, uid: string, now: int) {
    (exists i :: 0 <= i < |db.restrict| && db.restrict[i].uid == uid)
    || (uid in db.users && db.users[uid].status == "banned"
        && (db.users[uid].bannedUntil.None? || now < db.users[uid].bannedUntil.value))
  }

  function CheckUserBanStatus(db: Db, uid: string, now: int, fault: Fault): (r: BanStatus)
    ensures r.banInfo.Some? <==> r.isBanned
    ensures r.isBanned ==> r.banInfo.value.reason != ""
    ensures fault == NoFault ==> (r.isBanned <==> BannedBySpec(db, uid, now))
    ensures fault == RestrictQueryFails ==> r == NotBanned
    ensures fault != RestrictQueryFails && RestrictFor(db.restrict, uid) != [] ==>
              r.banInfo == Some(InfoFromRestrict(RestrictFor(db.restrict, uid)[0], now))
    ensures fault != RestrictQueryFails && RestrictFor(db.restrict, uid) == [] && r.isBanned ==>
              uid in db.users
              && var u := db.users[uid];
                 && r.banInfo.value.reason == (if u.bannedReason == "" then NoReason else u.bannedReason)
                 && r.banInfo.value.bannedAt == (if u.bannedAt.Some? then u.bannedAt.value else now)
                 && r.banInfo.value.bannedBy == "System"
                 && !r.banInfo.value.permanent
                 && r.banInfo.value.bannedUntil == u.bannedUntil
  {
    if fault == RestrictQueryFails then NotBanned
    else
      var hits := RestrictFor(db.restrict, uid);
      RestrictForNonEmpty(db.restrict, uid);
      if hits != [] then
        BanStatus(true, Some(InfoFromRestrict(hits[0], now)))
      else if fault == UserDocFails || uid !in db.users then
        NotBanned
      else
        var u := db.users[uid];
        if u.status != "banned" then NotBanned
        else
          var isBanned := if u.bannedUntil.Some? then now < u.bannedUntil.value else true;
          if isBanned then
            BanStatus(true, Some(BanInfo(Or(u.bannedReason, NoReason), u.bannedAt.GetOr(now),
                                         "System", false, u.bannedUntil)))
          else NotBanned
  }

  /** `isUserBanned(uid)`: the boolean half of the status. */
  function IsUserBanned(db: Db, uid: string, now: int, fault: Fault): (r: bool)
    ensures r == CheckUserBanStatus(db, uid, now, fault).isBanned
    ensures fault == NoFault ==> (r <==> BannedBySpec(db, uid, now))
  {
    CheckUserBanStatus(db, uid, now, fault).isBanned
  }

  /** A restrict record decides alone: banned, `permanent` from the record, no expiry, and
      neither the `users` collection nor a failure of its lookup changes the answer. */
  lemma RestrictRecordDecides(db: Db, users': map<string, UserDoc>, uid: string, now: int,
                              fault: Fault, fault': Fault)
    requires fault != RestrictQueryFails && fault' != RestrictQueryFails
    requires RestrictFor(db.restrict, uid) != []
    ensures var r := CheckUserBanStatus(db, uid, now, fault);
      && r.isBanned
      && r.banInfo.value.permanent == (RestrictFor(db.restrict, uid)[0].permanent == Some(true))
      && r.banInfo.value.bannedUntil.None?
      && r == CheckUserBanStatus(db.(users := users'), uid, now, fault')
  {
  }

  /** Status "banned" without `bannedUntil` is an open-ended ban issued by "System". */
  lemma StatusBanWithoutExpiry(db: Db, uid: string, now: int)
    requires RestrictFor(db.restrict, uid) == []
    requires uid in db.users && db.users[uid].status == "banned" && db.users[uid].bannedUntil.None?
    ensures var r := CheckUserBanStatus(db, uid, now, NoFault);
      r.isBanned && !r.banInfo.value.permanent && r.banInfo.value.bannedBy == "System"
  {
  }

  /** A temporary ban holds strictly before `bannedUntil`; from that instant on, access is back. */
  lemma {:induction false} TemporaryBanWindow(db: Db, uid: string, now: int, until: int)
    requires RestrictFor(db.restrict, uid) == []
    requires uid in db.users && db.users[uid].status == "banned"
    requires db.users[uid].bannedUntil == Some(until)
    ensures CheckUserBanStatus(db, uid, now, NoFault).isBanned <==> now < until
    ensures now >= until ==> CheckUserBanStatus(db, uid, now, NoFault) == NotBanned
  {
    RestrictForNonEmpty(db.restrict, uid);
  }

  /** Any status other than "banned", or no account document, means not banned. */
  lemma NotBannedWithoutStatus(db: Db, uid: string, now: int)
    requires RestrictFor(db.restrict, uid) == []
    requires uid !in db.users || db.users[uid].status != "banned"
    ensures CheckUserBanStatus(db, uid, now, NoFault) == NotBanned
  {
  }

  /** Fail-open: whichever lookup throws, the answer is "not banned". */
  lemma FailsOpen(db: Db, uid: string, now: int, fault: Fault)
    requires fault == RestrictQueryFails || (fault == UserDocFails && RestrictFor(db.restrict, uid) == [])
    ensures CheckUserBanStatus(db, uid, now, fault) == NotBanned
  {
  }
}
