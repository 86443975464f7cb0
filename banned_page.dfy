/**
 * The "/banned" page: it loads the ban details of the signed-in user once, sends
 * everybody who turns out not to be banned elsewhere, and labels the ban as
 * permanent, temporary or expired.
 */
module BannedPage {
  import opened Base
  import opened Text
  import opened Store
  import opened BanUtils

  /** Where one run of the page's effect ends: details to show, or a navigation. */
  datatype Outcome = ShowInfo(info: BanInfo) | Redirect(route: string)

  /** The account is banned as far as the page can tell: it never looks at `bannedUntil`. */
  predicate BannedIgnoringExpiry(db: Db, uid: string) {
    (exists i :: 0 <= i < |db.restrict| && db.restrict[i].uid == uid)
    || (uid in db.users && db.users[uid].status == "banned")
  }

  /** The effect's decision for a signed-in user. A throwing lookup lands in the `catch`,
      which goes home. */
  function PageOutcome(db: Db, uid: string, now: int, fault: Fault): (o: Outcome)
    ensures o.Redirect? ==> o.route == "/" || o.route == "/dashboard"
    ensures fault == NoFault ==> (o.ShowInfo? <==> BannedIgnoringExpiry(db, uid))
    ensures o.ShowInfo? ==> o.info.reason != "" && o.info.bannedBy != ""
    ensures fault == RestrictQueryFails ==> o == Redirect("/")
    ensures fault != RestrictQueryFails && RestrictFor(db.restrict, uid) != [] ==>
              o == ShowInfo(InfoFromRestrict(RestrictFor(db.restrict, uid)[0], now))
    ensures fault != RestrictQueryFails && RestrictFor(db.restrict, uid) == [] && o.ShowInfo? ==>
              uid in db.users
              && var u := db.users[uid];
                 o.info == BanInfo(if u.bannedReason == "" then NoReason else u.bannedReason, now, "System",
                                false, u.bannedUntil)
  {
    if fault == RestrictQueryFails then Redirect("/")
    else
      var hits := RestrictFor(db.restrict, uid);
      RestrictForNonEmpty(db.restrict, uid);
      if hits != [] then ShowInfo(InfoFromRestrict(hits[0], now))
      else if fault == UserDocFails then Redirect("/")
      else if uid !in db.users then Redirect("/")
      else
        var u := db.users[uid];
        if u.status == "banned" then
          ShowInfo(BanInfo(Or(u.bannedReason, NoReason), now, "System", false, u.bannedUntil))
        else Redirect("/dashboard")
  }

  /** `isTemporaryBanExpired()`: a temporary ban with an end strictly in the past. */
  predicate IsTemporaryBanExpired(info: Option<BanInfo>, now: int) {
    info.Some? && !info.value.permanent && info.value.bannedUntil.Some?
    && now > info.value.bannedUntil.value
  }

  /** The yellow "Temporary Suspension" notice. */
  predicate ShowsTemporaryNotice(info: Option<BanInfo>, now: int) {
    info.Some? && !info.value.permanent && !IsTemporaryBanExpired(info, now) && info.value.bannedUntil.Some?
  }

  /** The green "Ban Has Expired" notice. */
  predicate ShowsExpiredNotice(info: Option<BanInfo>, now: int) {
    IsTemporaryBanExpired(info, now)
  }

  /** The badge over the details. */
  function BadgeLabel(info: BanInfo, now: int): (badge: string)
    ensures info.permanent <==> badge == "Permanent Ban"
    ensures badge == "Ban Expired" <==> IsTemporaryBanExpired(Some(info), now)
  {
    if info.permanent then "Permanent Ban"
    else if IsTemporaryBanExpired(Some(info), now) then "Ban Expired"
    else "Temporary Ban"
  }

  /** A ban with an end date shows exactly one of the two notices; any other ban neither. */
  lemma NoticesExclusive(info: Option<BanInfo>, now: int)
    ensures !(ShowsTemporaryNotice(info, now) && ShowsExpiredNotice(info, now))
    ensures ShowsTemporaryNotice(info, now) || ShowsExpiredNotice(info, now)
            <==> info.Some? && !info.value.permanent && info.value.bannedUntil.Some?
  {
  }

  /** Whoever `checkUserBanStatus` finds banned gets the details here too, with the same
      reason, issuer, kind and end. */
  lemma BannedUserSeesInfo(db: Db, uid: string, now: int)
    requires CheckUserBanStatus(db, uid, now, NoFault).isBanned
    ensures var o := PageOutcome(db, uid, now, NoFault);
      var b := CheckUserBanStatus(db, uid, now, NoFault).banInfo.value;
      && o.ShowInfo?
      && o.info.reason == b.reason && o.info.bannedBy == b.bannedBy
      && o.info.permanent == b.permanent && o.info.bannedUntil == b.bannedUntil
  {
  }

  /** After a temporary ban runs out the wrapper lets the user in, yet this page still
      shows the details, labelled "Ban Expired" once the end is strictly past. */
  lemma ExpiredBanStillShown(db: Db, uid: string, now: int, until: int)
    requires RestrictFor(db.restrict, uid) == []
    requires uid in db.users && db.users[uid].status == "banned"
    requires db.users[uid].bannedUntil == Some(until) && until < now
    ensures !CheckUserBanStatus(db, uid, now, NoFault).isBanned
    ensures var o := PageOutcome(db, uid, now, NoFault);
      o.ShowInfo? && BadgeLabel(o.info, now) == "Ban Expired" && ShowsExpiredNotice(Some(o.info), now)
  {
    TemporaryBanWindow(db, uid, now, until);
  }

  /** At the very instant the ban ends the two checks disagree: access is already back
      (`now < bannedUntil` is false) while the page still says "Temporary Ban". */
  lemma ExpiryInstant(db: Db, uid: string, until: int)
    requires RestrictFor(db.restrict, uid) == []
    requires uid in db.users && db.users[uid].status == "banned"
    requires db.users[uid].bannedUntil == Some(until)
    ensures !CheckUserBanStatus(db, uid, until, NoFault).isBanned
    ensures var o := PageOutcome(db, uid, until, NoFault);
      o.ShowInfo? && BadgeLabel(o.info, until) == "Temporary Ban" && ShowsTemporaryNotice(Some(o.info), until)
  {
    TemporaryBanWindow(db, uid, until, until);
  }

  /** What the page renders. */
  datatype View = Spinner | Card(details: Option<BanInfo>)

  function Screen(loading: bool, loadingBanInfo: bool, banInfo: Option<BanInfo>): (v: View)
    ensures v.Spinner? <==> loading || loadingBanInfo
    ensures v.Card? ==> v.details == banInfo
  {
    if loading || loadingBanInfo then Spinner else Card(banInfo)
  }

  /** The page's state; `pushed` records the router navigations in order. */
  class Page {
    var banInfo: Option<BanInfo>
    var loadingBanInfo: bool
    var pushed: seq<string>

    constructor ()
      ensures banInfo.None? && loadingBanInfo && pushed == []
    {
      banInfo := None;
      loadingBanInfo := true;
      pushed := [];
    }

    /** One run of the effect. Without a user it navigates home before the `try`, so the
        `finally` does not run and the spinner stays. */
    method CheckBanStatus(user: Option<string>, loading: bool, db: Db, now: int, fault: Fault)
      modifies this
      ensures loading ==> banInfo == old(banInfo) && loadingBanInfo == old(loadingBanInfo) && pushed == old(pushed)
      ensures !loading && user.None? ==>
                banInfo == old(banInfo) && loadingBanInfo == old(loadingBanInfo) && pushed == old(pushed) + ["/"]
      ensures !loading && user.Some? ==>
                !loadingBanInfo
                && match PageOutcome(db, user.value, now, fault)
                   case ShowInfo(info) => banInfo == Some(info) && pushed == old(pushed)
                   case Redirect(route) => banInfo == old(banInfo) && pushed == old(pushed) + [route]
    {
      if loading {
        return;
      }
      if user.None? {
        pushed := pushed + ["/"];
        return;
      }
      var uid := user.value;
      if fault == RestrictQueryFails {
        pushed := pushed + ["/"];
      } else {
        var hits := RestrictFor(db.restrict, uid);
        if hits != [] {
          banInfo := Some(InfoFromRestrict(hits[0], now));
        } else if fault == UserDocFails {
          pushed := pushed + ["/"];
        } else if uid in db.users {
          var u := db.users[uid];
          if u.status == "banned" {
            banInfo := Some(BanInfo(Or(u.bannedReason, NoReason), now, "System", false, u.bannedUntil));
          } else {
            pushed := pushed + ["/dashboard"];
          }
        } else {
          pushed := pushed + ["/"];
        }
      }
      loadingBanInfo := false;
    }
  }
}
