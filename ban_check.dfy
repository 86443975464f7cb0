/**
 * `BanCheck`, the wrapper around every page: once authentication settles it asks
 * `checkUserBanStatus` about the signed-in user and sends a banned user to
 * "/banned"; while it waits it shows a spinner on dashboard pages.
 */
module BanCheck {
  import opened Base
  import opened Text
  import opened Store
  import opened BanUtils

  /** The paths that skip the ban check. */
  const ExemptPaths: seq<string> := ["/", "/auth/signin", "/auth/signup", "/banned", "/not-found", "/forbidden"]

  /** `exemptPaths.some(path => pathname === path || pathname.startsWith(path))`. */
  predicate IsExemptPath(pathname: string) {
    exists i :: 0 <= i < |ExemptPaths| && (pathname == ExemptPaths[i] || StartsWith(pathname, ExemptPaths[i]))
  }

  /** Because "/" is in the list and matched as a prefix, a path is exempt exactly when it
      starts with "/" -- which every router path does. */
  lemma ExemptIffRooted(pathname: string)
    ensures IsExemptPath(pathname) <==> StartsWith(pathname, "/")
  {
    if StartsWith(pathname, "/") {
      assert pathname == ExemptPaths[0] || StartsWith(pathname, ExemptPaths[0]);
    }
    if IsExemptPath(pathname) {
      var i :| 0 <= i < |ExemptPaths| && (pathname == ExemptPaths[i] || StartsWith(pathname, ExemptPaths[i]));
      assert ExemptPaths[i][0] == '/';
      assert pathname[0] == ExemptPaths[i][0];
    }
  }

  /** What the wrapper renders. */
  datatype View = LoadingView | NothingView | ChildrenView

  /** The render of lines 54-70 as a function of the auth state and the two state fields. */
  function Screen(loading: bool, hasUser: bool, checkingBan: bool, isBanned: bool, pathname: string): (v: View)
    ensures v == LoadingView ==> StartsWith(pathname, "/dashboard")
    ensures v == ChildrenView ==> !isBanned || pathname == "/banned"
    ensures isBanned && pathname != "/banned" && !StartsWith(pathname, "/dashboard") ==> v == NothingView
  {
    if (loading || (checkingBan && !IsExemptPath(pathname) && hasUser)) && StartsWith(pathname, "/dashboard") then
      LoadingView
    else if isBanned && pathname != "/banned" then
      NothingView
    else
      ChildrenView
  }

  /** On any rooted path the spinner shows exactly while authentication is loading on a
      dashboard page: the `checkingBan` half of the condition can never fire. */
  lemma SpinnerOnlyWhileAuthLoads(loading: bool, hasUser: bool, checkingBan: bool, isBanned: bool, pathname: string)
    requires StartsWith(pathname, "/")
    ensures Screen(loading, hasUser, checkingBan, isBanned, pathname) == LoadingView
            <==> loading && StartsWith(pathname, "/dashboard")
  {
    ExemptIffRooted(pathname);
  }

  /** The state of one mounted wrapper; `pushed` records the router navigations in order. */
  class BanGate {
    var checkingBan: bool
    var isBanned: bool
    var pushed: seq<string>

    constructor ()
      ensures checkingBan && !isBanned && pushed == []
    {
      checkingBan := true;
      isBanned := false;
      pushed := [];
    }

    /** One run of the effect for the current auth state (`user` is the signed-in uid) and
        path. `checkUserBanStatus` never throws, so the effect's `catch` is unreachable. */
    method RunEffect(user: Option<string>, loading: bool, pathname: string, db: Db, now: int, fault: Fault)
      modifies this
      ensures loading ==> checkingBan == old(checkingBan) && isBanned == old(isBanned) && pushed == old(pushed)
      ensures !loading ==> !checkingBan
      ensures !loading && (IsExemptPath(pathname) || user.None?) ==>
                isBanned == old(isBanned) && pushed == old(pushed)
      ensures !loading && !IsExemptPath(pathname) && user.Some? ==>
                var s := CheckUserBanStatus(db, user.value, now, fault);
                isBanned == s.isBanned
                && pushed == old(pushed) + (if s.isBanned && pathname != "/banned" then ["/banned"] else [])
    {
      if loading {
        return;
      }
      if IsExemptPath(pathname) || user.None? {
        checkingBan := false;
        return;
      }
      var status := CheckUserBanStatus(db, user.value, now, fault);
      isBanned := status.isBanned;
      if status.isBanned && pathname != "/banned" {
        pushed := pushed + ["/banned"];
      }
      checkingBan := false;
    }
  }

  /** For a router path the effect leaves the gate as it found it apart from clearing
      `checkingBan`: no user is ever redirected, banned or not, `isBanned` keeps the `false`
      it starts with, and once authentication has loaded the children render whether or not
      the check is still marked as running. */
  lemma NoRedirectOnRootedPaths(user: Option<string>, checkingBan: bool, pathname: string)
    requires StartsWith(pathname, "/")
    ensures IsExemptPath(pathname)
    ensures Screen(false, user.Some?, checkingBan, false, pathname) == ChildrenView
  {
    ExemptIffRooted(pathname);
  }

  /** A failed restrict lookup reads as "not banned", so once the check is over the
      children render on every path. */
  lemma FailOpenRendersChildren(hasUser: bool, uid: string, pathname: string, db: Db, now: int)
    ensures var s := CheckUserBanStatus(db, uid, now, RestrictQueryFails);
      !s.isBanned && Screen(false, hasUser, false, s.isBanned, pathname) == ChildrenView
  {
  }
}
