/**
 * The admin "users" page: the role gate, the fetched list with its defaults, the
 * case-insensitive search, and the ban, unban, delete, role and plan actions as
 * changes to the `users`, `restrict_account` and `shorturls` collections.
 */
module UsersAdmin {
  import opened Base
  import opened Text
  import opened Store
  import opened BanUtils

  /** A row of the list, after `fetchUsers` filled in the defaults. */
  datatype ListedUser = ListedUser(
    uid: string,
    displayName: string,
    email: string,
    photoUrl: string,
    role: string,
    plan: string,
    status: string,
    signType: string,
    createdAt: DateValue,
    bannedUntil: Option<int>,
    bannedReason: string)

  /** The row built from one document: a missing name falls back to the e-mail and then to
      "Unknown User"; the other fields get the defaults of a fresh account. */
  function DefaultUser(id: string, d: UserDoc, now: int): (u: ListedUser)
    ensures u.uid == id && u.email == d.email && u.photoUrl == d.photoUrl
    ensures u.displayName != "" && u.role != "" && u.plan != "" && u.status != "" && u.signType != ""
    ensures d.displayName != "" ==> u.displayName == d.displayName
    ensures d.displayName == "" && d.email != "" ==> u.displayName == d.email
    ensures d.displayName == "" && d.email == "" ==> u.displayName == "Unknown User"
    ensures u.role == (if d.role != "" then d.role else "user")
    ensures u.plan == (if d.plan != "" then d.plan else "free")
    ensures u.status == (if d.status != "" then d.status else "active")
    ensures u.signType == (if d.signType != "" then d.signType else "credential")
    ensures u.createdAt == (if DateFalsy(d.createdAt) then Stamp(now) else d.createdAt)
    ensures u.bannedUntil == d.bannedUntil && u.bannedReason == d.bannedReason
  {
    ListedUser(id, Or(d.displayName, Or(d.email, "Unknown User")), d.email, d.photoUrl,
               Or(d.role, "user"), Or(d.plan, "free"), Or(d.status, "active"), Or(d.signType, "credential"),
               if DateFalsy(d.createdAt) then Stamp(now) else d.createdAt, d.bannedUntil, d.bannedReason)
  }

  /** Defaulting changes nothing about a document that already has every field. */
  lemma DefaultKeepsComplete(id: string, d: UserDoc, now: int)
    requires d.displayName != "" && d.role != "" && d.plan != "" && d.status != "" && d.signType != ""
    requires !DateFalsy(d.createdAt)
    ensures var u := DefaultUser(id, d, now);
      u == ListedUser(id, d.displayName, d.email, d.photoUrl, d.role, d.plan, d.status, d.signType,
                      d.createdAt, d.bannedUntil, d.bannedReason)
  {
  }

  /** `usersSnapshot.docs.map(...)`: one row per document, in snapshot order. */
  function FetchList(snapshot: seq<(string, UserDoc)>, now: int): (r: seq<ListedUser>)
    ensures |r| == |snapshot|
    ensures forall i :: 0 <= i < |r| ==> r[i] == DefaultUser(snapshot[i].0, snapshot[i].1, now)
  {
    seq(|snapshot|, i requires 0 <= i < |snapshot| => DefaultUser(snapshot[i].0, snapshot[i].1, now))
  }

  /** `getDocs(collection(db, "users"))`: each stored document once, keyed by its id, in
      whatever order the service returns them. */
  predicate SnapshotOf(snapshot: seq<(string, UserDoc)>, docs: map<string, UserDoc>) {
    && (forall i :: 0 <= i < |snapshot| ==> snapshot[i].0 in docs && docs[snapshot[i].0] == snapshot[i].1)
    && (forall i, j :: 0 <= i < j < |snapshot| ==> snapshot[i].0 != snapshot[j].0)
    && (forall uid :: uid in docs ==> exists i :: 0 <= i < |snapshot| && snapshot[i].0 == uid)
  }

  /** The list built from a snapshot of the collection shows every stored account exactly
      once, each with its own document's defaults. */
  lemma FetchListsStored(snapshot: seq<(string, UserDoc)>, docs: map<string, UserDoc>, now: int)
    requires SnapshotOf(snapshot, docs)
    ensures var r := FetchList(snapshot, now);
      && (forall uid :: uid in docs <==> exists i :: 0 <= i < |r| && r[i].uid == uid)
      && (forall i :: 0 <= i < |r| ==> r[i].uid in docs && r[i] == DefaultUser(r[i].uid, docs[r[i].uid], now))
      && (forall i, j :: 0 <= i < j < |r| ==> r[i].uid != r[j].uid)
  {
    var r := FetchList(snapshot, now);
    forall uid | uid in docs
      ensures exists i :: 0 <= i < |r| && r[i].uid == uid
    {
      var i :| 0 <= i < |snapshot| && snapshot[i].0 == uid;
      assert r[i].uid == uid;
    }
  }

  /** The search test for one row: the lowered term occurs in the lowered name or e-mail. */
  predicate Matches(u: ListedUser, term: string) {
    Contains(Lower(u.displayName), Lower(term)) || Contains(Lower(u.email), Lower(term))
  }

  /** The test stated by offsets instead of `includes`. */
  lemma MatchesAt(u: ListedUser, term: string)
    ensures Matches(u, term) <==>
            (exists i :: OccursAt(Lower(u.displayName), Lower(term), i))
            || (exists i :: OccursAt(Lower(u.email), Lower(term), i))
  {
    ContainsAt(Lower(u.displayName), Lower(term));
    ContainsAt(Lower(u.email), Lower(term));
  }

  /** The search effect: everybody for an empty term, otherwise the matching rows. */
  function SearchFilter(users: seq<ListedUser>, term: string): (r: seq<ListedUser>)
    ensures term == "" ==> r == users
    ensures forall i :: 0 <= i < |r| ==> r[i] in users && (term != "" ==> Matches(r[i], term))
    ensures forall i :: 0 <= i < |users| && Matches(users[i], term) ==> users[i] in r
    ensures IsSubsequence(r, users)
  {
    if term == "" then
      SubsequenceRefl(users);
      users
    else
      FilterIsSubsequence(users, (u: ListedUser) => Matches(u, term));
      Filter(users, (u: ListedUser) => Matches(u, term))
  }

  /** The search ignores the case of ASCII letters on both sides. */
  lemma SearchIgnoresCase(users: seq<ListedUser>, term: string, term': string)
    requires Lower(term) == Lower(term') && term != "" && term' != ""
    ensures SearchFilter(users, term) == SearchFilter(users, term')
  {
    assert forall u: ListedUser :: Matches(u, term) == Matches(u, term');
    FilterSamePredicate(users, (u: ListedUser) => Matches(u, term), (u: ListedUser) => Matches(u, term'));
  }

  lemma {:induction false} FilterSamePredicate<T>(xs: seq<T>, p: T -> bool, q: T -> bool)
    requires forall i :: 0 <= i < |xs| ==> p(xs[i]) == q(xs[i])
    ensures Filter(xs, p) == Filter(xs, q)
  {
    if xs != [] {
      FilterSamePredicate(xs[1..], p, q);
    }
  }

  /** Where the role check of the page ends. */
  datatype Gate = Waiting | Admitted | Redirect(route: string)

  /** The role gate: `role` is the role stored for the signed-in user (`None` when the
      document is missing) and `lookupFails` says whether reading it throws. */
  function RoleGate(hasUser: bool, loading: bool, role: Option<string>, lookupFails: bool): (g: Gate)
    ensures g == Admitted <==> hasUser && !lookupFails && role == Some("admin")
    ensures g == Redirect("/forbidden") <==> hasUser && (lookupFails || role.None? || role.value != "admin")
    ensures g == Redirect("/auth/signin") <==> !hasUser && !loading
    ensures g == Waiting <==> !hasUser && loading
  {
    if hasUser then
      if lookupFails || role.None? then Redirect("/forbidden")
      else if role.value != "admin" then Redirect("/forbidden")
      else Admitted
    else if !loading then Redirect("/auth/signin")
    else Waiting
  }

  /** The `users` document after a ban: banned with the reason, and for a temporary ban
      with its end. A permanent ban leaves any earlier `bannedUntil` as it was. */
  function BanUpdate(d: UserDoc, reason: string, until: Option<int>): (r: UserDoc)
    ensures r.status == "banned" && r.bannedReason == Or(reason, NoReason)
    ensures r.bannedUntil == (if until.Some? then until else d.bannedUntil)
    ensures r.(status := d.status, bannedReason := d.bannedReason, bannedUntil := d.bannedUntil) == d
  {
    var r := d.(status := "banned", bannedReason := Or(reason, NoReason));
    if until.Some? then r.(bannedUntil := until) else r
  }

  /** The `users` document after an unban. */
  function UnbanUpdate(d: UserDoc): (r: UserDoc)
    ensures r.status == "active" && r.bannedUntil.None? && r.bannedReason == ""
    ensures r.(status := d.status, bannedReason := d.bannedReason, bannedUntil := d.bannedUntil) == d
  {
    d.(status := "active", bannedUntil := None, bannedReason := "")
  }

  /** The record a permanent ban adds to `restrict_account`. */
  function PermanentRecord(target: ListedUser, actor: Option<string>, reason: string, now: int): (rec: RestrictRecord)
    ensures rec.uid == target.uid && rec.permanent == Some(true) && rec.bannedAt == Some(now)
    ensures rec.reason == Or(reason, NoReason)
    ensures rec.bannedBy == (if actor.Some? && actor.value != "" then actor.value else "system")
  {
    RestrictRecord(target.uid, target.email, target.displayName, Some(now),
                   Or(actor.GetOr(""), "system"), Or(reason, NoReason), Some(true))
  }

  /** The page's state and the collections it changes. `updateDoc` on a missing document
      throws; `deleteDoc` of one succeeds. */
  class UsersPage {
    var db: Db
    var users: seq<ListedUser>
    var filteredUsers: seq<ListedUser>
    var searchTerm: string
    var selectedUser: Option<ListedUser>
    var banDialogOpen: bool
    var banReason: string
    var selectedUserForDelete: Option<ListedUser>
    var deleteDialogOpen: bool

    constructor (initial: Db)
      ensures db == initial && users == [] && filteredUsers == [] && searchTerm == ""
      ensures selectedUser.None? && !banDialogOpen && banReason == ""
      ensures selectedUserForDelete.None? && !deleteDialogOpen
    {
      db := initial;
      users := [];
      filteredUsers := [];
      searchTerm := "";
      selectedUser := None;
      banDialogOpen := false;
      banReason := "";
      selectedUserForDelete := None;
      deleteDialogOpen := false;
    }

    /** `fetchUsers` with the snapshot of `db.users` it reads; a failing read keeps the old list. */
    method FetchUsers(snapshot: seq<(string, UserDoc)>, fails: bool, now: int)
      requires !fails ==> SnapshotOf(snapshot, db.users)
      modifies this`users, this`filteredUsers
      ensures fails ==> users == old(users) && filteredUsers == old(filteredUsers)
      ensures !fails ==> users == FetchList(snapshot, now) && filteredUsers == users
      ensures !fails ==> forall uid :: uid in db.users <==> exists i :: 0 <= i < |users| && users[i].uid == uid
    {
      if !fails {
        FetchListsStored(snapshot, db.users, now);
        users := FetchList(snapshot, now);
        filteredUsers := users;
      }
    }

    /** The search effect, re-run when the term or the list changes. */
    method ApplySearch()
      modifies this
      ensures filteredUsers == SearchFilter(users, searchTerm)
      ensures db == old(db) && users == old(users) && searchTerm == old(searchTerm)
      ensures selectedUser == old(selectedUser) && banDialogOpen == old(banDialogOpen) && banReason == old(banReason)
      ensures selectedUserForDelete == old(selectedUserForDelete) && deleteDialogOpen == old(deleteDialogOpen)
    {
      filteredUsers := SearchFilter(users, searchTerm);
    }

    /** `handleBanUser`. `actor` is the admin's uid; `until` is the end a temporary ban
        computes from the chosen duration (`None` for a permanent ban). */
    method HandleBanUser(actor: Option<string>, until: Option<int>, now: int)
      modifies this
      ensures old(selectedUser).None? ==>
                db == old(db) && banDialogOpen == old(banDialogOpen) && banReason == old(banReason) && selectedUser.None?
      ensures old(selectedUser).Some? ==>
                var t := old(selectedUser).value;
                var restrict' := if until.None? then old(db).restrict + [PermanentRecord(t, actor, old(banReason), now)]
                                 else old(db).restrict;
                && db.restrict == restrict'
                && db.shorturls == old(db).shorturls && db.clicks == old(db).clicks
                && (t.uid in old(db).users ==>
                      db.users == old(db).users[t.uid := BanUpdate(old(db).users[t.uid], old(banReason), until)]
                      && !banDialogOpen && selectedUser.None? && banReason == "")
                && (t.uid !in old(db).users ==>
                      db.users == old(db).users && banDialogOpen == old(banDialogOpen)
                      && selectedUser == old(selectedUser) && banReason == old(banReason))
      ensures users == old(users) && filteredUsers == old(filteredUsers) && searchTerm == old(searchTerm)
      ensures selectedUserForDelete == old(selectedUserForDelete) && deleteDialogOpen == old(deleteDialogOpen)
    {
      if selectedUser.None? {
        return;
      }
      var t := selectedUser.value;
      if until.None? {
        db := db.(restrict := db.restrict + [PermanentRecord(t, actor, banReason, now)]);
      }
      if t.uid !in db.users {
        // `updateDoc` throws on a missing document: the catch only shows a toast
        return;
      }
      db := db.(users := db.users[t.uid := BanUpdate(db.users[t.uid], banReason, until)]);
      banDialogOpen := false;
      selectedUser := None;
      banReason := "";
    }

    /** `handleUnbanUser`: reactivate the account, then drop its restrict records. */
    method HandleUnbanUser(userId: string)
      modifies this
      ensures userId in old(db).users ==>
                db == old(db).(users := old(db).users[userId := UnbanUpdate(old(db).users[userId])],
                               restrict := RestrictWithout(old(db).restrict, userId))
      ensures userId !in old(db).users ==> db == old(db)
      ensures users == old(users) && filteredUsers == old(filteredUsers) && searchTerm == old(searchTerm)
      ensures selectedUser == old(selectedUser) && banDialogOpen == old(banDialogOpen) && banReason == old(banReason)
      ensures selectedUserForDelete == old(selectedUserForDelete) && deleteDialogOpen == old(deleteDialogOpen)
    {
      if userId !in db.users {
        return;
      }
      db := db.(users := db.users[userId := UnbanUpdate(db.users[userId])]);
      db := db.(restrict := RestrictWithout(db.restrict, userId));
    }

    /** `handleDeleteUser`: remove the account document, its restrict records and its links,
        then close the dialog. The click log is left alone. */
    method HandleDeleteUser()
      modifies this
      ensures old(selectedUserForDelete).None? ==>
                db == old(db) && deleteDialogOpen == old(deleteDialogOpen) && selectedUserForDelete.None?
      ensures old(selectedUserForDelete).Some? ==>
                var uid := old(selectedUserForDelete).value.uid;
                && db == Db(old(db).users - {uid}, RestrictWithout(old(db).restrict, uid),
                            UrlsWithout(old(db).shorturls, uid), old(db).clicks)
                && !deleteDialogOpen && selectedUserForDelete.None?
      ensures users == old(users) && filteredUsers == old(filteredUsers) && searchTerm == old(searchTerm)
      ensures selectedUser == old(selectedUser) && banDialogOpen == old(banDialogOpen) && banReason == old(banReason)
    {
      if selectedUserForDelete.None? {
        return;
      }
      var uid := selectedUserForDelete.value.uid;
      db := db.(users := db.users - {uid});
      db := db.(restrict := RestrictWithout(db.restrict, uid));
      db := db.(shorturls := UrlsWithout(db.shorturls, uid));
      deleteDialogOpen := false;
      selectedUserForDelete := None;
    }

    /** `handleRoleChange` and `handlePlanChange`: one field of an existing document. */
    method HandleRoleChange(userId: string, newRole: string)
      modifies this
      ensures userId in old(db).users ==>
                db == old(db).(users := old(db).users[userId := old(db).users[userId].(role := newRole)])
      ensures userId !in old(db).users ==> db == old(db)
      ensures users == old(users) && filteredUsers == old(filteredUsers) && searchTerm == old(searchTerm)
      ensures selectedUser == old(selectedUser) && banDialogOpen == old(banDialogOpen) && banReason == old(banReason)
      ensures selectedUserForDelete == old(selectedUserForDelete) && deleteDialogOpen == old(deleteDialogOpen)
    {
      if userId in db.users {
        db := db.(users := db.users[userId := db.users[userId].(role := newRole)]);
      }
    }

    method HandlePlanChange(userId: string, newPlan: string)
      modifies this
      ensures userId in old(db).users ==>
                db == old(db).(users := old(db).users[userId := old(db).users[userId].(plan := newPlan)])
      ensures userId !in old(db).users ==> db == old(db)
      ensures users == old(users) && filteredUsers == old(filteredUsers) && searchTerm == old(searchTerm)
      ensures selectedUser == old(selectedUser) && banDialogOpen == old(banDialogOpen) && banReason == old(banReason)
      ensures selectedUserForDelete == old(selectedUserForDelete) && deleteDialogOpen == old(deleteDialogOpen)
    {
      if userId in db.users {
        db := db.(users := db.users[userId := db.users[userId].(plan := newPlan)]);
      }
    }
  }

  /** After a permanent ban the ban check reports the account banned from then on. The
      details come from the first restrict record of the account, so the ban is reported
      permanent exactly when there is no older record or the oldest one says permanent. */
  lemma PermanentBanIsSeen(db: Db, t: ListedUser, actor: Option<string>, reason: string, now: int, later: int)
    requires t.uid in db.users
    ensures var db' := db.(restrict := db.restrict + [PermanentRecord(t, actor, reason, now)],
                           users := db.users[t.uid := BanUpdate(db.users[t.uid], reason, None)]);
      var s := CheckUserBanStatus(db', t.uid, later, NoFault);
      var older := RestrictFor(db.restrict, t.uid);
      && s.isBanned
      && (s.banInfo.value.permanent <==> older == [] || older[0].permanent == Some(true))
  {
    var rec := PermanentRecord(t, actor, reason, now);
    var rs := db.restrict + [rec];
    assert rs[|db.restrict|] == rec;
    RestrictForNonEmpty(rs, t.uid);
    RestrictForAppend(db.restrict, rec, t.uid);
  }

  /** Querying after an append finds the old hits followed by the new record when it matches. */
  lemma {:induction false} RestrictForAppend(rs: seq<RestrictRecord>, rec: RestrictRecord, uid: string)
    requires rec.uid == uid
    ensures RestrictFor(rs + [rec], uid) == RestrictFor(rs, uid) + [rec]
  {
    if rs == [] {
      assert [] + [rec] == [rec];
      assert [rec][1..] == [];
    } else {
      assert (rs + [rec])[1..] == rs[1..] + [rec];
      RestrictForAppend(rs[1..], rec, uid);
    }
  }

  /** A temporary ban of an account without restrict records holds exactly until its end. */
  lemma TemporaryBanIsSeen(db: Db, uid: string, reason: string, until: int, later: int)
    requires uid in db.users && RestrictFor(db.restrict, uid) == []
    ensures var db' := db.(users := db.users[uid := BanUpdate(db.users[uid], reason, Some(until))]);
      CheckUserBanStatus(db', uid, later, NoFault).isBanned <==> later < until
  {
    var db' := db.(users := db.users[uid := BanUpdate(db.users[uid], reason, Some(until))]);
    TemporaryBanWindow(db', uid, later, until);
  }

  /** After an unban the ban check finds nothing against the account. */
  lemma UnbanClears(db: Db, uid: string, now: int)
    requires uid in db.users
    ensures var db' := db.(users := db.users[uid := UnbanUpdate(db.users[uid])],
                           restrict := RestrictWithout(db.restrict, uid));
      CheckUserBanStatus(db', uid, now, NoFault) == NotBanned
  {
    var db' := db.(users := db.users[uid := UnbanUpdate(db.users[uid])],
                   restrict := RestrictWithout(db.restrict, uid));
    RestrictForNonEmpty(db'.restrict, uid);
    NotBannedWithoutStatus(db', uid, now);
  }

  /** After a delete nothing of the account is left in the three collections it touches,
      everything else is kept, and the click log is as it was. */
  lemma DeleteCascades(db: Db, uid: string)
    ensures var db' := Db(db.users - {uid}, RestrictWithout(db.restrict, uid), UrlsWithout(db.shorturls, uid), db.clicks);
      && uid !in db'.users
      && (forall k :: k in db.users && k != uid ==> k in db'.users && db'.users[k] == db.users[k])
      && (forall i :: 0 <= i < |db.restrict| && db.restrict[i].uid != uid ==> db.restrict[i] in db'.restrict)
      && (forall i :: 0 <= i < |db.shorturls| && db.shorturls[i].uid != uid ==> db.shorturls[i] in db'.shorturls)
      && RestrictFor(db'.restrict, uid) == []
      && db'.clicks == db.clicks
  {
    var db' := Db(db.users - {uid}, RestrictWithout(db.restrict, uid), UrlsWithout(db.shorturls, uid), db.clicks);
    RestrictForNonEmpty(db'.restrict, uid);
  }
}
