/**
 * The document database as in-memory collections. Firestore documents are
 * schemaless; each record here carries every field the core reads or writes.
 * A string field that is absent, `null` or empty is the empty string: every
 * reader in the core treats the three alike through JavaScript truthiness.
 */
module Store {
  import opened Base

  /** A date-valued field as it can arrive from a document. */
  datatype DateValue =
    | NoDate                   // absent or null
    | DateText(text: string)   // a string such as sign-up's "DD-MM-YYYY"
    | Stamp(millis: int)       // a Firestore Timestamp or a Date
    | Serialized(seconds: int) // a Timestamp serialised as { seconds }

  /** A date field is falsy in JavaScript when absent or the empty string. */
  predicate DateFalsy(d: DateValue) {
    d.NoDate? || d == DateText("")
  }

  /** A document of the `users` collection (keyed by uid in `Db.users`). */
  datatype UserDoc = UserDoc(
    uid: string,
    displayName: string,
    email: string,
    photoURL: string,          // written by credential sign-up and the profile page
    photoUrl: string,          // written by Google sign-up and read by the admin list
    phoneNumber: string,
    role: string,
    plan: string,
    status: string,
    signType: string,
    createdAt: DateValue,
    bannedUntil: Option<int>,
    bannedReason: string,
    bannedAt: Option<int>,
    hashedPassword: string)

  /** A document of the `restrict_account` collection. */
  datatype RestrictRecord = RestrictRecord(
    uid: string,
    email: string,
    displayName: string,
    bannedAt: Option<int>,
    bannedBy: string,
    reason: string,
    permanent: Option<bool>)

  /** A document of the `shorturls` collection; `shortUrl` holds the bare slug. */
  datatype ShortUrlDoc = ShortUrlDoc(
    title: string,
    longUrl: string,
    shortUrl: string,
    clicks: int,
    isPasswordProtected: bool,
    uid: string,
    createdAt: int,
    lastClicked: Option<int>,
    hashedPassword: Option<string>)

  /** A document of the `click_url` collection. */
  datatype ClickDoc = ClickDoc(urlId: string, userId: string, clickedAt: int)

  /** The four collections. */
  datatype Db = Db(
    users: map<string, UserDoc>,
    restrict: seq<RestrictRecord>,
    shorturls: seq<ShortUrlDoc>,
    clicks: seq<ClickDoc>)

  /** `query(restrict_account, where("uid", "==", uid))`. */
  function RestrictFor(rs: seq<RestrictRecord>, uid: string): (r: seq<RestrictRecord>)
    ensures forall i :: 0 <= i < |r| ==> r[i].uid == uid
    ensures forall i :: 0 <= i < |rs| && rs[i].uid == uid ==> rs[i] in r
  {
    Filter(rs, (x: RestrictRecord) => x.uid == uid)
  }

  /** The `restrict_account` collection once every record of `uid` is deleted. */
  function RestrictWithout(rs: seq<RestrictRecord>, uid: string): (r: seq<RestrictRecord>)
    ensures forall i :: 0 <= i < |r| ==> r[i].uid != uid
    ensures forall i :: 0 <= i < |rs| && rs[i].uid != uid ==> rs[i] in r
  {
    Filter(rs, (x: RestrictRecord) => x.uid != uid)
  }

  /** The `shorturls` collection once every link owned by `uid` is deleted. */
  function UrlsWithout(us: seq<ShortUrlDoc>, uid: string): (r: seq<ShortUrlDoc>)
    ensures forall i :: 0 <= i < |r| ==> r[i].uid != uid
    ensures forall i :: 0 <= i < |us| && us[i].uid != uid ==> us[i] in r
  {
    Filter(us, (x: ShortUrlDoc) => x.uid != uid)
  }

  /** The restrict query comes back non-empty exactly when some record names `uid`. */
  lemma {:induction false} RestrictForNonEmpty(rs: seq<RestrictRecord>, uid: string)
    ensures RestrictFor(rs, uid) != [] <==> exists i :: 0 <= i < |rs| && rs[i].uid == uid
  {
    if exists i :: 0 <= i < |rs| && rs[i].uid == uid {
      var i :| 0 <= i < |rs| && rs[i].uid == uid;
      assert rs[i] in RestrictFor(rs, uid);
    }
    var hits := RestrictFor(rs, uid);
    if hits != [] {
      assert hits[0] in rs;
      var j :| 0 <= j < |rs| && rs[j] == hits[0];
      assert rs[j].uid == uid;
    }
  }
}
