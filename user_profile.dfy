/**
 * The sidebar's profile card: the signed-in account merged with its `users`
 * document, the plan and role badges, the "Member since" date and the count of
 * the account's short links.
 */
module UserProfile {
  import opened Base
  import opened Text
  import opened Store
  import SignUp

  /** `dateInput.split("-")` of three pieces reordered as `parts[2]-parts[1]-parts[0]`;
      any other string is kept. */
  function Reorder(t: string): (r: string)
    ensures |Split(t, '-')| != 3 ==> r == t
    ensures var p := Split(t, '-'); |p| == 3 ==> r == p[2] + "-" + p[1] + "-" + p[0]
    ensures |r| == |t|
  {
    var parts := Split(t, '-');
    JoinSplit(t, '-');
    if |parts| == 3 then
      JoinThree(parts, '-');
      parts[2] + "-" + parts[1] + "-" + parts[0]
    else t
  }

  /** Reordering a three-piece date twice gives it back. */
  lemma ReorderInvolutive(t: string)
    requires |Split(t, '-')| == 3
    ensures |Split(Reorder(t), '-')| == 3
    ensures Reorder(Reorder(t)) == t
  {
    var p := Split(t, '-');
    SplitPiecesClean(t, '-');
    assert '-' !in p[0] && '-' !in p[1] && '-' !in p[2];
    assert Reorder(t) == p[2] + ['-'] + p[1] + ['-'] + p[0];
    SplitThree(p[2], p[1], p[0], '-');
    JoinSplit(t, '-');
    JoinThree(p, '-');
  }

  /** The date sign-up stores ("DD-MM-YYYY") reaches the parser as "YYYY-MM-DD". */
  lemma SignUpDateReordered(day: nat, month0: nat, year: nat)
    requires 1 <= day <= 31 && month0 < 12
    ensures Reorder(SignUp.FormatDate(day, month0, year))
            == Decimal(year) + "-" + PadStart2(Decimal(month0 + 1)) + "-" + PadStart2(Decimal(day))
  {
    SignUp.FormatDateParses(day, month0, year);
  }

  /** The date an e-mail sign-up stores is the one that reaches the parser reordered. */
  lemma StoredSignUpDateReordered(uid: string, f: SignUp.FormData, day: nat, month0: nat, year: nat,
                                  encode: string -> string)
    requires 1 <= day <= 31 && month0 < 12
    ensures var d := SignUp.CredentialRecord(uid, f, day, month0, year, encode);
      && d.createdAt.DateText?
      && Reorder(d.createdAt.text)
         == Decimal(year) + "-" + PadStart2(Decimal(month0 + 1)) + "-" + PadStart2(Decimal(day))
  {
    SignUpDateReordered(day, month0, year);
  }

  /** What the card shows under "Member since": nothing, "Invalid date", or a day the
      browser formats (the locale formatting is not part of this model). */
  datatype Shown = NothingShown | InvalidDate | OnDay(millis: int)

  /** `formatDate(dateInput)`. `parse` stands for `new Date(string)` (`None` is an invalid
      date). A serialised timestamp of 0 seconds is falsy, so it reaches `new Date(object)`,
      which is invalid. */
  function FormatDate(input: DateValue, parse: string -> Option<int>): (r: Shown)
    ensures DateFalsy(input) ==> r == NothingShown
    ensures input.Stamp? ==> r == OnDay(input.millis)
    ensures input.Serialized? ==> r == if input.seconds == 0 then InvalidDate else OnDay(input.seconds * 1000)
    ensures input.DateText? && input.text != "" ==>
              (r == InvalidDate <==> parse(Reorder(input.text)).None?)
              && (r.OnDay? ==> Some(r.millis) == parse(Reorder(input.text)))
    ensures r != NothingShown <==> !DateFalsy(input)
  {
    if DateFalsy(input) then NothingShown
    else match input
      case DateText(t) =>
        (match parse(Reorder(t))
         case None => InvalidDate
         case Some(ms) => OnDay(ms))
      case Stamp(ms) => OnDay(ms)
      case Serialized(secs) => if secs == 0 then InvalidDate else OnDay(secs * 1000)
  }

  /** `formatDate`'s text for the two cases it spells out itself. */
  function ShownText(s: Shown): (t: Option<string>)
    ensures s.NothingShown? ==> t == Some("")
    ensures s.InvalidDate? ==> t == Some("Invalid date")
    ensures s.OnDay? ==> t.None?
  {
    match s
    case NothingShown => Some("")
    case InvalidDate => Some("Invalid date")
    case OnDay(_) => None
  }

  /** The authentication account; `creationTime` is its creation instant, when known. */
  datatype AuthUser = AuthUser(uid: string, displayName: string, email: string, photoURL: string,
                               creationTime: Option<int>)

  /** The user the card renders. */
  datatype CardUser = CardUser(uid: string, displayName: string, email: string, photoURL: string,
                               role: string, plan: string, status: string, createdAt: DateValue)

  /** The account merged with its document (`None` when the document does not exist: the
      bare account has no role, plan, status or creation field). */
  function MergedUser(a: AuthUser, d: Option<UserDoc>): (u: CardUser)
    ensures u.uid == a.uid && u.displayName == a.displayName && u.email == a.email && u.photoURL == a.photoURL
    ensures d.None? ==> u.role == "" && u.plan == "" && u.status == "" && u.createdAt == NoDate
    ensures d.Some? ==> u.role == Or(d.value.role, "user") && u.plan == Or(d.value.plan, "free")
                        && u.status == Or(d.value.status, "active")
    ensures d.Some? && !DateFalsy(d.value.createdAt) ==> u.createdAt == d.value.createdAt
    ensures d.Some? && DateFalsy(d.value.createdAt) ==>
              u.createdAt == if a.creationTime.Some? then Stamp(a.creationTime.value) else d.value.createdAt
  {
    match d
    case None => CardUser(a.uid, a.displayName, a.email, a.photoURL, "", "", "", NoDate)
    case Some(doc) =>
      var createdAt := if DateFalsy(doc.createdAt) && a.creationTime.Some? then Stamp(a.creationTime.value)
                       else doc.createdAt;
      CardUser(a.uid, a.displayName, a.email, a.photoURL, Or(doc.role, "user"), Or(doc.plan, "free"),
               Or(doc.status, "active"), createdAt)
  }

  /** The plan badge: absent for an empty plan, otherwise one of three labels. */
  function PlanBadge(plan: string): (b: Option<string>)
    ensures b.None? <==> plan == ""
    ensures b.Some? ==> b.value in {"Premium", "Pro", "Free"}
    ensures b == Some("Premium") <==> plan == "premium"
    ensures b == Some("Pro") <==> plan == "pro"
  {
    if plan == "" then None
    else if plan == "premium" then Some("Premium")
    else if plan == "pro" then Some("Pro")
    else Some("Free")
  }

  /** The role badge: absent for an empty role, "Admin" only for "admin". */
  function RoleBadge(role: string): (b: Option<string>)
    ensures b.None? <==> role == ""
    ensures b == Some("Admin") <==> role == "admin"
    ensures b.Some? && role != "admin" ==> b == Some("User")
  {
    if role == "" then None else if role == "admin" then Some("Admin") else Some("User")
  }

  /** An account whose document exists always gets both badges; one without gets neither. */
  lemma BadgesFollowDocument(a: AuthUser, d: Option<UserDoc>)
    ensures var u := MergedUser(a, d);
      (PlanBadge(u.plan).Some? && RoleBadge(u.role).Some?) <==> d.Some?
  {
  }

  /** The card of any freshly signed-up account reads "Free" and "User". */
  lemma FreshAccountBadges(a: AuthUser, d: UserDoc)
    requires d.role == "user" && d.plan == "free"
    ensures PlanBadge(MergedUser(a, Some(d)).plan) == Some("Free")
    ensures RoleBadge(MergedUser(a, Some(d)).role) == Some("User")
  {
  }

  /** The card's state. */
  class Card {
    var user: Option<CardUser>
    var roles: Option<string>
    var totalShortUrls: nat

    constructor ()
      ensures user.None? && roles.None? && totalShortUrls == 0
    {
      user := None;
      roles := None;
      totalShortUrls := 0;
    }

    /** The `onAuthStateChanged` listener: `firebaseUser` is the account signed in, if any. */
    method OnAuthStateChanged(firebaseUser: Option<AuthUser>, users: map<string, UserDoc>)
      modifies this
      ensures firebaseUser.None? ==> user.None? && roles.None?
      ensures firebaseUser.Some? && firebaseUser.value.uid in users ==>
                user == Some(MergedUser(firebaseUser.value, Some(users[firebaseUser.value.uid])))
                && roles == Some(users[firebaseUser.value.uid].role)
      ensures firebaseUser.Some? && firebaseUser.value.uid !in users ==>
                user == Some(MergedUser(firebaseUser.value, None)) && roles.None?
      ensures totalShortUrls == old(totalShortUrls)
    {
      if firebaseUser.None? {
        user := None;
        roles := None;
      } else if firebaseUser.value.uid in users {
        var d := users[firebaseUser.value.uid];
        user := Some(MergedUser(firebaseUser.value, Some(d)));
        roles := Some(d.role);
      } else {
        user := Some(MergedUser(firebaseUser.value, None));
        roles := None;
      }
    }

    /** `fetchData`: the number of `shorturls` whose `uid` is the user's. */
    method FetchData(shorturls: seq<ShortUrlDoc>)
      modifies this
      ensures old(user).None? ==> totalShortUrls == old(totalShortUrls)
      ensures old(user).Some? ==>
                var uid := old(user).value.uid;
                totalShortUrls == CountWhere(shorturls, (x: ShortUrlDoc) => x.uid == uid)
      ensures user == old(user) && roles == old(roles)
    {
      if user.Some? {
        var uid := user.value.uid;
        totalShortUrls := |Filter(shorturls, (x: ShortUrlDoc) => x.uid == uid)|;
        FilterCount(shorturls, (x: ShortUrlDoc) => x.uid == uid);
      }
    }
  }

  /** The links the card counts are exactly those an account deletion removes. */
  lemma CountedLinksAreTheAccounts(shorturls: seq<ShortUrlDoc>, uid: string)
    ensures CountWhere(shorturls, (x: ShortUrlDoc) => x.uid == uid) + |UrlsWithout(shorturls, uid)| == |shorturls|
  {
    FilterComplement(shorturls, (x: ShortUrlDoc) => x.uid == uid, (x: ShortUrlDoc) => x.uid != uid);
  }
}
