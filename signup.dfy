/**
 * The sign-up page: the "DD-MM-YYYY" creation date, the form state, the
 * password-match guard and the `users` documents the two sign-up paths write.
 */
module SignUp {
  import opened Base
  import opened Text
  import opened Store
  import opened BanUtils

  /** The value of a string of decimal digits (`parseInt` of such a string). */
  function DecimalValue(s: string): (n: nat)
    requires forall i :: 0 <= i < |s| ==> IsDigit(s[i])
  {
    if s == [] then 0
    else
      assert IsDigit(s[|s| - 1]);
      DecimalValue(s[..|s| - 1]) * 10 + (s[|s| - 1] as int - '0' as int)
  }

  /** Reading back the digits `String(n)` writes gives `n`. */
  lemma {:induction false} DecimalRoundTrip(n: nat)
    ensures DecimalValue(Decimal(n)) == n
  {
    if n >= 10 {
      var d := Decimal(n);
      assert d[..|d| - 1] == Decimal(n / 10);
      DecimalRoundTrip(n / 10);
    }
  }

  /** A leading zero does not change the value. */
  lemma {:induction false} LeadingZero(s: string)
    requires forall i :: 0 <= i < |s| ==> IsDigit(s[i])
    ensures DecimalValue("0" + s) == DecimalValue(s)
  {
    if s != [] {
      assert ("0" + s)[..|"0" + s| - 1] == "0" + s[..|s| - 1];
      LeadingZero(s[..|s| - 1]);
    }
  }

  /** `String(n).padStart(2, "0")` for a number below 100: two digits. */
  lemma PaddedDigits(n: nat)
    requires n < 100
    ensures var p := PadStart2(Decimal(n));
      |p| == 2 && forall i :: 0 <= i < 2 ==> IsDigit(p[i])
  {
    if n >= 10 {
      assert Decimal(n) == Decimal(n / 10) + [DigitChar(n % 10)];
    }
  }

  /** `formatDate(date)`: day and 1-based month padded to two digits, then the year.
      `day`, `month0` (0 for January) and `year` are what the `Date` reports. */
  function FormatDate(day: nat, month0: nat, year: nat): (r: string)
    requires 1 <= day <= 31 && month0 < 12
    ensures |r| == 6 + |Decimal(year)|
    ensures r[2] == '-' && r[5] == '-'
    ensures forall i :: 0 <= i < |r| && i != 2 && i != 5 ==> IsDigit(r[i])
  {
    var d := PadStart2(Decimal(day));
    var m := PadStart2(Decimal(month0 + 1));
    var y := Decimal(year);
    PaddedDigits(day);
    PaddedDigits(month0 + 1);
    var r := d + "-" + m + "-" + y;
    assert forall i :: 6 <= i < |r| ==> r[i] == y[i - 6];
    r
  }

  /** A zero-padded two-digit field reads back as its number and holds no separator. */
  lemma PaddedField(n: nat)
    requires 1 <= n <= 31
    ensures var p := PadStart2(Decimal(n));
      && |p| == 2 && '-' !in p && (forall i :: 0 <= i < 2 ==> IsDigit(p[i])) && DecimalValue(p) == n
  {
    PaddedDigits(n);
    DecimalRoundTrip(n);
    if n < 10 {
      assert PadStart2(Decimal(n)) == "0" + Decimal(n);
      LeadingZero(Decimal(n));
    }
    var p := PadStart2(Decimal(n));
    assert p[0] != '-' && p[1] != '-';
  }

  /** The created date splits on "-" into day, month and year, and each reads back. */
  lemma FormatDateParses(day: nat, month0: nat, year: nat)
    requires 1 <= day <= 31 && month0 < 12
    ensures var p := Split(FormatDate(day, month0, year), '-');
      && p == [PadStart2(Decimal(day)), PadStart2(Decimal(month0 + 1)), Decimal(year)]
      && |p[0]| == 2 && |p[1]| == 2
      && DecimalValue(p[0]) == day && DecimalValue(p[1]) == month0 + 1 && DecimalValue(p[2]) == year
  {
    var y := Decimal(year);
    PaddedField(day);
    PaddedField(month0 + 1);
    DecimalRoundTrip(year);
    assert '-' !in y by {
      forall i | 0 <= i < |y| ensures y[i] != '-' {
        assert IsDigit(y[i]);
      }
    }
    assert FormatDate(day, month0, year) == PadStart2(Decimal(day)) + ['-'] + PadStart2(Decimal(month0 + 1)) + ['-'] + y;
    SplitThree(PadStart2(Decimal(day)), PadStart2(Decimal(month0 + 1)), y, '-');
  }

  /** The form's four fields. */
  datatype FormData = FormData(displayName: string, email: string, password: string, confirmPassword: string)

  const EmptyForm := FormData("", "", "", "")
  const Mismatch := "Passwords do not match"

  /** `https://ui-avatars.com/api/?name=<encoded name>&background=random`; `encode` stands
      for `encodeURIComponent`. */
  function AvatarUrl(displayName: string, encode: string -> string): (url: string)
    ensures StartsWith(url, "https://ui-avatars.com/api/?name=")
  {
    "https://ui-avatars.com/api/?name=" + encode(displayName) + "&background=random"
  }

  /** The document a credential sign-up writes; `setDoc` replaces the whole document. */
  function CredentialRecord(uid: string, f: FormData, day: nat, month0: nat, year: nat, encode: string -> string): (d: UserDoc)
    requires 1 <= day <= 31 && month0 < 12
    ensures d.uid == uid && d.displayName == f.displayName && d.email == f.email
    ensures d.role == "user" && d.plan == "free" && d.status == "active" && d.signType == "credential"
    ensures d.createdAt == DateText(FormatDate(day, month0, year)) && d.photoURL == AvatarUrl(f.displayName, encode)
    ensures d.bannedUntil.None? && d.bannedAt.None? && d.hashedPassword == ""
  {
    UserDoc(uid, f.displayName, f.email, AvatarUrl(f.displayName, encode), "", "", "user", "free", "active",
            "credential", DateText(FormatDate(day, month0, year)), None, "", None, "")
  }

  /** The Google account as the popup returns it; absent values are "". */
  datatype GoogleAccount = GoogleAccount(uid: string, displayName: string, email: string, photoURL: string)

  /** The document a Google sign-up writes: the photo goes to `photoUrl`, not `photoURL`. */
  function GoogleRecord(a: GoogleAccount, day: nat, month0: nat, year: nat): (d: UserDoc)
    requires 1 <= day <= 31 && month0 < 12
    ensures d.uid == a.uid && d.displayName == a.displayName && d.email == a.email
    ensures d.role == "user" && d.plan == "free" && d.status == "active" && d.signType == "google"
    ensures d.photoUrl == a.photoURL && d.photoURL == ""
    ensures d.createdAt == DateText(FormatDate(day, month0, year)) && d.bannedUntil.None? && d.bannedAt.None?
  {
    UserDoc(a.uid, a.displayName, a.email, "", a.photoURL, "", "user", "free", "active",
            "google", DateText(FormatDate(day, month0, year)), None, "", None, "")
  }

  /** The awaited calls of the two sign-up paths. */
  datatype Call = CreateAccount | UpdateProfile | WriteDoc | Popup

  /** Which call throws, with its message; a fault at a call a path does not make is
      never raised. */
  datatype Outcome = Succeeds | Throws(at: Call, message: string)

  /** The page's state, with the `users` documents and the authentication accounts. */
  class Page {
    var formData: FormData
    var error: string
    var loading: bool
    var users: map<string, UserDoc>
    var accounts: set<string>
    var pushed: seq<string>

    constructor (docs: map<string, UserDoc>, auth: set<string>)
      ensures formData == EmptyForm && error == "" && !loading
      ensures users == docs && accounts == auth && pushed == []
    {
      formData := EmptyForm;
      error := "";
      loading := false;
      users := docs;
      accounts := auth;
      pushed := [];
    }

    /** `handleInputChange`: the input named `name` takes `value`; the form's other fields
        keep theirs (a name outside the four adds a key nothing reads). */
    method HandleInputChange(name: string, value: string)
      modifies this
      ensures formData.displayName == (if name == "displayName" then value else old(formData.displayName))
      ensures formData.email == (if name == "email" then value else old(formData.email))
      ensures formData.password == (if name == "password" then value else old(formData.password))
      ensures formData.confirmPassword == (if name == "confirmPassword" then value else old(formData.confirmPassword))
      ensures error == old(error) && loading == old(loading)
      ensures users == old(users) && accounts == old(accounts) && pushed == old(pushed)
    {
      if name == "displayName" {
        formData := formData.(displayName := value);
      } else if name == "email" {
        formData := formData.(email := value);
      } else if name == "password" {
        formData := formData.(password := value);
      } else if name == "confirmPassword" {
        formData := formData.(confirmPassword := value);
      }
    }

    /** `handleCredentialSignUp`. `uid` is the id the new account gets, `day`, `month0` and
        `year` the local date of the moment (`getDate`, `getMonth`, `getFullYear`) and `fault`
        which call throws. */
    method HandleCredentialSignUp(uid: string, day: nat, month0: nat, year: nat, encode: string -> string, fault: Outcome)
      requires 1 <= day <= 31 && month0 < 12
      modifies this
      ensures !loading && formData == old(formData)
      ensures old(formData).password != old(formData).confirmPassword ==>
                error == Mismatch && users == old(users) && accounts == old(accounts) && pushed == old(pushed)
      ensures old(formData).password == old(formData).confirmPassword ==>
                var ok := !(fault.Throws? && fault.at in {CreateAccount, UpdateProfile, WriteDoc});
                && accounts == (if fault.Throws? && fault.at == CreateAccount then old(accounts) else old(accounts) + {uid})
                && users == (if ok then old(users)[uid := CredentialRecord(uid, old(formData), day, month0, year, encode)]
                             else old(users))
                && error == (if ok then "" else fault.message)
                && pushed == old(pushed) + (if ok then ["/"] else [])
    {
      loading := true;
      error := "";
      if formData.password != formData.confirmPassword {
        error := Mismatch;
        loading := false;
        return;
      }
      if fault.Throws? && fault.at == CreateAccount {
        error := fault.message;
      } else {
        accounts := accounts + {uid};
        if fault.Throws? && fault.at == UpdateProfile {
          error := fault.message;
        } else if fault.Throws? && fault.at == WriteDoc {
          error := fault.message;
        } else {
          users := users[uid := CredentialRecord(uid, formData, day, month0, year, encode)];
          pushed := pushed + ["/"];
        }
      }
      loading := false;
    }

    /** `handleGoogleSignUp`: `account` is what the popup signs in. */
    method HandleGoogleSignUp(account: GoogleAccount, day: nat, month0: nat, year: nat, fault: Outcome)
      requires 1 <= day <= 31 && month0 < 12
      modifies this
      ensures !loading && formData == old(formData)
      ensures var ok := !(fault.Throws? && fault.at in {Popup, WriteDoc});
        && accounts == (if fault.Throws? && fault.at == Popup then old(accounts) else old(accounts) + {account.uid})
        && users == (if ok then old(users)[account.uid := GoogleRecord(account, day, month0, year)] else old(users))
        && error == (if ok then "" else fault.message)
        && pushed == old(pushed) + (if ok then ["/"] else [])
    {
      loading := true;
      error := "";
      if fault.Throws? && fault.at == Popup {
        error := fault.message;
      } else {
        accounts := accounts + {account.uid};
        if fault.Throws? && fault.at == WriteDoc {
          error := fault.message;
        } else {
          users := users[account.uid := GoogleRecord(account, day, month0, year)];
          pushed := pushed + ["/"];
        }
      }
      loading := false;
    }
  }

  /** A freshly signed-up account is not banned, unless a restrict record names it. */
  lemma NewAccountNotBanned(db: Db, d: UserDoc, now: int)
    requires d.status == "active"
    requires forall i :: 0 <= i < |db.restrict| ==> db.restrict[i].uid != d.uid
    ensures !BannedBySpec(db.(users := db.users[d.uid := d]), d.uid, now)
    ensures !IsUserBanned(db.(users := db.users[d.uid := d]), d.uid, now, NoFault)
  {
  }
}
