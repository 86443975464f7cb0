/**
 * The "delete account" section of the profile page: a dialog that needs the word
 * "delete" and the password, then re-authenticates, deletes the `users` document
 * and deletes the authentication account, in that order.
 */
module DeleteAccount {
  import opened Base
  import opened Text
  import opened Store

  /** The three calls of a deletion, in the order they are made. */
  datatype Step = Reauthenticate | DeleteUserDoc | DeleteAuthUser

  /** Which call throws, if any, and the error code it carries ("" for none). */
  datatype Fault = NoFault | FailsAt(step: Step, code: string)

  /** The signed-in account: its uid and e-mail ("" when it has none). */
  datatype AuthUser = AuthUser(uid: string, email: string)

  const PasswordMissing := "Please enter your password to confirm."
  const GenericError := "There was an error deleting your account. Please try again."
  const Deleted := "Your account has been successfully deleted."

  /** The toast for a failed deletion. */
  function ErrorMessage(code: string): (msg: string)
    ensures code == "auth/wrong-password" ==> msg == "Incorrect password. Please try again."
    ensures code == "auth/requires-recent-login" ==> msg == "Please log out and log back in, then try again."
    ensures code == "auth/invalid-credential" ==> msg == "Invalid credentials. Please check your password."
    ensures code !in {"auth/wrong-password", "auth/requires-recent-login", "auth/invalid-credential"} ==>
              msg == GenericError
  {
    if code == "auth/wrong-password" then "Incorrect password. Please try again."
    else if code == "auth/requires-recent-login" then "Please log out and log back in, then try again."
    else if code == "auth/invalid-credential" then "Invalid credentials. Please check your password."
    else GenericError
  }

  /** The calls a deletion makes: re-authentication only for an account with an e-mail. */
  function Planned(user: AuthUser): (steps: seq<Step>)
    ensures steps == (if user.email != "" then [Reauthenticate] else []) + [DeleteUserDoc, DeleteAuthUser]
  {
    (if user.email != "" then [Reauthenticate] else []) + [DeleteUserDoc, DeleteAuthUser]
  }

  /** The calls that complete: those before the one that throws. */
  function Completed(steps: seq<Step>, fault: Fault): (done: seq<Step>)
    ensures |done| <= |steps| && done == steps[..|done|]
    ensures fault.NoFault? ==> done == steps
    ensures fault.FailsAt? ==> fault.step !in done
    ensures fault.FailsAt? && fault.step in steps ==> |done| < |steps| && steps[|done|] == fault.step
  {
    if steps == [] then []
    else if fault.FailsAt? && steps[0] == fault.step then []
    else
      var rest := Completed(steps[1..], fault);
      assert [steps[0]] + steps[1..][..|rest|] == steps[..|rest| + 1];
      [steps[0]] + rest
  }

  /** No call the deletion makes throws, so the `try` block runs to its end. */
  predicate Succeeds(u: AuthUser, fault: Fault) {
    !(fault.FailsAt? && fault.step in Planned(u))
  }

  /** The delete button's `disabled` is false exactly for "delete", a password that is not
      all whitespace, and no deletion under way. */
  function DeleteEnabled(confirmText: string, password: string, isDeleting: bool): (r: bool)
    ensures r <==> confirmText == "delete" && !Blank(password) && !isDeleting
  {
    TrimEmptyIffBlank(password);
    !(confirmText != "delete" || Trim(password) == "" || isDeleting)
  }

  /** The calls of the `try` block made one after the other: each one runs unless an
      earlier one threw, and the first that throws ends the sequence. */
  method Attempt(u: AuthUser, fault: Fault) returns (ran: seq<Step>, failed: bool, docDeleted: bool, authDeleted: bool)
    ensures ran == Completed(Planned(u), fault)
    ensures failed <==> !Succeeds(u, fault)
    ensures docDeleted <==> DeleteUserDoc in ran
    ensures authDeleted <==> DeleteAuthUser in ran
  {
    CompletedCases(u, fault);
    ran := [];
    failed := false;
    if u.email != "" {
      if fault.FailsAt? && fault.step == Reauthenticate {
        failed := true;
      } else {
        ran := ran + [Reauthenticate];
      }
    }
    if !failed {
      if fault.FailsAt? && fault.step == DeleteUserDoc {
        failed := true;
      } else {
        ran := ran + [DeleteUserDoc];
      }
    }
    if !failed {
      if fault.FailsAt? && fault.step == DeleteAuthUser {
        failed := true;
      } else {
        ran := ran + [DeleteAuthUser];
      }
    }
    docDeleted := DeleteUserDoc in ran;
    authDeleted := DeleteAuthUser in ran;
  }

  /** The dialog's state, with the `users` documents and the authentication accounts. */
  class Section {
    var isDialogOpen: bool
    var confirmText: string
    var password: string
    var isDeleting: bool
    var toast: Option<string>
    var calls: seq<Step>
    var pushed: seq<string>
    var users: map<string, UserDoc>
    var accounts: set<string>

    constructor (docs: map<string, UserDoc>, auth: set<string>)
      ensures !isDialogOpen && confirmText == "" && password == "" && !isDeleting && toast.None?
      ensures calls == [] && pushed == [] && users == docs && accounts == auth
    {
      isDialogOpen := false;
      confirmText := "";
      password := "";
      isDeleting := false;
      toast := None;
      calls := [];
      pushed := [];
      users := docs;
      accounts := auth;
    }

    /** `handleDeleteAccount`. `current` is `auth.currentUser`; `fault` says which call throws. */
    method HandleDeleteAccount(current: Option<AuthUser>, fault: Fault)
      modifies this
      ensures old(confirmText) != "delete" ==>
                confirmText == old(confirmText) && password == old(password) && toast == old(toast)
                && calls == old(calls) && users == old(users) && accounts == old(accounts)
                && isDialogOpen == old(isDialogOpen)
      ensures old(confirmText) == "delete" && Blank(old(password)) ==>
                toast == Some(PasswordMissing) && confirmText == old(confirmText) && password == old(password)
                && calls == old(calls) && users == old(users) && accounts == old(accounts)
                && isDialogOpen == old(isDialogOpen)
      ensures old(confirmText) == "delete" && !Blank(old(password)) ==>
                confirmText == "" && password == "" && !isDeleting
                && if current.None? then
                     toast == Some(GenericError) && calls == old(calls) && users == old(users)
                     && accounts == old(accounts) && isDialogOpen == old(isDialogOpen)
                   else
                     var u := current.value;
                     var done := Completed(Planned(u), fault);
                     && calls == old(calls) + done
                     && users == (if DeleteUserDoc in done then old(users) - {u.uid} else old(users))
                     && accounts == (if DeleteAuthUser in done then old(accounts) - {u.uid} else old(accounts))
                     && (Succeeds(u, fault) ==>
                           !isDialogOpen && toast == Some(Deleted) && pushed == old(pushed) + ["/"])
                     && (!Succeeds(u, fault) ==>
                           isDialogOpen == old(isDialogOpen) && toast == Some(ErrorMessage(fault.code))
                           && pushed == old(pushed))
      ensures old(confirmText) != "delete" || Blank(old(password)) ==> isDeleting == old(isDeleting) && pushed == old(pushed)
      ensures current.None? ==> pushed == old(pushed)
    {
      if confirmText != "delete" {
        return;
      }
      TrimEmptyIffBlank(password);
      if Trim(password) == "" {
        toast := Some(PasswordMissing);
        return;
      }
      isDeleting := true;
      if current.None? {
        toast := Some(GenericError);
      } else {
        RunSteps(current.value, fault);
      }
      isDeleting := false;
      confirmText := "";
      password := "";
    }

    /** The `try` block once a user is signed in: the calls before the one that throws take
        effect, then either the success path or the error toast. */
    method RunSteps(u: AuthUser, fault: Fault)
      modifies this`calls, this`users, this`accounts, this`toast, this`isDialogOpen, this`pushed
      ensures calls == old(calls) + Completed(Planned(u), fault)
      ensures users == if DeleteUserDoc in Completed(Planned(u), fault) then old(users) - {u.uid} else old(users)
      ensures accounts == if DeleteAuthUser in Completed(Planned(u), fault) then old(accounts) - {u.uid} else old(accounts)
      ensures Succeeds(u, fault) ==>
                !isDialogOpen && toast == Some(Deleted) && pushed == old(pushed) + ["/"]
      ensures !Succeeds(u, fault) ==>
                isDialogOpen == old(isDialogOpen) && toast == Some(ErrorMessage(fault.code)) && pushed == old(pushed)
    {
      var ran, failed, docDeleted, authDeleted := Attempt(u, fault);
      Record(u.uid, ran, docDeleted, authDeleted);
      Finish(failed, fault);
    }

    /** The effects of the calls that completed. */
    method Record(uid: string, ran: seq<Step>, docDeleted: bool, authDeleted: bool)
      modifies this`calls, this`users, this`accounts
      ensures calls == old(calls) + ran
      ensures users == if docDeleted then old(users) - {uid} else old(users)
      ensures accounts == if authDeleted then old(accounts) - {uid} else old(accounts)
    {
      calls := calls + ran;
      if docDeleted {
        users := users - {uid};
      }
      if authDeleted {
        accounts := accounts - {uid};
      }
    }

    /** The `catch` toast, or the success path: close the dialog, toast and go home. */
    method Finish(failed: bool, fault: Fault)
      modifies this`toast, this`isDialogOpen, this`pushed
      ensures failed ==> isDialogOpen == old(isDialogOpen) && pushed == old(pushed)
                         && toast == Some(ErrorMessage(if fault.FailsAt? then fault.code else ""))
      ensures !failed ==> !isDialogOpen && toast == Some(Deleted) && pushed == old(pushed) + ["/"]
    {
      if failed {
        toast := Some(ErrorMessage(if fault.FailsAt? then fault.code else ""));
      } else {
        isDialogOpen := false;
        toast := Some(Deleted);
        pushed := pushed + ["/"];
      }
    }

    /** Cancel: close the dialog and clear both fields. */
    method Cancel()
      modifies this
      ensures !isDialogOpen && confirmText == "" && password == ""
      ensures isDeleting == old(isDeleting) && toast == old(toast) && calls == old(calls) && pushed == old(pushed)
      ensures users == old(users) && accounts == old(accounts)
    {
      isDialogOpen := false;
      confirmText := "";
      password := "";
    }
  }

  /** `Completed` on the calls of a deletion, case by case. */
  lemma CompletedCases(u: AuthUser, fault: Fault)
    ensures var r := if u.email != "" then [Reauthenticate] else [];
      Completed(Planned(u), fault) ==
        if fault.FailsAt? && fault.step == Reauthenticate && u.email != "" then []
        else if fault.FailsAt? && fault.step == DeleteUserDoc then r
        else if fault.FailsAt? && fault.step == DeleteAuthUser then r + [DeleteUserDoc]
        else r + [DeleteUserDoc, DeleteAuthUser]
  {
    var p := Planned(u);
    if u.email != "" {
      assert p[1..] == [DeleteUserDoc, DeleteAuthUser];
      assert p[1..][1..] == [DeleteAuthUser];
      assert p[1..][1..][1..] == [];
      assert Completed(p[1..][1..][1..], fault) == [];
    } else {
      assert p == [DeleteUserDoc, DeleteAuthUser];
      assert p[1..] == [DeleteAuthUser];
      assert p[1..][1..] == [];
      assert Completed(p[1..][1..], fault) == [];
    }
  }

  /** An account without an e-mail is never re-authenticated, so a throwing
      re-authentication cannot stop its deletion: every call runs and the deletion succeeds. */
  lemma ReauthFaultWithoutEmail(uid: string, code: string)
    ensures var u := AuthUser(uid, "");
      var f := FailsAt(Reauthenticate, code);
      Succeeds(u, f) && Completed(Planned(u), f) == [DeleteUserDoc, DeleteAuthUser]
  {
    CompletedCases(AuthUser(uid, ""), FailsAt(Reauthenticate, code));
  }

  /** The account document is only deleted after a successful re-authentication (when one is
      needed), and the authentication account only after the document. */
  lemma StepOrder(u: AuthUser, fault: Fault)
    ensures var done := Completed(Planned(u), fault);
      && (DeleteUserDoc in done && u.email != "" ==> Reauthenticate in done)
      && (DeleteAuthUser in done ==> DeleteUserDoc in done)
  {
    var p := Planned(u);
    var done := Completed(p, fault);
    if DeleteUserDoc in done && u.email != "" {
      var k :| 0 <= k < |done| && done[k] == DeleteUserDoc;
      assert p[k] == DeleteUserDoc;
      assert k >= 1;
      assert done[0] == p[0] == Reauthenticate;
    }
    if DeleteAuthUser in done {
      var k :| 0 <= k < |done| && done[k] == DeleteAuthUser;
      assert p[k] == DeleteAuthUser;
      assert k == |p| - 1;
      assert done[k - 1] == p[k - 1] == DeleteUserDoc;
    }
  }
}
