/**
 * The profile page: the profile and password schemas, the avatar file check, and
 * the two submit handlers with their guards.
 */
module ProfilePage {
  import opened Base
  import opened Text
  import opened Store

  /** The profile form. */
  datatype ProfileForm = ProfileForm(displayName: string, email: string, phoneNumber: string)

  /** A character `[0-9+\-\s()]` admits. */
  predicate PhoneChar(c: char) {
    IsDigit(c) || c == '+' || c == '-' || IsWhitespace(c) || c == '(' || c == ')'
  }

  /** `z.string().min(10).regex(/^[0-9+\-\s()]*$/)`. */
  predicate PhoneOk(phone: string) {
    |phone| >= 10 && forall i :: 0 <= i < |phone| ==> PhoneChar(phone[i])
  }

  /** `profileSchema`; `isEmail` stands for zod's e-mail check. */
  predicate ProfileAccepts(f: ProfileForm, isEmail: string -> bool) {
    |f.displayName| >= 3 && isEmail(f.email) && PhoneOk(f.phoneNumber)
  }

  /** The password form. */
  datatype PasswordForm = PasswordForm(currentPassword: string, newPassword: string, confirmPassword: string)

  const EmptyPasswordForm := PasswordForm("", "", "")

  /** The code units `.` does not match: the ECMAScript line terminators. */
  predicate IsLineTerminator(c: char) {
    c == '\n' || c == '\r' || c == '\U{2028}' || c == '\U{2029}'
  }

  predicate IsLowerAscii(c: char) { 'a' <= c <= 'z' }
  predicate IsUpperAscii(c: char) { 'A' <= c <= 'Z' }

  /** `/^(?=.*[a-z])(?=.*[A-Z])(?=.*\d).*$/` without flags, as a scan of the string: the
      whole string is one line, and each lookahead finds its class somewhere on it. */
  function StrongPasswordScan(s: string): (r: bool)
    ensures r <==> (forall i :: 0 <= i < |s| ==> !IsLineTerminator(s[i]))
                   && (exists i :: 0 <= i < |s| && IsLowerAscii(s[i]))
                   && (exists i :: 0 <= i < |s| && IsUpperAscii(s[i]))
                   && (exists i :: 0 <= i < |s| && IsDigit(s[i]))
  {
    ScanFrom(s, 0, false, false, false)
  }

  /** The scan from position `k` on, having seen a lower, an upper and a digit so far or not. */
  function ScanFrom(s: string, k: nat, lower: bool, upper: bool, digit: bool): (r: bool)
    requires k <= |s|
    requires lower <==> exists i :: 0 <= i < k && IsLowerAscii(s[i])
    requires upper <==> exists i :: 0 <= i < k && IsUpperAscii(s[i])
    requires digit <==> exists i :: 0 <= i < k && IsDigit(s[i])
    requires forall i :: 0 <= i < k ==> !IsLineTerminator(s[i])
    ensures r <==> (forall i :: 0 <= i < |s| ==> !IsLineTerminator(s[i]))
                   && (exists i :: 0 <= i < |s| && IsLowerAscii(s[i]))
                   && (exists i :: 0 <= i < |s| && IsUpperAscii(s[i]))
                   && (exists i :: 0 <= i < |s| && IsDigit(s[i]))
    decreases |s| - k
  {
    if k == |s| then lower && upper && digit
    else if IsLineTerminator(s[k]) then false
    else ScanFrom(s, k + 1, lower || IsLowerAscii(s[k]), upper || IsUpperAscii(s[k]), digit || IsDigit(s[k]))
  }

  /** `passwordSchema`: the error of the final refinement is reported on `confirmPassword`. */
  predicate PasswordAccepts(f: PasswordForm) {
    |f.currentPassword| >= 1 && |f.newPassword| >= 6 && StrongPasswordScan(f.newPassword)
    && |f.confirmPassword| >= 1 && f.newPassword == f.confirmPassword
  }

  /** A new password must be at least 6 code units long and mix the three classes. */
  lemma PasswordRules(f: PasswordForm)
    ensures PasswordAccepts(f) ==>
              |f.newPassword| >= 6 && f.currentPassword != "" && f.confirmPassword == f.newPassword
              && (exists i :: 0 <= i < |f.newPassword| && IsLowerAscii(f.newPassword[i]))
              && (exists i :: 0 <= i < |f.newPassword| && IsUpperAscii(f.newPassword[i]))
              && (exists i :: 0 <= i < |f.newPassword| && IsDigit(f.newPassword[i]))
    ensures f.currentPassword != "" && f.newPassword == "Abc123" && f.confirmPassword == "Abc123" ==> PasswordAccepts(f)
    ensures f.newPassword == "abc123" ==> !PasswordAccepts(f)
  {
    if f.newPassword == "Abc123" {
      assert IsLowerAscii(f.newPassword[1]) && IsUpperAscii(f.newPassword[0]) && IsDigit(f.newPassword[3]);
    }
    if f.newPassword == "abc123" {
      assert forall i :: 0 <= i < |f.newPassword| ==> !IsUpperAscii(f.newPassword[i]);
    }
  }

  /** The image types the avatar picker takes, and its size limit in bytes. */
  const ValidTypes: seq<string> := ["image/jpeg", "image/png", "image/gif", "image/webp", "image/svg+xml"]
  const MaxPhotoBytes := 15 * 1024 * 1024

  /** The checks of `validateAndPreviewFile`. */
  predicate FileAccepted(fileType: string, size: int) {
    fileType in ValidTypes && size <= MaxPhotoBytes
  }

  /** A photo goes up only when the preview is set and differs from the stored photo. */
  predicate ShouldUpload(photoPreview: Option<string>, photoURL: Option<string>) {
    photoPreview.Some? && photoPreview.value != "" && Some(photoPreview.value) != photoURL
  }

  /** Which storage call of the photo upload throws, if any. */
  datatype StorageFault = StorageOk | UploadFails | DownloadUrlFails

  /** The page's state, with the `users` documents its handlers write. */
  class Page {
    var users: map<string, UserDoc>
    var photoURL: Option<string>
    var photoPreview: Option<string>
    var signType: string
    var isSubmitting: bool
    var isDialogOpen: bool
    var isPasswordUpdating: bool
    var passwordForm: PasswordForm
    var uploads: seq<string>
    var pushed: seq<string>
    var signedOut: bool

    constructor (docs: map<string, UserDoc>)
      ensures users == docs && photoURL.None? && photoPreview.None? && signType == ""
      ensures !isSubmitting && !isDialogOpen && !isPasswordUpdating && passwordForm == EmptyPasswordForm
      ensures uploads == [] && pushed == [] && !signedOut
    {
      users := docs;
      photoURL := None;
      photoPreview := None;
      signType := "";
      isSubmitting := false;
      isDialogOpen := false;
      isPasswordUpdating := false;
      passwordForm := EmptyPasswordForm;
      uploads := [];
      pushed := [];
      signedOut := false;
    }

    /** The effect on the auth state. Signed out once loading is over, it navigates to
        "/forbidden". Signed in, the photo and its preview become the account's photo, and
        the account's document, when it exists and its read does not throw (`docFails`),
        gives the sign-up type. */
    method LoadUserData(user: Option<string>, loading: bool, authPhoto: string, docFails: bool)
      modifies this
      ensures user.None? && !loading ==> pushed == old(pushed) + ["/forbidden"]
      ensures user.None? ==> photoURL == old(photoURL) && photoPreview == old(photoPreview) && signType == old(signType)
      ensures user.None? && loading ==> pushed == old(pushed)
      ensures user.Some? ==>
                && photoURL == Some(authPhoto) && photoPreview == Some(authPhoto) && pushed == old(pushed)
                && signType == (if !docFails && user.value in users then users[user.value].signType else old(signType))
      ensures users == old(users) && uploads == old(uploads) && signedOut == old(signedOut)
      ensures isSubmitting == old(isSubmitting) && isDialogOpen == old(isDialogOpen)
      ensures isPasswordUpdating == old(isPasswordUpdating) && passwordForm == old(passwordForm)
    {
      if user.None? {
        if !loading {
          pushed := pushed + ["/forbidden"];
        }
        return;
      }
      photoURL := Some(authPhoto);
      photoPreview := Some(authPhoto);
      if !docFails && user.value in users {
        signType := users[user.value].signType;
      }
    }

    /** `validateAndPreviewFile`: an accepted file becomes the preview (`dataUrl` is what
        the reader produces); a rejected one changes nothing. */
    method ValidateAndPreviewFile(fileType: string, size: int, dataUrl: string)
      modifies this
      ensures FileAccepted(fileType, size) ==> photoPreview == Some(dataUrl)
      ensures !FileAccepted(fileType, size) ==> photoPreview == old(photoPreview)
      ensures users == old(users) && photoURL == old(photoURL) && uploads == old(uploads)
      ensures isSubmitting == old(isSubmitting) && isDialogOpen == old(isDialogOpen)
      ensures isPasswordUpdating == old(isPasswordUpdating) && passwordForm == old(passwordForm)
      ensures signType == old(signType) && pushed == old(pushed) && signedOut == old(signedOut)
    {
      if fileType !in ValidTypes {
        return;
      }
      if size > MaxPhotoBytes {
        return;
      }
      photoPreview := Some(dataUrl);
    }

    /** `onSubmit`. `hasFile` says whether a file is at hand for the preview, `downloadUrl`
        is the uploaded photo's address, `storage` says which storage call throws and
        `authFails` whether `updateProfile` throws; `updateDoc` throws for a missing document.
        Any of these throws lands in the `catch`, which writes nothing more. */
    method OnSubmit(data: ProfileForm, user: Option<string>, hasFile: bool, downloadUrl: string,
                    storage: StorageFault, authFails: bool)
      modifies this
      ensures user.None? ==> users == old(users) && uploads == old(uploads) && isDialogOpen == old(isDialogOpen)
                             && isSubmitting == old(isSubmitting)
      ensures user.Some? ==> !isSubmitting
      ensures user.Some? ==>
                var attempted := ShouldUpload(old(photoPreview), old(photoURL)) && hasFile;
                && uploads == old(uploads) + (if attempted && !storage.UploadFails? then [user.value] else [])
                && var photo := if attempted then downloadUrl else old(photoURL).GetOr("");
                   if !(attempted && !storage.StorageOk?) && !authFails && user.value in old(users) then
                     users == old(users)[user.value := old(users)[user.value].(displayName := data.displayName,
                                email := data.email, phoneNumber := data.phoneNumber, photoURL := photo)]
                     && !isDialogOpen
                   else users == old(users) && isDialogOpen == old(isDialogOpen)
      ensures photoURL == old(photoURL) && photoPreview == old(photoPreview) && signType == old(signType)
      ensures isPasswordUpdating == old(isPasswordUpdating) && passwordForm == old(passwordForm)
      ensures pushed == old(pushed) && signedOut == old(signedOut)
    {
      if user.None? {
        return;
      }
      var uid := user.value;
      isSubmitting := true;
      var newPhotoURL := photoURL.GetOr("");
      if ShouldUpload(photoPreview, photoURL) && hasFile {
        if storage.UploadFails? {
          isSubmitting := false;
          return;
        }
        uploads := uploads + [uid];
        if storage.DownloadUrlFails? {
          isSubmitting := false;
          return;
        }
        newPhotoURL := downloadUrl;
      }
      if !authFails && uid in users {
        users := users[uid := users[uid].(displayName := data.displayName, email := data.email,
                                          phoneNumber := data.phoneNumber, photoURL := newPhotoURL)];
        isDialogOpen := false;
      }
      isSubmitting := false;
    }

    /** `onPasswordSubmit`: only for a signed-in account created with e-mail and password.
        `authFails` says whether `updatePassword` throws; `hash` stands for bcrypt. On success
        the timer it starts signs the account out and navigates home. */
    method OnPasswordSubmit(data: PasswordForm, user: Option<string>, authFails: bool, hash: string -> string)
      modifies this
      ensures (user.None? || old(signType) != "credential") ==>
                users == old(users) && passwordForm == old(passwordForm) && isPasswordUpdating == old(isPasswordUpdating)
                && pushed == old(pushed) && signedOut == old(signedOut)
      ensures user.Some? && old(signType) == "credential" ==>
                !isPasswordUpdating
                && if !authFails && user.value in old(users) then
                     users == old(users)[user.value := old(users)[user.value].(hashedPassword := hash(data.newPassword))]
                     && passwordForm == EmptyPasswordForm && signedOut && pushed == old(pushed) + ["/"]
                   else users == old(users) && passwordForm == old(passwordForm)
                        && pushed == old(pushed) && signedOut == old(signedOut)
      ensures photoURL == old(photoURL) && photoPreview == old(photoPreview) && signType == old(signType)
      ensures isSubmitting == old(isSubmitting) && isDialogOpen == old(isDialogOpen) && uploads == old(uploads)
    {
      if user.None? || signType != "credential" {
        return;
      }
      var uid := user.value;
      isPasswordUpdating := true;
      if !authFails && uid in users {
        users := users[uid := users[uid].(hashedPassword := hash(data.newPassword))];
        passwordForm := EmptyPasswordForm;
        signedOut := true;
        pushed := pushed + ["/"];
      }
      isPasswordUpdating := false;
    }
  }

  /** Exactly the five listed types pass, and only up to 15 MiB inclusive. */
  lemma FileRule(fileType: string, size: int)
    ensures FileAccepted(fileType, size) ==> size <= 15728640
    ensures fileType == "image/png" && size == 15728640 ==> FileAccepted(fileType, size)
    ensures size == 15728641 || fileType == "application/pdf" ==> !FileAccepted(fileType, size)
  {
  }

  /** A preview equal to the stored photo, or no preview, never uploads. */
  lemma NoUploadWithoutChange(photoPreview: Option<string>, photoURL: Option<string>)
    requires photoPreview.None? || photoPreview == photoURL
    ensures !ShouldUpload(photoPreview, photoURL)
  {
  }
}
