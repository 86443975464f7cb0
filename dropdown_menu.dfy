/**
 * The account drop-down of the header: the shortened name and e-mail, the plan
 * label, the state its auth listener keeps, sign-out and the theme switch.
 */
module DropdownMenu {
  import opened Base
  import opened Text
  import opened Store

  const Fallback := "Pengguna"

  /** `truncateName(name, maxLength)` (15 when not given): "Pengguna" for an empty name,
      otherwise the name cut to `maxLength` characters plus "...". */
  function TruncateName(name: string, maxLength: nat): (r: string)
    ensures name == "" ==> r == Fallback
    ensures name != "" && |name| <= maxLength ==> r == name
    ensures name != "" && |name| > maxLength ==> r == name[..maxLength] + "..."
    ensures |r| <= if name == "" then |Fallback| else maxLength + 3
  {
    if name == "" then Fallback else Truncate(name, maxLength)
  }

  /** The e-mail line: more than 30 characters are cut to 30 plus "...". */
  function ShownEmail(email: string): (r: string)
    ensures |email| <= 30 ==> r == email
    ensures |email| > 30 ==> |r| == 33 && r[..30] == email[..30] && r[30..] == "..."
  {
    Truncate(email, 30)
  }

  /** The name on the trigger and in the header: `truncateName(displayName || "Pengguna", n)`. */
  function ShownName(displayName: string, n: nat): (r: string)
    ensures displayName == "" && n >= |Fallback| ==> r == Fallback
    ensures 0 < |displayName| <= n ==> r == displayName
  {
    TruncateName(Or(displayName, Fallback), n)
  }

  /** The plan label, `plan || "FREE"`. */
  function PlanText(plan: Option<string>): (t: string)
    ensures plan.None? || plan.value == "" ==> t == "FREE"
    ensures plan.Some? && plan.value != "" ==> t == plan.value
  {
    if plan.Some? && plan.value != "" then plan.value else "FREE"
  }

  /** `toggleTheme`: dark becomes light, anything else (light, system, unset) dark. */
  function ToggleTheme(theme: string): (t: string)
    ensures t == "dark" <==> theme != "dark"
    ensures t == "light" <==> theme == "dark"
  {
    if theme == "dark" then "light" else "dark"
  }

  /** Toggling twice restores dark and light, and only those. */
  lemma ToggleTwice(theme: string)
    ensures ToggleTheme(ToggleTheme(theme)) == theme <==> theme == "dark" || theme == "light"
  {
  }

  /** The signed-in account as the menu reads it. */
  datatype MenuUser = MenuUser(uid: string, displayName: string, email: string, photoURL: string)

  /** The menu's state. */
  class Menu {
    var user: Option<MenuUser>
    var plan: Option<string>
    var role: Option<string>
    var isUserExists: bool
    var theme: string
    var pushed: seq<string>
    var toasts: seq<string>

    constructor (initialTheme: string)
      ensures user.None? && plan.None? && role.None? && !isUserExists
      ensures theme == initialTheme && pushed == [] && toasts == []
    {
      user := None;
      plan := None;
      role := None;
      isUserExists := false;
      theme := initialTheme;
      pushed := [];
      toasts := [];
    }

    /** The `onAuthStateChanged` listener. A signed-in account without a document keeps the
        role and plan the menu already had. */
    method OnAuthStateChanged(currentUser: Option<MenuUser>, users: map<string, UserDoc>)
      modifies this
      ensures user == currentUser
      ensures currentUser.None? ==> !isUserExists && role.None? && plan.None?
      ensures currentUser.Some? ==> (isUserExists <==> currentUser.value.uid in users)
      ensures currentUser.Some? && currentUser.value.uid in users ==>
                var d := users[currentUser.value.uid];
                && role == (if d.role != "" then Some(d.role) else None)
                && plan == Some(Or(d.plan, "FREE"))
      ensures currentUser.Some? && currentUser.value.uid !in users ==> role == old(role) && plan == old(plan)
      ensures theme == old(theme) && pushed == old(pushed) && toasts == old(toasts)
    {
      user := currentUser;
      if currentUser.Some? {
        var uid := currentUser.value.uid;
        isUserExists := uid in users;
        if uid in users {
          var d := users[uid];
          role := if d.role != "" then Some(d.role) else None;
          plan := Some(Or(d.plan, "FREE"));
        }
      } else {
        isUserExists := false;
        role := None;
        plan := None;
      }
    }

    /** `handleLogout`: go home and say goodbye; the sign-out itself is the authentication
        service's, whose listener then clears the state. */
    method HandleLogout()
      modifies this
      ensures pushed == old(pushed) + ["/"]
      ensures toasts == old(toasts) + ["Sampai Jumpa, " + ShownName(if old(user).Some? then old(user).value.displayName else "", 20) + "!"]
      ensures user == old(user) && plan == old(plan) && role == old(role) && isUserExists == old(isUserExists)
      ensures theme == old(theme)
    {
      pushed := pushed + ["/"];
      var name := if user.Some? then user.value.displayName else "";
      toasts := toasts + ["Sampai Jumpa, " + ShownName(name, 20) + "!"];
    }

    /** The theme item. */
    method Toggle()
      modifies this
      ensures theme == ToggleTheme(old(theme))
      ensures user == old(user) && plan == old(plan) && role == old(role) && isUserExists == old(isUserExists)
      ensures pushed == old(pushed) && toasts == old(toasts)
    {
      theme := ToggleTheme(theme);
    }
  }

  /** A document without a plan shows "FREE", one with a plan shows it as stored. */
  lemma PlanFromDocument(d: UserDoc)
    ensures PlanText(Some(Or(d.plan, "FREE"))) == if d.plan == "" then "FREE" else d.plan
  {
  }
}
