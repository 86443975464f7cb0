/**
 * `useUser.tsx`: the `UserProvider` context with its fixed sample user and no-op
 * actions, the `useUser` guard, and the `useUrls` hook whose three actions are
 * list transformations handed to `setUrls`.
 */
module UseUser {
  import opened Base
  import opened Text
  import opened Links

  /** The provider's user record; `photoUrl` is "" when absent. */
  datatype User = User(
    uid: string,
    displayName: string,
    email: string,
    photoUrl: string,
    plan: string,
    role: string,
    status: string,
    createdAt: string,
    signType: string)

  /** What the context carries. */
  datatype UserContext = UserContext(user: Option<User>, loading: bool, error: Option<string>)

  /** The sample user's photo. */
  const SamplePhoto := "https://images.unsplash.com/photo-1472099645785-5658abf4ff4e?ixlib=rb-1.2.1&ixid=eyJhcHBfaWQiOjEyMDd9&auto=format&fit=facearea&facepad=2&w=256&h=256&q=80"

  /** The provider's fixed user. */
  function DummyUser(): (u: User)
    ensures u.role == "user" && u.plan == "pro" && u.status == "active" && u.signType == "google"
  {
    User("dummy-user-id", "John Doe", "john.doe@example.com", SamplePhoto, "pro", "user", "active", "2024-01-15", "google")
  }

  /** The value `UserProvider` supplies. */
  function ProviderContext(): (c: UserContext)
    ensures c.user == Some(DummyUser()) && !c.loading && c.error.None?
  {
    UserContext(Some(DummyUser()), false, None)
  }

  /** A partial user handed to `updateUser`; only its presence matters here. */
  datatype UserPatch = UserPatch(displayName: Option<string>, email: Option<string>, plan: Option<string>)

  /** `updateUser` and `logout` only log: the context keeps the user it had. */
  function UpdateUser(c: UserContext, patch: UserPatch): (r: UserContext)
    ensures r.user == c.user
  {
    c
  }

  function Logout(c: UserContext): (r: UserContext)
    ensures r.user == c.user
  {
    c
  }

  /** The outcome of calling a hook: its value, or the error it throws. */
  datatype Result<T> = Success(value: T) | Throws(message: string)

  const OutsideProvider := "useUser must be used within a UserProvider"

  /** `useUser()`: `None` is the context value outside any provider (`undefined`). */
  function UseUserHook(context: Option<UserContext>): (r: Result<UserContext>)
    ensures r.Throws? <==> context.None?
    ensures r.Throws? ==> r.message == OutsideProvider
    ensures r.Success? ==> r.value == context.value
  {
    match context
    case None => Throws(OutsideProvider)
    case Some(c) => Success(c)
  }

  /** The fields `createUrl` reads; `hashedPassword` may be absent, null or a string. */
  datatype NewUrlInput = NewUrlInput(
    title: string,
    originalUrl: string,
    isPasswordProtected: bool,
    hashedPassword: Option<string>)

  /** `createUrl`: the new list and the record it returns. The link always gets a random
      slug, and an empty hash counts as none (`hashedPassword || null`). */
  function CreateUrl(urls: seq<UrlData>, input: NewUrlInput, nowId: string, random36: string, now: int)
    : (r: (seq<UrlData>, UrlData))
    ensures r.0 == [r.1] + urls
    ensures r.1.id == nowId && r.1.title == input.title && r.1.originalUrl == input.originalUrl
    ensures r.1.shortUrl == ShortLinkUrl(RandomSlug(random36))
    ensures r.1.clicks == 0 && r.1.lastClicked.None? && r.1.createdAt == now
    ensures r.1.isPasswordProtected == input.isPasswordProtected
    ensures r.1.hashedPassword.Some? <==> input.hashedPassword.Some? && input.hashedPassword.value != ""
    ensures r.1.hashedPassword.Some? ==> r.1.hashedPassword == input.hashedPassword
  {
    var hashed := if input.hashedPassword.Some? && input.hashedPassword.value != "" then input.hashedPassword else None;
    var u := UrlData(nowId, input.title, input.originalUrl, ShortLinkUrl(RandomSlug(random36)), 0,
                     input.isPasswordProtected, now, None, hashed);
    ([u] + urls, u)
  }

  /** `updateUrl`: `prev.map(url => url.id === id ? { ...url, ...patch } : url)`. */
  function UpdateUrl(urls: seq<UrlData>, id: string, patch: UrlPatch): (r: seq<UrlData>)
    ensures |r| == |urls|
    ensures forall i :: 0 <= i < |urls| && urls[i].id == id ==> r[i] == Merge(urls[i], patch)
    ensures forall i :: 0 <= i < |urls| && urls[i].id != id ==> r[i] == urls[i]
  {
    if urls == [] then []
    else
      var rest := UpdateUrl(urls[1..], id, patch);
      [if urls[0].id == id then Merge(urls[0], patch) else urls[0]] + rest
  }

  /** Updating an id nobody has leaves the list as it was. */
  lemma UpdateAbsentId(urls: seq<UrlData>, id: string, patch: UrlPatch)
    requires !HasId(urls, id)
    ensures UpdateUrl(urls, id, patch) == urls
  {
  }

  /** `deleteUrl` is `prev.filter(url => url.id !== id)`. */
  function DeleteUrl(urls: seq<UrlData>, id: string): (r: seq<UrlData>)
    ensures r == WithoutId(urls, id)
    ensures !HasId(r, id)
    ensures IsSubsequence(r, urls)
  {
    WithoutIdKeepsOrder(urls, id);
    WithoutId(urls, id)
  }

  /** Creating a link and deleting it by the returned id restores the list, as long as no
      older link already had that id. */
  lemma CreateThenDelete(urls: seq<UrlData>, input: NewUrlInput, nowId: string, random36: string, now: int)
    requires !HasId(urls, nowId)
    ensures var r := CreateUrl(urls, input, nowId, random36, now);
      DeleteUrl(r.0, r.1.id) == urls
  {
    var r := CreateUrl(urls, input, nowId, random36, now);
    WithoutNewHead(r.1, urls);
  }
}
