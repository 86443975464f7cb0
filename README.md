# iShort: a Dafny model of its rule sets

iShort is a URL shortener built with Next.js over Firebase: signed-in users
create short links, optionally password-protected, on a dashboard; an
administrator manages the accounts (role, plan, temporary and permanent bans,
deletion); banned accounts are kept out by a wrapper around every page and
shown a "banned" page. Almost everything in the application is rendering and
calls to the hosted database and authentication service. This project models
the small rule sets that sit between those calls, with the database replaced
by in-memory collections (`Store.Db`: a map of `users` documents and sequences
of `restrict_account`, `shorturls` and `click_url` documents), timestamps as
integers and every call that can fail given a fault input.

One module per source file, plus three shared modules:

- `Base`: `Option`, order-preserving subsequences, `Filter` and `CountWhere`.
- `Text`: the JavaScript string operations the source uses (`||` on strings,
  `startsWith`, `includes`, `split`, `join`, `trim`, `padStart`, `substr`,
  ASCII `toLowerCase`, `String(n)`), over strings of UTF-16 code units.
- `Store`: the four collections and the per-uid queries on them.
- `Links`: the link record shared by the three link-list stores, the object
  spread `{ ...a, ...b }`, the five seed links and removal by id.

Where the source updates component state step by step, the model is a class
with those state fields (plus the router navigations as a `pushed` sequence
and the collections written); pure helpers are functions. Every handler's
`ensures` states its whole new state, and the lemmas beside it connect that
state to the rule it should uphold: a ban that the ban check then sees, an
unban after which it sees nothing, a deletion that leaves nothing of the
account behind, a create then delete that restores the list.

Two properties of the source stand out:

- `BanCheck.ExemptIffRooted`: the exempt-path test matches `"/"` as a prefix,
  so every router path is exempt and the wrapper never runs the ban check.
  The redirect to the banned page therefore never happens.
- `BannedPage.ExpiryInstant` and `BannedPage.ExpiredBanStillShown`: the banned
  page ignores `bannedUntil` when it decides to show the details, and its "ban
  expired" test is strict where the utility's is not.

## Model

| member | source | states |
|---|---|---|
| BanUtils.InfoFromRestrict | src/lib/banUtils.ts:27-35 | the details built from a restrict record: an empty reason becomes "No reason provided", an empty issuer "System", a missing `bannedAt` the current time; permanent exactly when the record says `true`; no end date |
| BanUtils.CheckUserBanStatus | src/lib/banUtils.ts:20-76 | `banInfo` is present exactly when `isBanned`. Without faults, banned exactly when a restrict record names the uid or the status is "banned" with no end or an end still ahead. A restrict hit gives the first record's details; a status ban gives the document's reason or "No reason provided", its `bannedAt` or now, issuer "System", not permanent, and the document's `bannedUntil`. A failing restrict query gives "not banned" |
| BanUtils.BannedBySpec | src/lib/banUtils.ts:20-76 | the reference a fault-free check is proved against: some restrict record names the uid, or the document says "banned" with no end date or one still in the future |
| BanUtils.IsUserBanned | src/lib/banUtils.ts:83-86 | the boolean half of `checkUserBanStatus`, and without faults the same characterisation of being banned |
| BanUtils.RestrictRecordDecides | src/lib/banUtils.ts:23-37 | a restrict record decides alone: banned, `permanent` from the record, no end date, and the `users` collection and a failure of its lookup make no difference |
| BanUtils.StatusBanWithoutExpiry | src/lib/banUtils.ts:43-65 | status "banned" without `bannedUntil` is a non-permanent ban issued by "System" |
| BanUtils.TemporaryBanWindow | src/lib/banUtils.ts:48-55 | with an end date, banned exactly while `now < bannedUntil`, and exactly "not banned" from the end on |
| BanUtils.NotBannedWithoutStatus | src/lib/banUtils.ts:41-43 | any other status, or a missing document, gives "not banned" |
| BanUtils.FailsOpen | src/lib/banUtils.ts:71-75 | whichever lookup throws, the result is "not banned" |
| BanCheck.ExemptIffRooted | src/components/BanCheck.tsx:20-23 | a path is exempt exactly when it starts with "/" |
| BanCheck.IsExemptPath | src/components/BanCheck.tsx:20-23 | a path is exempt when it equals one of the six listed paths or starts with one of them; `ExemptIffRooted` shows this is every path that starts with "/" |
| BanCheck.Screen | src/components/BanCheck.tsx:54-70 | the spinner appears only on dashboard paths, a banned user sees the children only on "/banned", and elsewhere sees nothing |
| BanCheck.SpinnerOnlyWhileAuthLoads | src/components/BanCheck.tsx:54 | on a rooted path the spinner shows exactly while authentication loads on a dashboard page |
| BanCheck.BanGate.constructor | src/components/BanCheck.tsx:14-15 | the wrapper starts checking, not banned, with no navigation |
| BanCheck.BanGate.RunEffect | src/components/BanCheck.tsx:25-52 | nothing runs while auth loads. An exempt path or no user only clears `checkingBan`. Otherwise `isBanned` is the lookup's answer, with a push to "/banned" exactly when banned away from that page |
| BanCheck.NoRedirectOnRootedPaths | src/components/BanCheck.tsx:28-31 | every rooted path is exempt, so the effect never redirects, `isBanned` stays false, and once authentication has loaded the children render whatever `checkingBan` says |
| BanCheck.FailOpenRendersChildren | src/components/BanCheck.tsx:41-46 | a failed lookup reads as not banned and the children render |
| BannedPage.PageOutcome | app/banned/page.tsx:35-77 | redirects go only to "/" or "/dashboard". Without faults it shows details exactly when a restrict record exists or the status is "banned", whatever the end date. A restrict hit shows the first record's details; a status ban shows the reason or "No reason provided", the current time, issuer "System", not permanent, and the document's `bannedUntil`. A failing query sends the user home |
| BannedPage.BadgeLabel | app/banned/page.tsx:138-147 | "Permanent Ban" exactly for permanent bans, "Ban Expired" exactly when the temporary ban has run out |
| BannedPage.NoticesExclusive | app/banned/page.tsx:185-193 | the temporary and expired notices never show together, and a temporary ban with an end shows one of them |
| BannedPage.BannedUserSeesInfo | app/banned/page.tsx:40-60 | whoever the ban check finds banned is shown their details here |
| BannedPage.ExpiredBanStillShown | app/banned/page.tsx:49-60 | after a temporary ban ends the ban check admits the user, yet the page still shows the details |
| BannedPage.ExpiryInstant | app/banned/page.tsx:106-109 | at the end instant the utility already reports "not banned" while the page reports "not expired" |
| BannedPage.IsTemporaryBanExpired | app/banned/page.tsx:106-109 | a shown ban has expired only when it is not permanent, has an end date, and now is strictly after it |
| BannedPage.ShowsTemporaryNotice | app/banned/page.tsx:184-189 | the suspension notice appears for a non-permanent ban with an end date that has not passed; `NoticesExclusive` pairs it with the expired notice |
| BannedPage.ShowsExpiredNotice | app/banned/page.tsx:192-197 | the expired notice appears exactly when the ban has expired |
| BannedPage.BannedIgnoringExpiry | app/banned/page.tsx:40-60 | the page's reference: some restrict record names the uid, or the document says "banned", whatever its end date; `PageOutcome` and `ExpiredBanStillShown` are stated against it |
| BannedPage.Screen | app/banned/page.tsx:111-120 | the spinner shows exactly while either flag is loading |
| BannedPage.Page.constructor | app/banned/page.tsx:25-26 | no details yet, loading |
| BannedPage.Page.CheckBanStatus | app/banned/page.tsx:28-83 | no user pushes "/" with no lookup; otherwise the outcome of `PageOutcome` becomes the details or the navigation, and loading ends |
| UrlDialog.TitleBounds | src/sections/dashboard/UrlDialog.tsx:18 | a title of 100 code units passes; an empty one or one over 100 fails |
| UrlDialog.SlugOkIff | src/sections/dashboard/UrlDialog.tsx:20-26 | a given slug passes exactly when it has at most 25 code units and no whitespace |
| UrlDialog.PasswordRule | src/sections/dashboard/UrlDialog.tsx:30-40 | with the switch on, a password of at least 6 is required; with it off, anything passes |
| UrlDialog.TitleOk | src/sections/dashboard/UrlDialog.tsx:18 | a title of 1 to 100 code units; `TitleBounds` states the inclusive ends |
| UrlDialog.SlugOk | src/sections/dashboard/UrlDialog.tsx:20-26 | an absent slug, an empty one, or one of at most 25 code units without whitespace; `SlugOkIff` states it both ways |
| UrlDialog.PasswordOk | src/sections/dashboard/UrlDialog.tsx:30-40 | with `usePassword` on, a present password of at least 6; `PasswordRule` states it both ways |
| UrlDialog.SchemaAccepts | src/sections/dashboard/UrlDialog.tsx:16-41 | the dialog schema holds when the title, the URL, the slug and the password rule all hold; `HashedIffProtected` is stated for the forms it accepts |
| UrlDialog.SlugAvailable | src/sections/dashboard/UrlDialog.tsx:71-83 | an empty slug is available; otherwise available exactly when the query succeeds and no stored link has that slug |
| UrlDialog.TakenSlugUnavailable | src/sections/dashboard/UrlDialog.tsx:76-78 | a stored slug is never available |
| UrlDialog.Dialog.constructor | src/sections/dashboard/UrlDialog.tsx:68 | not checking, nothing submitted |
| UrlDialog.Dialog.HandleSubmit | src/sections/dashboard/UrlDialog.tsx:85-111 | without a user nothing happens. A new link with an unavailable custom slug is never submitted; every other form is submitted once; the checking flag ends cleared |
| CreatePage.ChosenSlug | app/dashboard/create/main.tsx:90 | a non-empty custom slug is kept; otherwise the slug is at most 8 characters |
| CreatePage.NewShortUrl | app/dashboard/create/main.tsx:93-108 | the stored document: title, long URL, owner, chosen slug, 0 clicks, no last click, protection flag from the form, and a hash exactly when the switch is on with a non-empty password |
| CreatePage.HashedIffProtected | app/dashboard/create/main.tsx:93-103 | for a form the schema accepts, a hash is stored exactly for protected links |
| CreatePage.FullShortUrl | app/dashboard/create/main.tsx:114-115 | the finished link is the environment's origin, "/", then the slug |
| CreatePage.Domain | app/dashboard/create/main.tsx:114 | the production origin "https://ishort.my.id", otherwise "http://localhost:3000"; `FullShortUrl` prefixes it |
| CreatePage.FullShortUrlSlug | app/dashboard/create/main.tsx:115 | the slug is the finished link's last "/"-piece |
| CreatePage.Page.constructor | app/dashboard/create/main.tsx:25-27 | not submitting, not checking, nothing created |
| CreatePage.Page.HandleSubmit | app/dashboard/create/main.tsx:67-132 | without a user nothing changes. A taken custom slug writes nothing and clears both flags. Otherwise the document is appended and the success card set exactly when the write succeeds |
| CreatePage.CreatedSlugIsTaken | app/dashboard/create/main.tsx:54-65 | after a link is written its slug is no longer available |
| Links.Merge | app/api/urls/route.ts:112 | the object spread: every key the patch has overrides, every other field stays |
| Links.MergeLaws | src/hooks/useUser.tsx:184 | merging nothing is the identity, merging a patch twice is merging it once, and a patch without `id` keeps the id |
| Links.ShortLinkUrl | app/api/urls/route.ts:85 | the link is "https://ishort.link/" followed by the slug |
| Links.ShortLinkSlug | app/dashboard/main.tsx:184 | the slug comes back as the link's last "/"-piece when it holds no "/" |
| Links.RandomSlug | app/api/urls/route.ts:85 | `substr(2, 8)` of the base-36 rendering is at most 8 characters |
| Links.NewLink | app/api/urls/route.ts:81-91 | the new record: given id, title, URL and time, the custom or random slug, 0 clicks, no last click, and "hashed_password" exactly when protected |
| Links.January2024 | app/api/urls/route.ts:16-67 | a seed date is midnight UTC of that January 2024 day |
| Links.Seed | app/api/urls/route.ts:16-67 | five sample links |
| Links.SeedIdsDistinct | app/api/urls/route.ts:16-67 | the sample ids are pairwise distinct |
| Links.WithoutId | src/hooks/useUser.tsx:188 | the survivors are exactly the links of the list without the id |
| Links.WithoutIdKeepsOrder | src/hooks/useUser.tsx:188 | the survivors keep their order |
| Links.WithoutAbsentId | src/hooks/useUser.tsx:188 | removing an unknown id is a no-op |
| Links.WithoutNewHead | src/hooks/useUser.tsx:179-188 | removing the id of a fresh head gives the old list back |
| ApiUrls.FirstIndex | app/api/urls/route.ts:107 | `findIndex`: -1 exactly when no link has the id, otherwise the first position that has it |
| ApiUrls.UrlStore.constructor | app/api/urls/route.ts:16-67 | the store holds the seed links |
| ApiUrls.UrlStore.FindIndex | app/api/urls/route.ts:107 | the loop returns `FirstIndex` |
| ApiUrls.UrlStore.Get | app/api/urls/route.ts:69-76 | 200 with the whole list |
| ApiUrls.UrlStore.Post | app/api/urls/route.ts:78-100 | an unreadable body answers 500 and changes nothing; otherwise the new record is put in front and returned |
| ApiUrls.UrlStore.Put | app/api/urls/route.ts:102-119 | an unreadable body answers 500, an unknown id 404, both changing nothing; otherwise the first link with the id is merged with the rest of the body and returned, and the list becomes `AfterPut` |
| ApiUrls.UrlStore.Delete | app/api/urls/route.ts:121-142 | a missing id answers 400 and an unknown one 404, both changing nothing; otherwise the list becomes `AfterDelete`, the first link with the id spliced out |
| ApiUrls.AfterPut | app/api/urls/route.ts:107-112 | the list a successful `PUT` leaves: the first link with the id merged with the body, its id kept; `PutTouchesOne` states its properties |
| ApiUrls.AfterDelete | app/api/urls/route.ts:130-135 | the list a successful `DELETE` leaves: the first link with the id spliced out; `DeleteRemovesFirst` and `PostThenDelete` state its properties |
| ApiUrls.PostIsFoundFirst | app/api/urls/route.ts:93-107 | after `unshift` the new link is what `findIndex` finds for its id; for any other id `findIndex` answers one position further back than before, or -1 as before |
| ApiUrls.PutTouchesOne | app/api/urls/route.ts:107-112 | `AfterPut`, the list `Put` leaves: same length, every other link untouched, the target keeps its id and stays where `findIndex` finds it, and repeating the same `PUT` changes nothing |
| ApiUrls.DeleteRemovesFirst | app/api/urls/route.ts:130-135 | `AfterDelete`, the list `Delete` leaves: one link fewer, the first with the id, the others in their order, so a later duplicate of the id survives |
| ApiUrls.PostThenDelete | app/api/urls/route.ts:93-135 | deleting the id of the link just posted gives back the list from before the `POST` |
| UseUser.DummyUser | src/hooks/useUser.tsx:28-38 | the fixed user is an active "pro" user signed in with Google |
| UseUser.ProviderContext | src/hooks/useUser.tsx:53-55 | the provider supplies that user, not loading, with no error |
| UseUser.UpdateUser | src/hooks/useUser.tsx:43-46 | the user is unchanged |
| UseUser.Logout | src/hooks/useUser.tsx:48-51 | the user is unchanged |
| UseUser.UseUserHook | src/hooks/useUser.tsx:60-66 | throws exactly outside a provider, with the source's message; otherwise returns the context |
| UseUser.CreateUrl | src/hooks/useUser.tsx:166-181 | the new list is the returned record in front of the old list; the record has the given fields, a random slug link, 0 clicks, no last click, and a hash only when a non-empty one was given |
| UseUser.UpdateUrl | src/hooks/useUser.tsx:183-185 | same length; every link with the id is merged, every other one kept |
| UseUser.UpdateAbsentId | src/hooks/useUser.tsx:184 | updating an unknown id is a no-op |
| UseUser.DeleteUrl | src/hooks/useUser.tsx:187-189 | no link with the id remains, the others stay in order |
| UseUser.CreateThenDelete | src/hooks/useUser.tsx:166-189 | create then delete by the returned id restores the list when the id was new |
| DashboardMain.DashboardSchemaLooser | app/dashboard/main.tsx:20-39 | the dashboard's schema accepts every form the dialog's does, and also slugs with spaces |
| DashboardMain.DashboardSchemaAccepts | app/dashboard/main.tsx:20-39 | the dashboard schema: the dialog's rules without any rule on the slug; `DashboardSchemaLooser` shows it is strictly looser |
| DashboardMain.FormLink | app/dashboard/main.tsx:150-160 | the record `handleSubmit` builds: the form's title, URL and password flag, the custom slug or the random one, no clicks; `EditResetsStatistics` and `HandleSubmit` use it |
| DashboardMain.ReplaceEdited | app/dashboard/main.tsx:164 | same length; every link with the edited id becomes the new record with the old id and date, every other link stays |
| DashboardMain.EditResetsStatistics | app/dashboard/main.tsx:150-164 | an edited link keeps id and creation date but restarts at 0 clicks and no last click |
| DashboardMain.EditForm | app/dashboard/main.tsx:180-188 | the edit form takes title, URL, the slug as the last "/"-piece, the protection flag, and an empty password |
| DashboardMain.EditPrefillsSlug | app/dashboard/main.tsx:154-184 | a link created with a custom slug free of "/" brings that slug back into the edit form |
| DashboardMain.ChartData | app/dashboard/main.tsx:135-138 | at most ten bars, the first ten links in order, by slug and clicks |
| DashboardMain.Pie | app/dashboard/main.tsx:141-146 | the two slices add up to the number of links, protected counting the protected ones |
| DashboardMain.PublicIsUnprotected | app/dashboard/main.tsx:142 | the public slice counts the unprotected links |
| DashboardMain.Dashboard.constructor | app/dashboard/main.tsx:66-130 | the seed links, dialog closed, no edit, the default form |
| DashboardMain.Dashboard.HandleSubmit | app/dashboard/main.tsx:148-178 | with an edit in progress the edited link is replaced, otherwise the new link goes in front; the form resets and the dialog closes |
| DashboardMain.Dashboard.HandleEdit | app/dashboard/main.tsx:180-188 | remembers the link, fills the edit form, opens the dialog |
| DashboardMain.Dashboard.HandleDelete | app/dashboard/main.tsx:190-193 | no link with the id remains, the rest stay in order |
| UsersAdmin.DefaultUser | app/dashboard/users/main.tsx:140-155 | the row's defaults: name from the name, then the e-mail, then "Unknown User"; "user", "free", "active", "credential"; a creation date of now when missing |
| UsersAdmin.DefaultKeepsComplete | app/dashboard/users/main.tsx:140-155 | a complete document is shown as stored |
| UsersAdmin.FetchList | app/dashboard/users/main.tsx:140 | one row per document, in snapshot order |
| UsersAdmin.FetchListsStored | app/dashboard/users/main.tsx:134-155 | the rows built from a snapshot of the collection list every stored account exactly once, each with its own document's defaults |
| UsersAdmin.MatchesAt | app/dashboard/users/main.tsx:127 | the search test is an occurrence of the lowered term in the lowered name or e-mail |
| UsersAdmin.SearchFilter | app/dashboard/users/main.tsx:122-133 | an empty term shows everyone; otherwise exactly the matching rows, in order |
| UsersAdmin.SearchIgnoresCase | app/dashboard/users/main.tsx:127 | two terms equal up to ASCII case give the same result |
| UsersAdmin.RoleGate | app/dashboard/users/main.tsx:82-113 | admitted exactly for an admin; a signed-in non-admin, missing document or failure goes to "/forbidden"; a signed-out visitor to "/auth/signin" once loading ends |
| UsersAdmin.BanUpdate | app/dashboard/users/main.tsx:196-237 | status "banned" with the reason or "No reason provided", the end date for a temporary ban, all else kept |
| UsersAdmin.UnbanUpdate | app/dashboard/users/main.tsx:253-258 | status "active", no end date, no reason, all else kept |
| UsersAdmin.PermanentRecord | app/dashboard/users/main.tsx:204-212 | the restrict record: the uid, permanent, now, the reason or its default, and the admin's uid or "system" |
| UsersAdmin.UsersPage.constructor | app/dashboard/users/main.tsx:65-76 | the given collections, empty lists, no selection, dialogs closed |
| UsersAdmin.UsersPage.FetchUsers | app/dashboard/users/main.tsx:134-165 | reading a snapshot of `db.users`: a failing read keeps the old list; otherwise both lists become the defaulted rows, and a uid is listed exactly when it has a stored document |
| UsersAdmin.UsersPage.ApplySearch | app/dashboard/users/main.tsx:122-133 | the shown list is `SearchFilter` of the list and the term |
| UsersAdmin.UsersPage.HandleBanUser | app/dashboard/users/main.tsx:192-248 | no selection changes nothing. A permanent ban appends the restrict record, a temporary one sets the end; the document update fails on a missing document |
| UsersAdmin.UsersPage.HandleUnbanUser | app/dashboard/users/main.tsx:249-278 | an existing account is reactivated and loses every restrict record; a missing one changes nothing |
| UsersAdmin.UsersPage.HandleDeleteUser | app/dashboard/users/main.tsx:279-319 | no selection changes nothing; otherwise the document, every restrict record and every link of the uid go, clicks untouched |
| UsersAdmin.UsersPage.HandleRoleChange | app/dashboard/users/main.tsx:167-178 | an existing document gets the new role; a missing one changes nothing |
| UsersAdmin.UsersPage.HandlePlanChange | app/dashboard/users/main.tsx:180-191 | an existing document gets the new plan; a missing one changes nothing |
| UsersAdmin.PermanentBanIsSeen | app/dashboard/users/main.tsx:202-212 | after a permanent ban the ban check reports the account banned at every later time; the ban is reported permanent exactly when no older restrict record names the account or the oldest one says permanent |
| UsersAdmin.RestrictForAppend | app/dashboard/users/main.tsx:204 | querying after an append finds the old hits followed by the new record |
| UsersAdmin.TemporaryBanIsSeen | app/dashboard/users/main.tsx:234-237 | for an account that no restrict record names, after a temporary ban the ban check reports banned exactly before its end |
| UsersAdmin.UnbanClears | app/dashboard/users/main.tsx:253-269 | after an unban the ban check finds nothing against the account |
| UsersAdmin.DeleteCascades | app/dashboard/users/main.tsx:286-308 | after a delete no document, restrict record or link of the uid remains, everyone else's stay, and clicks are untouched |
| ProfilePage.StrongPasswordScan | app/dashboard/profile/main.tsx:43-45 | the regular expression holds exactly for a string with no line terminator that has a lowercase ASCII letter, an uppercase one and a digit |
| ProfilePage.ScanFrom | app/dashboard/profile/main.tsx:43-45 | the scan from a position, with what was seen before, decides the same property |
| ProfilePage.PasswordRules | app/dashboard/profile/main.tsx:37-51 | an accepted password form has a current password, a new one of at least 6 that mixes the three classes, and a matching confirmation |
| ProfilePage.PhoneOk | app/dashboard/profile/main.tsx:30-33 | a phone number of at least 10 characters, each a digit, "+", "-", whitespace or a parenthesis |
| ProfilePage.ProfileAccepts | app/dashboard/profile/main.tsx:27-34 | a name of at least 3, a valid e-mail and an accepted phone number |
| ProfilePage.PasswordAccepts | app/dashboard/profile/main.tsx:37-51 | the password schema; `PasswordRules` states what an accepted form has |
| ProfilePage.Page.constructor | app/dashboard/profile/main.tsx:59-68 | the given documents, no preview, nothing submitting, an empty password form, no navigation yet and still signed in |
| ProfilePage.Page.LoadUserData | app/dashboard/profile/main.tsx:92-113 | a settled load without a user navigates to "/forbidden"; a signed-in user's photo becomes both the stored photo and the preview, and `signType` comes from the user's document when it exists and the read succeeds; nothing else changes |
| ProfilePage.Page.ValidateAndPreviewFile | app/dashboard/profile/main.tsx:122-142 | an accepted file becomes the preview; a rejected one leaves it |
| ProfilePage.Page.OnSubmit | app/dashboard/profile/main.tsx:163-225 | without a user nothing is written; the photo is uploaded only when the preview changed; a throwing `uploadBytes`, `getDownloadURL`, `updateProfile` or `updateDoc` leaves the document and the dialog; otherwise the document gets the profile fields and the dialog closes |
| ProfilePage.Page.OnPasswordSubmit | app/dashboard/profile/main.tsx:227-262 | only a signed-in credential account changes its password; on success the form resets, the user is signed out and the page navigates to "/"; every other path leaves the sign-in and the navigations as they were |
| ProfilePage.FileRule | app/dashboard/profile/main.tsx:122-141 | only the five image types pass, up to 15 MiB inclusive |
| ProfilePage.FileAccepted | app/dashboard/profile/main.tsx:124-134 | one of the five image types and at most 15 MiB; `FileRule` and `ValidateAndPreviewFile` are stated against it |
| ProfilePage.NoUploadWithoutChange | app/dashboard/profile/main.tsx:172 | no preview, or one equal to the stored photo, never uploads |
| ProfilePage.ShouldUpload | app/dashboard/profile/main.tsx:172 | an upload happens when there is a non-empty preview that differs from the stored photo |
| DeleteAccount.ErrorMessage | app/dashboard/profile/DeleteAccount.tsx:62-72 | the three known codes get their own messages, every other code the generic one |
| DeleteAccount.Planned | app/dashboard/profile/DeleteAccount.tsx:38-48 | re-authentication only with an e-mail, then the document, then the account |
| DeleteAccount.Completed | app/dashboard/profile/DeleteAccount.tsx:36-72 | the calls that complete are a prefix, all of them without a fault, and stop just before the one that throws |
| DeleteAccount.DeleteEnabled | app/dashboard/profile/DeleteAccount.tsx:138 | enabled exactly for "delete", a password that is not blank, and no deletion in progress |
| DeleteAccount.Section.constructor | app/dashboard/profile/DeleteAccount.tsx:16-19 | closed, empty fields, not deleting, nothing called |
| DeleteAccount.Section.HandleDeleteAccount | app/dashboard/profile/DeleteAccount.tsx:22-78 | without "delete" nothing changes; a blank password only shows the error; no user shows the generic error; otherwise the calls run in order, success (no call it makes throws) closes the dialog, shows the success toast and goes home, and a throwing call shows its code's message; after the guards both fields are cleared and deletion ends |
| DeleteAccount.Section.RunSteps | app/dashboard/profile/DeleteAccount.tsx:36-72 | the calls before the failing one take effect; when no call the deletion makes throws, the dialog closes, the success toast shows and home is pushed; otherwise the code's message shows |
| DeleteAccount.Attempt | app/dashboard/profile/DeleteAccount.tsx:36-48 | the calls made are exactly those that complete before the throwing one; it fails exactly when the throwing call is one the deletion makes, and reports whether the document and the account were deleted |
| DeleteAccount.Section.Record | app/dashboard/profile/DeleteAccount.tsx:43-48 | adds the completed calls and removes the document and the account exactly when their calls completed |
| DeleteAccount.Section.Finish | app/dashboard/profile/DeleteAccount.tsx:50-72 | on failure only the error toast for the code; on success the dialog closes, the success toast shows and home is pushed |
| DeleteAccount.Section.Cancel | app/dashboard/profile/DeleteAccount.tsx:130-134 | closes the dialog and clears both fields, nothing else |
| DeleteAccount.CompletedCases | app/dashboard/profile/DeleteAccount.tsx:38-48 | the completed calls fault by fault |
| DeleteAccount.ReauthFaultWithoutEmail | app/dashboard/profile/DeleteAccount.tsx:38-48 | an account without an e-mail is never re-authenticated, so a throwing re-authentication cannot stop its deletion |
| DeleteAccount.StepOrder | app/dashboard/profile/DeleteAccount.tsx:38-48 | the document is deleted only after a successful re-authentication, and the account only after the document |
| SignUp.DecimalRoundTrip | app/auth/signup/main.tsx:28-33 | reading back `String(n)` gives `n` |
| SignUp.LeadingZero | app/auth/signup/main.tsx:30-31 | a padding zero does not change the value |
| SignUp.PaddedDigits | app/auth/signup/main.tsx:30-31 | a padded number below 100 is two digits |
| SignUp.FormatDate | app/auth/signup/main.tsx:28-33 | "DD-MM-YYYY": dashes at 2 and 5, digits elsewhere |
| SignUp.PaddedField | app/auth/signup/main.tsx:30-31 | a padded day or month reads back as its number and has no dash |
| SignUp.FormatDateParses | app/auth/signup/main.tsx:28-33 | the date splits on "-" into three pieces that read back as day, month and year |
| SignUp.AvatarUrl | app/auth/signup/main.tsx:67 | the avatar is a ui-avatars URL |
| SignUp.CredentialRecord | app/auth/signup/main.tsx:62-72 | the new document: user, free, active, credential, the sign-up date formatted as "DD-MM-YYYY", the generated avatar, and no ban fields |
| SignUp.GoogleRecord | app/auth/signup/main.tsx:92-102 | the Google document: the same defaults and date with signType "google" and the photo under `photoUrl` |
| SignUp.Page.constructor | app/auth/signup/main.tsx:20-26 | an empty form, no error, not loading |
| SignUp.Page.HandleInputChange | app/auth/signup/main.tsx:35-40 | the named field takes the value, the others keep theirs |
| SignUp.Page.HandleCredentialSignUp | app/auth/signup/main.tsx:42-81 | a mismatch only sets the error; otherwise the account and document appear as far as the calls succeed, success goes to "/", failure shows the thrown message; loading ends |
| SignUp.Page.HandleGoogleSignUp | app/auth/signup/main.tsx:83-111 | the popup account's document is written unless the popup or the write fails; success goes to "/", failure shows the thrown message |
| SignUp.NewAccountNotBanned | app/auth/signup/main.tsx:62-72 | a freshly written active document without restrict records is not banned |
| UserProfile.Reorder | src/components/UserProfile.tsx:76-84 | a three-piece string becomes `parts[2]-parts[1]-parts[0]`, anything else is kept, and the length never changes |
| UserProfile.ReorderInvolutive | src/components/UserProfile.tsx:76-84 | reordering a three-piece date twice gives it back |
| UserProfile.SignUpDateReordered | src/components/UserProfile.tsx:76-84 | the sign-up date "DD-MM-YYYY" reaches the parser as "YYYY-MM-DD" |
| UserProfile.StoredSignUpDateReordered | src/components/UserProfile.tsx:76-84 | the date an e-mail sign-up stores reaches the parser as "YYYY-MM-DD" |
| UserProfile.FormatDate | src/components/UserProfile.tsx:70-106 | nothing for a falsy date, the instant of a timestamp, "Invalid date" for a serialised zero or an unparsable text |
| UserProfile.ShownText | src/components/UserProfile.tsx:71-99 | the empty string and "Invalid date" for those two cases |
| UserProfile.MergedUser | src/components/UserProfile.tsx:45-59 | the account's own fields always; with a document, role, plan and status default to "user", "free", "active"; a falsy creation date falls back to the account's |
| UserProfile.PlanBadge | src/components/UserProfile.tsx:126-130 | no badge for an empty plan; "Premium" and "Pro" exactly for their plans, "Free" otherwise |
| UserProfile.RoleBadge | src/components/UserProfile.tsx:131-135 | no badge for an empty role, "Admin" exactly for "admin", "User" otherwise |
| UserProfile.BadgesFollowDocument | src/components/UserProfile.tsx:45-59 | both badges show exactly when the document exists |
| UserProfile.FreshAccountBadges | src/components/UserProfile.tsx:126-135 | a freshly signed-up account reads "Free" and "User" |
| UserProfile.Card.constructor | src/components/UserProfile.tsx:13-15 | no user, no role, no links |
| UserProfile.Card.OnAuthStateChanged | src/components/UserProfile.tsx:30-68 | signed out clears the user; signed in merges the document when it exists, or shows the bare account |
| UserProfile.Card.FetchData | src/components/UserProfile.tsx:17-29 | the count is the number of links the user owns |
| UserProfile.CountedLinksAreTheAccounts | src/components/UserProfile.tsx:17-29 | the counted links plus those an account deletion keeps are all the links |
| Sidebar.IsActive | src/components/DashboardSidebar.tsx:82-87 | the overview exactly on its own route; any other entry exactly on routes that begin with its href |
| Sidebar.Hrefs | src/components/DashboardSidebar.tsx:115 | the keys of a table are its hrefs |
| Sidebar.KeysDistinct | src/components/DashboardSidebar.tsx:17-77 | the nine hrefs are pairwise distinct |
| Sidebar.SettingsExample | src/components/DashboardSidebar.tsx:82-87 | on the settings route Settings is highlighted and the overview is not |
| Sidebar.UnknownPathname | src/components/DashboardSidebar.tsx:82-87 | before the pathname is known nothing is highlighted |
| Sidebar.NotSegmentAware | src/components/DashboardSidebar.tsx:86 | the match is by prefix, not by path segment |
| Sidebar.SubrouteActive | src/components/DashboardSidebar.tsx:86 | a subroute highlights its entry |
| Sidebar.OverviewAlone | src/components/DashboardSidebar.tsx:82-87 | on the overview route no other entry is highlighted |
| MobileSidebar.NavLinks | src/components/MobileSidebar.tsx:81-86 | one link per table entry, highlighted by `isActive` |
| MobileSidebar.Render | src/components/MobileSidebar.tsx:88-190 | nothing exactly while closed; when open, fourteen controls: the nine links of the two tables and five others |
| MobileSidebar.Click | src/components/MobileSidebar.tsx:93-181 | every control closes; links go to their href; "Sign Out" only logs |
| MobileSidebar.EveryControlCloses | src/components/MobileSidebar.tsx:93-181 | every control drawn closes the sidebar, and "Sign Out" does nothing more than log |
| MobileSidebar.SameHighlighting | src/components/MobileSidebar.tsx:81-86 | the mobile highlighting matches the desktop rule entry by entry |
| DropdownMenu.TruncateName | src/components/DropdownMenuList.tsx:26-29 | "Pengguna" for an empty name, the name when short, otherwise the first `maxLength` characters plus "..." |
| DropdownMenu.ShownEmail | src/components/DropdownMenuList.tsx:113 | e-mails over 30 code units are cut to 30 plus "..." |
| DropdownMenu.ShownName | src/components/DropdownMenuList.tsx:88 | an empty name shows "Pengguna", a short one shows as is |
| DropdownMenu.PlanText | src/components/DropdownMenuList.tsx:89 | "FREE" without a plan, the plan otherwise |
| DropdownMenu.ToggleTheme | src/components/DropdownMenuList.tsx:66-68 | dark becomes light, anything else dark |
| DropdownMenu.ToggleTwice | src/components/DropdownMenuList.tsx:66-68 | toggling twice restores exactly dark and light |
| DropdownMenu.PlanFromDocument | src/components/DropdownMenuList.tsx:38-42 | a document's plan is shown, "FREE" when empty |
| DropdownMenu.Menu.constructor | src/components/DropdownMenuList.tsx:19-22 | no user, role or plan, the given theme |
| DropdownMenu.Menu.OnAuthStateChanged | src/components/DropdownMenuList.tsx:30-50 | signed out clears role and plan; signed in with a document takes its role and plan, without one keeps them |
| DropdownMenu.Menu.HandleLogout | src/components/DropdownMenuList.tsx:51-64 | goes home and says goodbye by the shortened name |
| DropdownMenu.Menu.Toggle | src/components/DropdownMenuList.tsx:66-68 | the theme toggles, nothing else changes |
| AdminUrlTables.TruncateUrl | src/sections/dashboard/AdminUrlTables.tsx:23-26 | "No URL" for an empty URL, the URL when short, otherwise the first `maxLength` characters plus "..." |
| AdminUrlTables.RowFor | src/sections/dashboard/AdminUrlTables.tsx:70-105 | the row's fallbacks: "No title", 0 clicks, "Protected" or "Public", copy and open only with URLs |
| AdminUrlTables.RowNeverBlank | src/sections/dashboard/AdminUrlTables.tsx:70-85 | a row never shows an empty title or URL |
| AdminUrlTables.DeleteAllButton.constructor | src/sections/dashboard/AdminUrlTables.tsx:20 | not confirming, nothing deleted |
| AdminUrlTables.DeleteAllButton.Click | src/sections/dashboard/AdminUrlTables.tsx:29-38 | a disabled button does nothing; the first click arms it; the second calls delete-all once and disarms |
| AdminUrlTables.DeleteAllButton.TimerFires | src/sections/dashboard/AdminUrlTables.tsx:33-35 | the timer disarms without deleting |
| AdminUrlTables.DeleteAllDisabled | src/sections/dashboard/AdminUrlTables.tsx:48 | the delete-all button is disabled exactly when the table is empty; `Click` does nothing while it is |
| Store.RestrictFor | src/lib/banUtils.ts:23 | the query returns only records of the uid, and every record of the uid |
| Store.RestrictForNonEmpty | src/lib/banUtils.ts:26 | the query is non-empty exactly when some record names the uid |
| Store.RestrictWithout | app/dashboard/users/main.tsx:291-297 | no record of the uid remains, and every record of another uid does |
| Store.UrlsWithout | app/dashboard/users/main.tsx:301-307 | no link of the uid remains, and every link of another uid does |
| Text.ContainsWhitespace | src/sections/dashboard/UrlDialog.tsx:23 | `/\s/.test` holds exactly when some code unit is whitespace |
| Text.Or | src/lib/banUtils.ts:31 | `s || d` is `d` exactly for the empty string |
| Text.ContainsAt | app/dashboard/users/main.tsx:127 | `includes` finds the term exactly when it occurs at some offset |
| Text.Lower | app/dashboard/users/main.tsx:127 | lowering keeps the length |
| Text.Split | src/components/UserProfile.tsx:76 | a split has at least one piece |
| Text.SplitAround | src/components/UserProfile.tsx:76 | splitting around a separator splits each side |
| Text.SplitNoSeparator | src/components/UserProfile.tsx:76 | a string without the separator is one piece |
| Text.SplitPiecesClean | src/components/UserProfile.tsx:76 | no piece holds the separator |
| Text.JoinSplit | src/components/UserProfile.tsx:76-84 | joining a split gives the string back |
| Text.JoinThree | src/components/UserProfile.tsx:84 | the join of three pieces |
| Text.SplitThree | src/components/UserProfile.tsx:76-84 | three clean pieces joined split back into themselves |
| Text.LastPieceAfter | app/dashboard/main.tsx:184 | the last piece after a separator is what follows it |
| Text.Decimal | app/auth/signup/main.tsx:30-32 | `String(n)` is a non-empty string of digits |
| Text.PadStart2 | app/auth/signup/main.tsx:30-31 | at least two long, zeros in front, then the original |
| Text.Substr | app/api/urls/route.ts:85 | `substr` returns at most `len` characters |
| Text.Truncate | src/components/DropdownMenuList.tsx:26-29 | a short string is kept, a long one is cut and gets "..." |
| Text.TrimStartEmpty | app/dashboard/profile/DeleteAccount.tsx:24 | the start trim is empty exactly for a blank string, otherwise starts with a non-space |
| Text.TrimEndKeepsFirst | app/dashboard/profile/DeleteAccount.tsx:24 | the end trim keeps a non-space first character |
| Text.TrimEmptyIffBlank | app/dashboard/profile/DeleteAccount.tsx:24 | `trim()` is empty exactly for whitespace-only strings |

## Left out

- All database, authentication and storage calls are replaced by the in-memory collections of `Store.Db` and by fault inputs. Concurrency and the race between the slug check and the write are not modelled; every handler runs to completion alone.
- Toasts, console logging and `setTimeout` delays are left out, except where a toast's text is the promised behaviour (the delete-account messages and the goodbye toast).
- The forms' schemas are the predicates `UrlDialog.SchemaAccepts`, `DashboardMain.DashboardSchemaAccepts`, `ProfilePage.ProfileAccepts` and `ProfilePage.PasswordAccepts`. The form library calls a submit handler only for values its schema accepts; the handlers' contracts are stated for every form and do not require it.
- bcrypt, `Math.random`, `Date.now`, `encodeURIComponent` and `new Date(string)` are parameters (`hash`, `random36`, `nowId`, `encode`, `parse`). zod's URL and e-mail checks are the predicates `isUrl` and `isEmail`.
- Calendar arithmetic for a temporary ban's end and locale date formatting are host-library behaviour: the end is an input timestamp, and a formatted date is `UserProfile.OnDay(millis)`.
- Strings are sequences of UTF-16 code units; `toLowerCase` is modelled on ASCII letters only.
- Nullable and optional fields are "" or `None`; every reader in the core treats both as falsy.
- `ApiUrls.UrlStore.Post`, `ApiUrls.UrlStore.Put`: the request bodies are typed records (`PostBody`, `PutBody` with a `Links.UrlPatch`), not arbitrary JSON. So the model loses two cases. A `PUT` can spread keys a link does not have into the stored link, where later `GET`s return them, and can write `null` into `title`, `originalUrl` or `clicks`. A `POST` can store a truthy non-boolean `usePassword` unchanged as `isPasswordProtected`.
- `UsersAdmin.UsersPage.HandleBanUser`, `HandleUnbanUser`, `HandleRoleChange`, `HandlePlanChange`, `HandleDeleteUser`: a failure is modelled only for a missing document. Network failures, the toasts and the `fetchUsers` refresh after each action are not modelled.
- `UsersAdmin.UnbanUpdate`: the update writes `null` to `bannedReason`; the model stores "", which every reader treats the same.
- `SignUp.Page.HandleCredentialSignUp`: the `updateProfile` call can fail (the `UpdateProfile` fault), but the display name and photo it writes to the authentication account are not modelled.
- `ProfilePage.Page.OnSubmit`, `ProfilePage.Page.OnPasswordSubmit`: the authentication profile and password updates are abstracted to one `authFails` input; bcrypt of the new password is the `hash` parameter.
- `ProfilePage.Page.OnSubmit`: which storage call throws is the `storage` input; the `fetch` of a dropped data URL and the page reload after success are not modelled.
- `ProfilePage.Page.LoadUserData`: the form fields it fills (`displayName`, `email`, `phoneNumber`) are not modelled, since the form's profile values are the input of `OnSubmit`; `authPhoto` is the authentication photo URL, or "" where it is null; a rejected `getDoc` is the `docFails` input and changes nothing, as the promise's rejection is never caught.
- `ProfilePage.Page.OnPasswordSubmit`: the sign-out and the navigation to "/" happen after a 3-second timer in the page; the model records them at once, on the successful path that schedules them.
- `Store.RestrictFor`: a Firestore query without `orderBy` returns documents in document-id order, which is arbitrary for generated ids; the model keeps the records in the order they were appended, so the "first" restrict record is the earliest appended one.
- `SignUp.Page.HandleCredentialSignUp`, `SignUp.Page.HandleGoogleSignUp`: the local date of the moment is given as its day, zero-based month and year (`getDate`, `getMonth`, `getFullYear`).
- `DropdownMenu.Menu.HandleLogout`: the sign-out call itself is left to the authentication service, whose listener then clears the state through `OnAuthStateChanged`.
- `DropdownMenu.ShownName`: it states only the two cases the header shows without truncation; longer names follow `TruncateName`.
- `MobileSidebar.Render`: the mobile file repeats the desktop tables verbatim, and the model uses `Sidebar.SidebarItems` and `Sidebar.BottomItems` for both.
- `AdminUrlTables.DeleteAllButton.Click`: `handleDeleteAll` is the parent's callback; only the number of its calls is recorded, not its effect or its rejection.
- The theme provider behind `toggleTheme` is not modelled; the theme is a string field of the menu.
- `UserProfile.Card.OnAuthStateChanged`: a failing `getDoc` is not modelled.
- `BanCheck.BanGate.RunEffect`: `checkUserBanStatus` catches its own errors, so the effect's `catch` is unreachable and is not modelled separately.
- Not part of this model because they hold no rule beyond static data, markup or orchestration of calls: the marketing sections, the 404, not-found, forbidden and loading pages, layout, sitemap, robots, the charts, stats cards, header, URL table, sidebar search and dashboard layout, the stub settings, analytics and urls pages, the analytics API, QuickStats, useBanCheck, src/lib/auth.ts, the sign-in page and DropdownMenuListBackup.tsx.
- The slug route `app/[slug]/page.tsx`: redirect, password verification and click tracking are not part of this model.
