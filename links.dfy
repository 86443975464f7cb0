/**
 * The in-memory link record shared by the API route, the `useUrls` hook and the
 * dashboard, the object-spread merge used to update it, and the five sample
 * records all three start from.
 */
module Links {
  import opened Base
  import opened Text

  /** A link as the list views hold it; `shortUrl` is the full "https://ishort.link/..." form. */
  datatype UrlData = UrlData(
    id: string,
    title: string,
    originalUrl: string,
    shortUrl: string,
    clicks: int,
    isPasswordProtected: bool,
    createdAt: int,
    lastClicked: Option<int>,
    hashedPassword: Option<string>)

  /** A partial record: the keys present in an update object, each with its value. */
  datatype UrlPatch = UrlPatch(
    id: Option<string>,
    title: Option<string>,
    originalUrl: Option<string>,
    shortUrl: Option<string>,
    clicks: Option<int>,
    isPasswordProtected: Option<bool>,
    createdAt: Option<int>,
    lastClicked: Option<Option<int>>,
    hashedPassword: Option<Option<string>>)

  const EmptyPatch := UrlPatch(None, None, None, None, None, None, None, None, None)

  /** `{ ...u, ...p }`: every key present in `p` overrides, every other field stays. */
  function Merge(u: UrlData, p: UrlPatch): (r: UrlData)
    ensures r.id == p.id.GetOr(u.id) && r.title == p.title.GetOr(u.title)
    ensures r.originalUrl == p.originalUrl.GetOr(u.originalUrl) && r.shortUrl == p.shortUrl.GetOr(u.shortUrl)
    ensures r.clicks == p.clicks.GetOr(u.clicks)
    ensures r.isPasswordProtected == p.isPasswordProtected.GetOr(u.isPasswordProtected)
    ensures r.createdAt == p.createdAt.GetOr(u.createdAt) && r.lastClicked == p.lastClicked.GetOr(u.lastClicked)
    ensures r.hashedPassword == p.hashedPassword.GetOr(u.hashedPassword)
  {
    UrlData(p.id.GetOr(u.id), p.title.GetOr(u.title), p.originalUrl.GetOr(u.originalUrl),
            p.shortUrl.GetOr(u.shortUrl), p.clicks.GetOr(u.clicks),
            p.isPasswordProtected.GetOr(u.isPasswordProtected), p.createdAt.GetOr(u.createdAt),
            p.lastClicked.GetOr(u.lastClicked), p.hashedPassword.GetOr(u.hashedPassword))
  }

  /** Merging nothing changes nothing, and merging the same patch twice is merging it once. */
  lemma MergeLaws(u: UrlData, p: UrlPatch)
    ensures Merge(u, EmptyPatch) == u
    ensures Merge(Merge(u, p), p) == Merge(u, p)
    ensures p.id.None? ==> Merge(u, p).id == u.id
  {
  }

  const ShortLinkBase := "https://ishort.link/"

  /** `https://ishort.link/${slug}`. */
  function ShortLinkUrl(slug: string): (url: string)
    ensures StartsWith(url, ShortLinkBase) && |url| == |ShortLinkBase| + |slug|
  {
    ShortLinkBase + slug
  }

  /** The slug comes back as the last "/"-piece of the link when it holds no "/" itself. */
  lemma ShortLinkSlug(slug: string)
    requires '/' !in slug
    ensures LastPiece(ShortLinkUrl(slug), '/') == slug
  {
    assert ShortLinkUrl(slug) == "https://ishort.link" + ['/'] + slug;
    LastPieceAfter("https://ishort.link", '/', slug);
  }

  /** `Math.random().toString(36).substr(2, 8)`, given the base-36 rendering. */
  function RandomSlug(random36: string): (slug: string)
    ensures |slug| <= 8
  {
    Substr(random36, 2, 8)
  }

  /** The record the API route and the dashboard build for a submitted form: the custom
      slug or a random one, no clicks yet, and the placeholder hash exactly when protected. */
  function NewLink(id: string, title: string, originalUrl: string, customSlug: string, random36: string,
                   usePassword: bool, now: int): (u: UrlData)
    ensures u.id == id && u.title == title && u.originalUrl == originalUrl && u.createdAt == now
    ensures customSlug != "" ==> u.shortUrl == ShortLinkUrl(customSlug)
    ensures customSlug == "" ==> u.shortUrl == ShortLinkUrl(RandomSlug(random36))
    ensures u.clicks == 0 && u.lastClicked.None?
    ensures u.isPasswordProtected == usePassword
    ensures u.hashedPassword.Some? <==> usePassword
    ensures u.hashedPassword.Some? ==> u.hashedPassword.value == "hashed_password"
  {
    UrlData(id, title, originalUrl, ShortLinkUrl(Or(customSlug, RandomSlug(random36))), 0, usePassword,
            now, None, if usePassword then Some("hashed_password") else None)
  }

  /** Milliseconds since the epoch of 2024-01-01T00:00:00Z, and one day. */
  const Jan1st2024 := 1704067200000
  const Day := 86400000

  /** `new Date("2024-01-DD")`, which parses as midnight UTC. */
  function January2024(day: nat): (millis: int)
    requires 1 <= day <= 31
    ensures millis == Jan1st2024 + (day - 1) * Day
  {
    Jan1st2024 + (day - 1) * Day
  }

  /** The five sample links every link list starts with. */
  function Seed(): (s: seq<UrlData>)
    ensures |s| == 5
  {
    [ UrlData("1", "My Portfolio Website", "https://johndoe.dev", ShortLinkUrl("portfolio"), 156, false,
              January2024(15), Some(January2024(20)), None),
      UrlData("2", "GitHub Repository", "https://github.com/johndoe/awesome-project", ShortLinkUrl("github-repo"),
              89, true, January2024(10), Some(January2024(19)), None),
      UrlData("3", "Design Resources", "https://dribbble.com/johndoe", ShortLinkUrl("design"), 234, false,
              January2024(5), Some(January2024(18)), None),
      UrlData("4", "YouTube Channel", "https://youtube.com/@johndoe", ShortLinkUrl("youtube"), 45, false,
              January2024(12), Some(January2024(17)), None),
      UrlData("5", "LinkedIn Profile", "https://linkedin.com/in/johndoe", ShortLinkUrl("linkedin"), 78, true,
              January2024(8), Some(January2024(16)), None) ]
  }

  /** Every sample has its own id, so an id picks out at most one of them. */
  lemma SeedIdsDistinct()
    ensures forall i, j :: 0 <= i < j < |Seed()| ==> Seed()[i].id != Seed()[j].id
  {
  }

  /** Some link in `urls` carries `id`. */
  predicate HasId(urls: seq<UrlData>, id: string) {
    exists i :: 0 <= i < |urls| && urls[i].id == id
  }

  /** `urls.filter(url => url.id !== id)`: every link with the id goes, the rest stay. */
  function WithoutId(urls: seq<UrlData>, id: string): (r: seq<UrlData>)
    ensures forall i :: 0 <= i < |r| ==> r[i].id != id && r[i] in urls
    ensures forall i :: 0 <= i < |urls| && urls[i].id != id ==> urls[i] in r
    ensures |r| <= |urls|
  {
    Filter(urls, (u: UrlData) => u.id != id)
  }

  /** The survivors keep their relative order. */
  lemma WithoutIdKeepsOrder(urls: seq<UrlData>, id: string)
    ensures IsSubsequence(WithoutId(urls, id), urls)
  {
    FilterIsSubsequence(urls, (u: UrlData) => u.id != id);
  }

  /** Removing an id nobody has is a no-op. */
  lemma WithoutAbsentId(urls: seq<UrlData>, id: string)
    requires !HasId(urls, id)
    ensures WithoutId(urls, id) == urls
  {
    FilterAll(urls, (u: UrlData) => u.id != id);
  }

  /** Removing the id of a new head that no older link shares gives the older list back. */
  lemma WithoutNewHead(u: UrlData, urls: seq<UrlData>)
    requires !HasId(urls, u.id)
    ensures WithoutId([u] + urls, u.id) == urls
  {
    assert ([u] + urls)[1..] == urls;
    WithoutAbsentId(urls, u.id);
  }
}
