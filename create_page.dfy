/**
 * The "create link" page: it checks a custom slug, picks a random one otherwise,
 * hashes the password when protection is on, stores the record in `shorturls`
 * and shows the finished link.
 */
module CreatePage {
  import opened Base
  import opened Text
  import opened Store
  import opened UrlDialog

  /** What the success card shows. */
  datatype CreatedUrl = CreatedUrl(title: string, shortUrl: string, originalUrl: string, fullShortUrl: string)

  /** `data.customSlug || Math.random().toString(36).substr(2, 8)`; `random36` is the base-36
      rendering of the random number ("0.xxxxxxxx..."). */
  function ChosenSlug(customSlug: Option<string>, random36: string): (slug: string)
    ensures customSlug.Some? && customSlug.value != "" ==> slug == customSlug.value
    ensures !(customSlug.Some? && customSlug.value != "") ==> |slug| <= 8
  {
    if customSlug.Some? && customSlug.value != "" then customSlug.value else Substr(random36, 2, 8)
  }

  /** The document written for a submitted form; `hash` stands for bcrypt with cost 10. */
  function NewShortUrl(data: UrlForm, uid: string, random36: string, hash: string -> string, now: int): (d: ShortUrlDoc)
    ensures d.title == data.title && d.longUrl == data.originalUrl && d.uid == uid
    ensures d.shortUrl == ChosenSlug(data.customSlug, random36)
    ensures d.clicks == 0 && d.lastClicked.None? && d.createdAt == now
    ensures d.isPasswordProtected == data.usePassword
    ensures d.hashedPassword.Some? <==> data.usePassword && data.password.Some? && data.password.value != ""
    ensures d.hashedPassword.Some? ==> d.hashedPassword.value == hash(data.password.value)
  {
    var hashed := if data.usePassword && data.password.Some? && data.password.value != ""
                  then Some(hash(data.password.value)) else None;
    ShortUrlDoc(data.title, data.originalUrl, ChosenSlug(data.customSlug, random36), 0,
                data.usePassword, uid, now, None, hashed)
  }

  /** For a form the schema accepts, a hash is stored exactly for protected links. */
  lemma HashedIffProtected(data: UrlForm, isUrl: string -> bool, uid: string, random36: string,
                           hash: string -> string, now: int)
    requires SchemaAccepts(data, isUrl)
    ensures var d := NewShortUrl(data, uid, random36, hash, now);
      d.hashedPassword.Some? <==> d.isPasswordProtected
  {
  }

  /** The origin of the finished link, chosen by `NODE_ENV`. */
  function Domain(production: bool): string {
    if production then "https://ishort.my.id" else "http://localhost:3000"
  }

  /** `${domain}/${slug}`. */
  function FullShortUrl(production: bool, slug: string): (url: string)
    ensures StartsWith(url, Domain(production) + "/")
    ensures |url| == |Domain(production)| + 1 + |slug|
  {
    Domain(production) + "/" + slug
  }

  /** The slug is recovered from the finished link as its last "/"-piece. */
  lemma FullShortUrlSlug(production: bool, slug: string)
    requires '/' !in slug
    ensures LastPiece(FullShortUrl(production, slug), '/') == slug
  {
    assert FullShortUrl(production, slug) == Domain(production) + ['/'] + slug;
    LastPieceAfter(Domain(production), '/', slug);
  }

  /** The page's state together with the `shorturls` collection it writes to. */
  class Page {
    var shorturls: seq<ShortUrlDoc>
    var isSubmitting: bool
    var isCheckingSlug: bool
    var createdUrl: Option<CreatedUrl>

    constructor (docs: seq<ShortUrlDoc>)
      ensures shorturls == docs && !isSubmitting && !isCheckingSlug && createdUrl.None?
    {
      shorturls := docs;
      isSubmitting := false;
      isCheckingSlug := false;
      createdUrl := None;
    }

    /** `handleSubmit`. `slugQueryFails` and `writeFails` say whether the availability query
        and `addDoc` throw. */
    method HandleSubmit(data: UrlForm, user: Option<string>, slugQueryFails: bool, random36: string,
                        hash: string -> string, writeFails: bool, production: bool, now: int)
      modifies this
      ensures user.None? ==>
                shorturls == old(shorturls) && isSubmitting == old(isSubmitting)
                && isCheckingSlug == old(isCheckingSlug) && createdUrl == old(createdUrl)
      ensures user.Some? ==> !isSubmitting
      ensures user.Some? && HasCustomSlug(data) ==> !isCheckingSlug
      ensures user.Some? && !HasCustomSlug(data) ==> isCheckingSlug == old(isCheckingSlug)
      ensures user.Some? && HasCustomSlug(data) && !SlugAvailable(data.customSlug.value, old(shorturls), slugQueryFails) ==>
                shorturls == old(shorturls) && createdUrl == old(createdUrl)
      ensures user.Some? && !(HasCustomSlug(data) && !SlugAvailable(data.customSlug.value, old(shorturls), slugQueryFails)) ==>
                var d := NewShortUrl(data, user.value, random36, hash, now);
                if writeFails then shorturls == old(shorturls) && createdUrl == old(createdUrl)
                else shorturls == old(shorturls) + [d]
                     && createdUrl == Some(CreatedUrl(data.title, d.shortUrl, data.originalUrl,
                                                      FullShortUrl(production, d.shortUrl)))
    {
      if user.None? {
        return;
      }
      isSubmitting := true;
      if HasCustomSlug(data) {
        isCheckingSlug := true;
        var isAvailable := SlugAvailable(data.customSlug.value, shorturls, slugQueryFails);
        if !isAvailable {
          isCheckingSlug := false;
          isSubmitting := false;
          return;
        }
        isCheckingSlug := false;
      }
      var slug := ChosenSlug(data.customSlug, random36);
      var hashedPassword: Option<string> := None;
      if data.usePassword && data.password.Some? && data.password.value != "" {
        hashedPassword := Some(hash(data.password.value));
      }
      var urlData := ShortUrlDoc(data.title, data.originalUrl, slug, 0, data.usePassword,
                                 user.value, now, None, hashedPassword);
      if !writeFails {
        shorturls := shorturls + [urlData];
        createdUrl := Some(CreatedUrl(data.title, slug, data.originalUrl, FullShortUrl(production, slug)));
      }
      isSubmitting := false;
    }
  }

  /** After a successful submission with its own custom slug, that slug is taken for the
      next submission, which is therefore refused. */
  lemma CreatedSlugIsTaken(docs: seq<ShortUrlDoc>, d: ShortUrlDoc, queryFails: bool)
    requires d.shortUrl != ""
    ensures !SlugAvailable(d.shortUrl, docs + [d], queryFails)
  {
    assert (docs + [d])[|docs|] == d;
  }
}
