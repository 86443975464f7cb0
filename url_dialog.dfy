/**
 * The create/edit dialog for a short link: the form schema shared with the create
 * page, the slug-availability query, and the submit handler that gates the
 * parent's `onSubmit` on that query.
 */
module UrlDialog {
  import opened Base
  import opened Text
  import opened Store

  /** The form's values. The two optional fields may be left out entirely. */
  datatype UrlForm = UrlForm(
    title: string,
    originalUrl: string,
    customSlug: Option<string>,
    usePassword: bool,
    password: Option<string>)

  /** `z.string().min(1).max(100)`: the length counts UTF-16 code units. */
  predicate TitleOk(title: string) {
    1 <= |title| <= 100
  }

  /** `z.string().max(25).refine(val => !val || !/\s/.test(val)).optional()`. */
  predicate SlugOk(slug: Option<string>) {
    slug.None? || (|slug.value| <= 25 && (slug.value == "" || !ContainsWhitespace(slug.value)))
  }

  /** The object-level refinement: with `usePassword` on, a password of at least 6. */
  predicate PasswordOk(usePassword: bool, password: Option<string>) {
    !(usePassword && (password.None? || password.value == "" || |password.value| < 6))
  }

  /** The whole schema; `isUrl` stands for zod's URL check. */
  predicate SchemaAccepts(f: UrlForm, isUrl: string -> bool) {
    TitleOk(f.title) && isUrl(f.originalUrl) && SlugOk(f.customSlug) && PasswordOk(f.usePassword, f.password)
  }

  /** The bounds of the title are inclusive: 100 code units pass, although the message
      says "less than 100". */
  lemma TitleBounds(title: string)
    ensures |title| == 100 ==> TitleOk(title)
    ensures |title| == 0 || |title| > 100 ==> !TitleOk(title)
  {
  }

  /** A slug is accepted when absent, or when it is at most 25 code units none of which
      is whitespace. */
  lemma SlugOkIff(slug: string)
    ensures SlugOk(Some(slug)) <==> |slug| <= 25 && forall i :: 0 <= i < |slug| ==> !IsWhitespace(slug[i])
  {
  }

  /** With the switch on, the password is at least 6 code units; with it off, anything goes. */
  lemma PasswordRule(usePassword: bool, password: Option<string>)
    ensures usePassword ==> (PasswordOk(usePassword, password) <==> password.Some? && |password.value| >= 6)
    ensures !usePassword ==> PasswordOk(usePassword, password)
  {
  }

  /** `checkCustomSlugAvailability`: an empty slug is always available; otherwise the
      slug is available when the query succeeds and finds no link storing it. A failing
      query answers "unavailable". */
  function SlugAvailable(slug: string, docs: seq<ShortUrlDoc>, queryFails: bool): (r: bool)
    ensures slug == "" ==> r
    ensures slug != "" ==> (r <==> !queryFails && forall i :: 0 <= i < |docs| ==> docs[i].shortUrl != slug)
  {
    if slug == "" then true
    else if queryFails then false
    else
      var hits := Filter(docs, (d: ShortUrlDoc) => d.shortUrl == slug);
      assert hits == [] <==> forall i :: 0 <= i < |docs| ==> docs[i].shortUrl != slug by {
        if hits != [] {
          assert hits[0] in docs;
        }
      }
      hits == []
  }

  /** The non-empty custom slug of a form, if any (`data.customSlug` is truthy). */
  predicate HasCustomSlug(f: UrlForm) {
    f.customSlug.Some? && f.customSlug.value != ""
  }

  /** The dialog's state; `submitted` records the forms handed to the parent's `onSubmit`. */
  class Dialog {
    var isCheckingSlug: bool
    var submitted: seq<UrlForm>

    constructor ()
      ensures !isCheckingSlug && submitted == []
    {
      isCheckingSlug := false;
      submitted := [];
    }

    /** `handleSubmit`: without a user nothing happens; a new link with a taken custom slug
        is refused; everything else goes to `onSubmit`. Edits skip the availability query. */
    method HandleSubmit(data: UrlForm, hasUser: bool, editing: bool, docs: seq<ShortUrlDoc>, queryFails: bool)
      modifies this
      ensures !hasUser ==> isCheckingSlug == old(isCheckingSlug) && submitted == old(submitted)
      ensures hasUser ==> !isCheckingSlug
      ensures hasUser && HasCustomSlug(data) && !editing && !SlugAvailable(data.customSlug.value, docs, queryFails) ==>
                submitted == old(submitted)
      ensures hasUser && !(HasCustomSlug(data) && !editing && !SlugAvailable(data.customSlug.value, docs, queryFails)) ==>
                submitted == old(submitted) + [data]
    {
      if !hasUser {
        return;
      }
      if HasCustomSlug(data) && !editing {
        isCheckingSlug := true;
        var isAvailable := SlugAvailable(data.customSlug.value, docs, queryFails);
        if !isAvailable {
          isCheckingSlug := false;
          return;
        }
      }
      submitted := submitted + [data];
      isCheckingSlug := false;
    }
  }

  /** A custom slug already stored by some link is never available, whatever the query does. */
  lemma TakenSlugUnavailable(slug: string, docs: seq<ShortUrlDoc>, queryFails: bool, i: int)
    requires slug != "" && 0 <= i < |docs| && docs[i].shortUrl == slug
    ensures !SlugAvailable(slug, docs, queryFails)
  {
  }
}
