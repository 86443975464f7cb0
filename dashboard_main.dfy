/**
 * The dashboard overview: a local list of links with a create/edit dialog, delete,
 * and the two charts derived from the list.
 */
module DashboardMain {
  import opened Base
  import opened Text
  import opened Links
  import opened UrlDialog

  /** The dashboard's own schema: like the dialog's, but without any rule on the slug. */
  predicate DashboardSchemaAccepts(f: UrlForm, isUrl: string -> bool) {
    TitleOk(f.title) && isUrl(f.originalUrl) && PasswordOk(f.usePassword, f.password)
  }

  /** Every form the dialog's schema accepts passes here too, but not conversely: a slug
      with a space gets through. */
  lemma DashboardSchemaLooser(f: UrlForm, isUrl: string -> bool)
    ensures SchemaAccepts(f, isUrl) ==> DashboardSchemaAccepts(f, isUrl)
    ensures (isUrl(f.originalUrl) && f.customSlug == Some("my link") && TitleOk(f.title)
             && PasswordOk(f.usePassword, f.password)) ==> DashboardSchemaAccepts(f, isUrl) && !SchemaAccepts(f, isUrl)
  {
    if f.customSlug == Some("my link") {
      assert IsWhitespace(f.customSlug.value[2]);
    }
  }

  /** The form's default values, also what `form.reset()` restores. */
  const DefaultForm := UrlForm("", "", Some(""), false, Some(""))

  /** The record `handleSubmit` builds from a form. */
  function FormLink(data: UrlForm, nowId: string, random36: string, now: int): UrlData
  {
    NewLink(nowId, data.title, data.originalUrl, data.customSlug.GetOr(""), random36, data.usePassword, now)
  }

  /** The edit: every link with the edited id becomes the new record with the old id and
      creation date -- so its clicks and last click are reset as well. */
  function ReplaceEdited(urls: seq<UrlData>, editing: UrlData, newUrl: UrlData): (r: seq<UrlData>)
    ensures |r| == |urls|
    ensures forall i :: 0 <= i < |urls| && urls[i].id == editing.id ==>
              r[i] == newUrl.(id := editing.id, createdAt := editing.createdAt)
    ensures forall i :: 0 <= i < |urls| && urls[i].id != editing.id ==> r[i] == urls[i]
  {
    if urls == [] then []
    else
      [if urls[0].id == editing.id then newUrl.(id := editing.id, createdAt := editing.createdAt) else urls[0]]
      + ReplaceEdited(urls[1..], editing, newUrl)
  }

  /** An edited link keeps its id and creation date but restarts its statistics. */
  lemma EditResetsStatistics(urls: seq<UrlData>, editing: UrlData, data: UrlForm, nowId: string,
                             random36: string, now: int, i: int)
    requires 0 <= i < |urls| && urls[i].id == editing.id
    ensures var r := ReplaceEdited(urls, editing, FormLink(data, nowId, random36, now));
      && r[i].id == editing.id && r[i].createdAt == editing.createdAt
      && r[i].clicks == 0 && r[i].lastClicked.None?
      && r[i].title == data.title && r[i].originalUrl == data.originalUrl
  {
  }

  /** The form `handleEdit` fills in for a link. */
  function EditForm(url: UrlData): (f: UrlForm)
    ensures f.title == url.title && f.originalUrl == url.originalUrl
    ensures f.customSlug == Some(LastPiece(url.shortUrl, '/'))
    ensures f.usePassword == url.isPasswordProtected && f.password == Some("")
  {
    UrlForm(url.title, url.originalUrl, Some(LastPiece(url.shortUrl, '/')), url.isPasswordProtected, Some(""))
  }

  /** A link created with a custom slug free of "/" brings that slug back into the edit form. */
  lemma EditPrefillsSlug(data: UrlForm, nowId: string, random36: string, now: int)
    requires data.customSlug.Some? && data.customSlug.value != "" && '/' !in data.customSlug.value
    ensures EditForm(FormLink(data, nowId, random36, now)).customSlug == data.customSlug
  {
    ShortLinkSlug(data.customSlug.value);
  }

  /** One bar of the chart. */
  datatype ChartPoint = ChartPoint(name: string, clicks: int)

  /** `urls.slice(0, 10).map(...)`: the first ten links, by slug and clicks. */
  function ChartData(urls: seq<UrlData>): (r: seq<ChartPoint>)
    ensures |r| == if |urls| < 10 then |urls| else 10
    ensures forall i :: 0 <= i < |r| ==> r[i] == ChartPoint(LastPiece(urls[i].shortUrl, '/'), urls[i].clicks)
  {
    var first := if |urls| < 10 then urls else urls[..10];
    seq(|first|, i requires 0 <= i < |first| => ChartPoint(LastPiece(first[i].shortUrl, '/'), first[i].clicks))
  }

  /** The pie's two slices: public and protected links. */
  datatype PieData = PieData(publicCount: int, protectedCount: int)

  function Pie(urls: seq<UrlData>): (p: PieData)
    ensures p.publicCount + p.protectedCount == |urls|
    ensures p.protectedCount == CountWhere(urls, (u: UrlData) => u.isPasswordProtected)
  {
    var protectedCount := |Filter(urls, (u: UrlData) => u.isPasswordProtected)|;
    FilterCount(urls, (u: UrlData) => u.isPasswordProtected);
    PieData(|urls| - protectedCount, protectedCount)
  }

  /** The public slice, computed as a difference, is the number of unprotected links. */
  lemma {:induction false} PublicIsUnprotected(urls: seq<UrlData>)
    ensures Pie(urls).publicCount == CountWhere(urls, (u: UrlData) => !u.isPasswordProtected)
  {
    if urls != [] {
      PublicIsUnprotected(urls[1..]);
    }
  }

  /** The overview's state. */
  class Dashboard {
    var urls: seq<UrlData>
    var isDialogOpen: bool
    var editingUrl: Option<UrlData>
    var form: UrlForm

    constructor ()
      ensures urls == Seed() && !isDialogOpen && editingUrl.None? && form == DefaultForm
    {
      urls := Seed();
      isDialogOpen := false;
      editingUrl := None;
      form := DefaultForm;
    }

    /** `handleSubmit`: edit the link being edited, or put a new one in front; then reset the
        form, close the dialog and end the edit. */
    method HandleSubmit(data: UrlForm, nowId: string, random36: string, now: int)
      modifies this
      ensures var u := FormLink(data, nowId, random36, now);
        urls == (if old(editingUrl).Some? then ReplaceEdited(old(urls), old(editingUrl).value, u) else [u] + old(urls))
      ensures form == DefaultForm && !isDialogOpen && editingUrl.None?
    {
      var newUrl := FormLink(data, nowId, random36, now);
      if editingUrl.Some? {
        urls := ReplaceEdited(urls, editingUrl.value, newUrl);
      } else {
        urls := [newUrl] + urls;
      }
      form := DefaultForm;
      isDialogOpen := false;
      editingUrl := None;
    }

    /** `handleEdit`: remember the link, fill the form from it, open the dialog. */
    method HandleEdit(url: UrlData)
      modifies this
      ensures editingUrl == Some(url) && form == EditForm(url) && isDialogOpen
      ensures urls == old(urls)
    {
      editingUrl := Some(url);
      form := EditForm(url);
      isDialogOpen := true;
    }

    /** `handleDelete`: drop every link with the id. */
    method HandleDelete(urlId: string)
      modifies this
      ensures urls == WithoutId(old(urls), urlId)
      ensures !HasId(urls, urlId) && IsSubsequence(urls, old(urls))
      ensures isDialogOpen == old(isDialogOpen) && editingUrl == old(editingUrl) && form == old(form)
    {
      WithoutIdKeepsOrder(urls, urlId);
      urls := WithoutId(urls, urlId);
    }
  }
}
