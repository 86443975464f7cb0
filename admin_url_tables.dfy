/**
 * The administrator's table of all short links: the shortened original URL,
 * the per-row fallbacks, and the two-click "delete all" button.
 */
module AdminUrlTables {
  import opened Base
  import opened Text

  const NoUrl := "No URL"

  /** `truncateUrl(url, maxLength)` (40 when not given): "No URL" for an empty URL,
      otherwise the URL cut to `maxLength` characters plus "...". */
  function TruncateUrl(url: string, maxLength: nat): (r: string)
    ensures url == "" ==> r == NoUrl
    ensures url != "" && |url| <= maxLength ==> r == url
    ensures url != "" && |url| > maxLength ==>
              |r| == maxLength + 3 && r[..maxLength] == url[..maxLength] && r[maxLength..] == "..."
  {
    if url == "" then NoUrl else Truncate(url, maxLength)
  }

  /** A link as the table receives it; the documents may lack `clicks` or `createdAt`. */
  datatype TableUrl = TableUrl(id: string, title: string, shortUrl: string, originalUrl: string,
                               clicks: Option<int>, isPasswordProtected: bool, createdAt: Option<int>)

  /** What one row shows. `created` is the instant to format, or `None` for "No date". */
  datatype Row = Row(title: string, shortUrl: string, original: string, clicks: int, status: string,
                     created: Option<int>, canCopy: bool, canOpen: bool)

  function RowFor(u: TableUrl): (r: Row)
    ensures r.title == (if u.title == "" then "No title" else u.title)
    ensures r.clicks == (if u.clicks.Some? then u.clicks.value else 0)
    ensures r.original == TruncateUrl(u.originalUrl, 40)
    ensures r.status == (if u.isPasswordProtected then "Protected" else "Public")
    ensures r.canCopy <==> u.shortUrl != ""
    ensures r.canOpen <==> u.originalUrl != ""
    ensures r.created == u.createdAt
  {
    Row(Or(u.title, "No title"), u.shortUrl, TruncateUrl(u.originalUrl, 40), u.clicks.GetOr(0),
        if u.isPasswordProtected then "Protected" else "Public", u.createdAt, u.shortUrl != "", u.originalUrl != "")
  }

  /** A row never shows an empty title or an empty original URL. */
  lemma RowNeverBlank(u: TableUrl)
    ensures RowFor(u).title != "" && RowFor(u).original != ""
  {
    if u.originalUrl != "" && |u.originalUrl| > 40 {
      assert |RowFor(u).original| == 43;
    }
  }

  /** The delete-all button is disabled for an empty list. */
  predicate DeleteAllDisabled(urls: seq<TableUrl>) {
    |urls| == 0
  }

  /** The button's state, and how many times it has called `handleDeleteAll`. */
  class DeleteAllButton {
    var isConfirming: bool
    var deleteAllCalls: nat

    constructor ()
      ensures !isConfirming && deleteAllCalls == 0
    {
      isConfirming := false;
      deleteAllCalls := 0;
    }

    /** `handleDeleteAllConfirm`; a click on the disabled button does nothing. */
    method Click(urls: seq<TableUrl>)
      modifies this
      ensures DeleteAllDisabled(urls) ==> isConfirming == old(isConfirming) && deleteAllCalls == old(deleteAllCalls)
      ensures !DeleteAllDisabled(urls) && !old(isConfirming) ==> isConfirming && deleteAllCalls == old(deleteAllCalls)
      ensures !DeleteAllDisabled(urls) && old(isConfirming) ==> !isConfirming && deleteAllCalls == old(deleteAllCalls) + 1
    {
      if DeleteAllDisabled(urls) {
        return;
      }
      if isConfirming {
        deleteAllCalls := deleteAllCalls + 1;
        isConfirming := false;
      } else {
        isConfirming := true;
      }
    }

    /** The three-second timer the first click starts. */
    method TimerFires()
      modifies this
      ensures !isConfirming && deleteAllCalls == old(deleteAllCalls)
    {
      isConfirming := false;
    }
  }
}
