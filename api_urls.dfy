/**
 * The `/api/urls` route: a module-level array of links, served by `GET` and changed
 * in place by `POST` (`unshift`), `PUT` (index assignment) and `DELETE` (`splice`),
 * each located with `findIndex`.
 */
module ApiUrls {
  import opened Base
  import opened Text
  import opened Links

  /** The HTTP statuses the handlers answer with. */
  const Ok := 200
  const BadRequest := 400
  const NotFound := 404
  const ServerError := 500

  /** The fields of a `POST` body the handler reads; absent strings are "" and
      `usePassword` is its truthiness. */
  datatype PostBody = PostBody(title: string, originalUrl: string, customSlug: string, usePassword: bool)

  /** A `PUT` body: the `id` key, if given, and the remaining keys. */
  datatype PutBody = PutBody(id: Option<string>, update: UrlPatch)

  /** The position of the first link carrying `id`, or -1: the value `findIndex` returns. */
  function FirstIndex(urls: seq<UrlData>, id: string): (k: int)
    ensures -1 <= k < |urls|
    ensures k == -1 <==> !HasId(urls, id)
    ensures k >= 0 ==> urls[k].id == id && forall j :: 0 <= j < k ==> urls[j].id != id
  {
    if urls == [] then -1
    else if urls[0].id == id then 0
    else
      var k := FirstIndex(urls[1..], id);
      assert forall j :: 1 <= j < |urls| ==> urls[j] == urls[1..][j - 1];
      if k == -1 then -1 else k + 1
  }

  /** `dummyUrls`, with the handlers that read and change it. */
  class UrlStore {
    var urls: seq<UrlData>

    constructor ()
      ensures urls == Seed()
    {
      urls := Seed();
    }

    /** `dummyUrls.findIndex(url => url.id === id)`. */
    method FindIndex(id: string) returns (k: int)
      ensures k == FirstIndex(urls, id)
    {
      k := 0;
      while k < |urls|
        invariant 0 <= k <= |urls|
        invariant forall j :: 0 <= j < k ==> urls[j].id != id
      {
        if urls[k].id == id {
          return;
        }
        k := k + 1;
      }
      k := -1;
    }

    /** `GET`: the whole list. */
    method Get() returns (status: int, body: seq<UrlData>)
      ensures status == Ok && body == urls
    {
      status := Ok;
      body := urls;
    }

    /** `POST`: a body that does not parse (`None`) answers 500; otherwise the new link goes
        to the front and is returned. `now` is `Date.now()`, rendered as the id. */
    method Post(body: Option<PostBody>, now: nat, random36: string) returns (status: int, created: Option<UrlData>)
      modifies this
      ensures body.None? ==> status == ServerError && created.None? && urls == old(urls)
      ensures body.Some? ==>
                var b := body.value;
                var u := NewLink(Decimal(now), b.title, b.originalUrl, b.customSlug,
                                 random36, b.usePassword, now);
                status == Ok && created == Some(u) && urls == [u] + old(urls)
    {
      if body.None? {
        return ServerError, None;
      }
      var b := body.value;
      var newUrl := NewLink(Decimal(now), b.title, b.originalUrl, b.customSlug,
                            random36, b.usePassword, now);
      urls := [newUrl] + urls;
      return Ok, Some(newUrl);
    }

    /** `PUT`: merges the update into the first link with the id, which it keeps. */
    method Put(body: Option<PutBody>) returns (status: int, updated: Option<UrlData>)
      modifies this
      ensures body.None? ==> status == ServerError && updated.None? && urls == old(urls)
      ensures body.Some? && (body.value.id.None? || !HasId(old(urls), body.value.id.value)) ==>
                status == NotFound && updated.None? && urls == old(urls)
      ensures body.Some? && body.value.id.Some? && HasId(old(urls), body.value.id.value) ==>
                var k := FirstIndex(old(urls), body.value.id.value);
                var u := Merge(old(urls)[k], body.value.update.(id := None));
                && status == Ok && updated == Some(u)
                && urls == AfterPut(old(urls), body.value.id.value, body.value.update)
                && u.id == body.value.id.value
    {
      if body.None? {
        return ServerError, None;
      }
      if body.value.id.None? {
        // `url.id === undefined` never holds, so `findIndex` answers -1
        return NotFound, None;
      }
      var id := body.value.id.value;
      var k := FindIndex(id);
      if k == -1 {
        return NotFound, None;
      }
      var u := Merge(urls[k], body.value.update.(id := None));
      urls := urls[k := u];
      return Ok, Some(u);
    }

    /** `DELETE ?id=`: a missing or empty id answers 400, an unknown one 404; otherwise the
        first link with the id is spliced out. */
    method Delete(id: Option<string>) returns (status: int)
      modifies this
      ensures (id.None? || id.value == "") ==> status == BadRequest && urls == old(urls)
      ensures id.Some? && id.value != "" && !HasId(old(urls), id.value) ==> status == NotFound && urls == old(urls)
      ensures id.Some? && id.value != "" && HasId(old(urls), id.value) ==>
                status == Ok && urls == AfterDelete(old(urls), id.value)
    {
      if id.None? || id.value == "" {
        return BadRequest;
      }
      var k := FindIndex(id.value);
      if k == -1 {
        return NotFound;
      }
      urls := urls[..k] + urls[k + 1..];
      return Ok;
    }
  }

  /** The list after a successful `PUT` of `p` for `id`: the first link with the id merged
      with every key of the body but `id`. */
  function AfterPut(urls: seq<UrlData>, id: string, p: UrlPatch): seq<UrlData>
    requires HasId(urls, id)
  {
    var k := FirstIndex(urls, id);
    urls[k := Merge(urls[k], p.(id := None))]
  }

  /** The list after a successful `DELETE` of `id`: the first link with the id spliced out. */
  function AfterDelete(urls: seq<UrlData>, id: string): seq<UrlData>
    requires HasId(urls, id)
  {
    var k := FirstIndex(urls, id);
    urls[..k] + urls[k + 1..]
  }

  /** After a `POST` the new link is the one `findIndex` finds for its id, and every link
      already stored is found one place further back. */
  lemma {:induction false} PostIsFoundFirst(u: UrlData, urls: seq<UrlData>, id: string)
    ensures FirstIndex([u] + urls, u.id) == 0
    ensures id != u.id ==> FirstIndex([u] + urls, id) == if HasId(urls, id) then FirstIndex(urls, id) + 1 else -1
  {
    assert ([u] + urls)[1..] == urls;
  }

  /** A `PUT` keeps the length and every link except its target, the target keeps its id and
      stays where a later `findIndex` finds it, and repeating the same `PUT` changes nothing. */
  lemma PutTouchesOne(urls: seq<UrlData>, id: string, p: UrlPatch)
    requires HasId(urls, id)
    ensures var k := FirstIndex(urls, id);
      var r := AfterPut(urls, id, p);
      && |r| == |urls|
      && (forall j :: 0 <= j < |urls| && j != k ==> r[j] == urls[j])
      && r[k].id == id
      && HasId(r, id) && FirstIndex(r, id) == k
      && AfterPut(r, id, p) == r
  {
    var k := FirstIndex(urls, id);
    var r := AfterPut(urls, id, p);
    MergeLaws(urls[k], p.(id := None));
    assert r[k].id == id;
    assert FirstIndex(r, id) <= k;
  }

  /** A `DELETE` removes exactly one link: the first with the id. Every other link stays,
      in order, so a later duplicate of the id survives. */
  lemma DeleteRemovesFirst(urls: seq<UrlData>, id: string)
    requires HasId(urls, id)
    ensures var k := FirstIndex(urls, id);
      var r := AfterDelete(urls, id);
      && |r| == |urls| - 1
      && (forall j :: 0 <= j < k ==> r[j] == urls[j])
      && (forall j :: k < j < |urls| ==> r[j - 1] == urls[j])
      && IsSubsequence(r, urls)
  {
    var k := FirstIndex(urls, id);
    SpliceShape(urls, k);
    SpliceIsSubsequence(urls, k);
  }

  /** Deleting the id of a link just posted gives the list from before the `POST` back. */
  lemma PostThenDelete(u: UrlData, urls: seq<UrlData>)
    ensures HasId([u] + urls, u.id) && AfterDelete([u] + urls, u.id) == urls
  {
    PostIsFoundFirst(u, urls, u.id);
    assert ([u] + urls)[0].id == u.id;
    assert ([u] + urls)[1..] == urls;
  }

  /** Where the elements of a splice come from. */
  lemma SpliceShape<T>(xs: seq<T>, k: int)
    requires 0 <= k < |xs|
    ensures var r := xs[..k] + xs[k + 1..];
      && |r| == |xs| - 1
      && (forall j :: 0 <= j < k ==> r[j] == xs[j])
      && (forall j :: k < j < |xs| ==> r[j - 1] == xs[j])
  {
  }

  /** Cutting one element out leaves a subsequence. */
  lemma {:induction false} SpliceIsSubsequence<T>(xs: seq<T>, k: int)
    requires 0 <= k < |xs|
    ensures IsSubsequence(xs[..k] + xs[k + 1..], xs)
  {
    if k == 0 {
      assert xs[..0] + xs[1..] == xs[1..];
      SubsequenceRefl(xs[1..]);
      SkipHeadKeepsSubsequence(xs[1..], xs);
    } else {
      SpliceIsSubsequence(xs[1..], k - 1);
      var r := xs[..k] + xs[k + 1..];
      assert r[0] == xs[0];
      assert r[1..] == xs[1..][..k - 1] + xs[1..][k..];
    }
  }
}
