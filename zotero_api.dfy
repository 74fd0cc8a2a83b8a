/**
 * The Zotero Web API v3 as the item reader sees it: the requests it sends,
 * the responses it gets back, the URLs it builds, the attachment filter it
 * applies to listed items, and the specification of a cursor walk over a
 * paginated listing.
 *
 * The transport is not modelled: a listing "server" is the sequence of
 * responses that successive requests receive, request k getting server[k].
 */
module ZoteroApi {
  import opened Wrappers

  /** Root of every URL the reader requests. */
  const BaseUrl: string := "https://api.zotero.org"

  /** Environment variables that supply credentials not given explicitly. */
  const UserIdName: string := "ZOTERO_USER_ID"
  const PrivateKeyName: string := "ZOTERO_PRIVATE_KEY"

  type Headers = map<string, string>
  type Params = map<string, string>

  /** One GET request: its URL, its headers and its query parameters. */
  datatype Request = Request(url: string, headers: Headers, params: Params)

  /** A link relation of an item; only its `href` is read. */
  datatype Link = Link(href: string)

  /** A listed item, reduced to its `links` mapping (relation name to link). */
  datatype Item = Item(links: map<string, Link>)

  /**
   * One response of an item listing: the HTTP status, the decoded list of
   * items, and the URL of the "next" link relation when the response has one.
   */
  datatype Response = Response(status: int, items: seq<Item>, next: Option<string>)

  /** A response of the fulltext endpoint: the status and the `content` field, if present. */
  datatype TextResponse = TextResponse(status: int, content: Option<string>)

  /** What the reader raises. */
  datatype Error =
    | MissingSetting(variable: string)   // neither an argument nor the environment variable
    | HttpError(status: int)             // raise_for_status on a 4xx or 5xx response
    | MissingField(field: string)        // a decoded body without an expected key

  /** raise_for_status raises for client (4xx) and server (5xx) errors only. */
  predicate IsSuccess(status: int) {
    !(400 <= status < 600)
  }

  // ---------------------------------------------------------------------
  // Headers

  /** The headers every request carries: the bearer key and the API version. */
  function AuthHeaders(privateKey: string): (h: Headers)
    ensures h.Keys == {"Authorization", "Zotero-API-Version"}
    ensures h["Authorization"] == "Bearer " + privateKey && h["Zotero-API-Version"] == "3"
  {
    map["Authorization" := "Bearer " + privateKey, "Zotero-API-Version" := "3"]
  }

  /** The headers of a fulltext request: the given ones with a JSON content type. */
  function FulltextHeaders(headers: Headers): Headers {
    headers["Content-Type" := "application/json"]
  }

  /** The authorization headers carry the key verbatim, so distinct keys give distinct headers. */
  lemma AuthHeadersDetermineKey(key1: string, key2: string)
    ensures AuthHeaders(key1) == AuthHeaders(key2) <==> key1 == key2
  {
    if AuthHeaders(key1) == AuthHeaders(key2) {
      var bearer1, bearer2 := AuthHeaders(key1)["Authorization"], AuthHeaders(key2)["Authorization"];
      assert bearer1[7..] == key1;
      assert bearer2[7..] == key2;
    }
  }

  /** A fulltext request keeps both authorization headers and adds exactly the content type. */
  lemma FulltextHeadersExtendAuth(privateKey: string)
    ensures var h := FulltextHeaders(AuthHeaders(privateKey));
      && h.Keys == {"Authorization", "Zotero-API-Version", "Content-Type"}
      && h["Authorization"] == "Bearer " + privateKey
      && h["Zotero-API-Version"] == "3"
      && h["Content-Type"] == "application/json"
  {
  }

  // ---------------------------------------------------------------------
  // URLs

  /** The user's part of every listing URL. */
  function UserPrefix(userId: string): string {
    BaseUrl + "/users/" + userId
  }

  function LibraryItemsUrl(userId: string): string {
    BaseUrl + "/users/" + userId + "/items"
  }

  function CollectionItemsUrl(userId: string, collectionId: string): string {
    BaseUrl + "/users/" + userId + "/collections/" + collectionId + "/items"
  }

  /**
   * First URL of a listing: the whole library, or one collection of it. Both
   * lie under the user's prefix and end in "/items"; the library URL is used
   * exactly when no collection is given, and a collection URL carries the
   * collection id right after "/collections/".
   */
  function StartUrl(userId: string, collectionId: Option<string>): (url: string)
    ensures |UserPrefix(userId)| + 6 <= |url|
    ensures url[..|UserPrefix(userId)|] == UserPrefix(userId) && url[|url| - 6..] == "/items"
    ensures url == LibraryItemsUrl(userId) <==> collectionId.None?
    ensures collectionId.Some? ==>
              var start := |UserPrefix(userId)| + 13;
              |url| == start + |collectionId.value| + 6 &&
              url[|UserPrefix(userId)|..start] == "/collections/" &&
              url[start..start + |collectionId.value|] == collectionId.value
  {
    var prefix := UserPrefix(userId);
    match collectionId
    case None =>
      assert LibraryItemsUrl(userId) == prefix + "/items";
      LibraryItemsUrl(userId)
    case Some(id) =>
      var url := CollectionItemsUrl(userId, id);
      assert url == prefix + "/collections/" + id + "/items";
      assert |url| != |LibraryItemsUrl(userId)|;
      url
  }

  /** The URL of a text search; `quoted` is the already URL-encoded query. */
  function SearchUrl(userId: string, quoted: string): string {
    LibraryItemsUrl(userId) + "?q=" + quoted
  }

  /** The fulltext sub-resource of an item. */
  function FulltextUrl(itemUrl: string): string {
    itemUrl + "/fulltext"
  }

  /** The start URL tells the scope: library and collection listings, and two collections, never share one. */
  lemma StartUrlDeterminesScope(userId: string, scope1: Option<string>, scope2: Option<string>)
    ensures StartUrl(userId, scope1) == StartUrl(userId, scope2) <==> scope1 == scope2
  {
  }

  /** Distinct items have distinct fulltext URLs. */
  lemma FulltextUrlInjective(itemUrl1: string, itemUrl2: string)
    ensures FulltextUrl(itemUrl1) == FulltextUrl(itemUrl2) <==> itemUrl1 == itemUrl2
  {
    if FulltextUrl(itemUrl1) == FulltextUrl(itemUrl2) {
      assert FulltextUrl(itemUrl1)[..|itemUrl1|] == itemUrl1;
      assert FulltextUrl(itemUrl2)[..|itemUrl2|] == itemUrl2;
    }
  }

  // ---------------------------------------------------------------------
  // The attachment filter

  predicate HasAttachment(item: Item) {
    "attachment" in item.links
  }

  function Href(item: Item): string
    requires HasAttachment(item)
  {
    item.links["attachment"].href
  }

  /** What one item contributes to the filtered list. */
  function Kept(item: Item): seq<string> {
    if HasAttachment(item) then [Href(item)] else []
  }

  /**
   * The attachment hrefs of the items that have an attachment link, in
   * the items' order.
   */
  function Attachments(items: seq<Item>): (hrefs: seq<string>)
    ensures |hrefs| <= |items|
  {
    if items == [] then []
    else Attachments(items[..|items| - 1]) + Kept(items[|items| - 1])
  }

  /** Nothing but attachment hrefs is kept: each output is the href of some item that has one. */
  lemma {:induction false} AttachmentsComeFromItems(items: seq<Item>, j: nat)
    requires j < |Attachments(items)|
    ensures exists i :: 0 <= i < |items| && HasAttachment(items[i]) && Attachments(items)[j] == Href(items[i])
    decreases |items|
  {
    var init := items[..|items| - 1];
    if j < |Attachments(init)| {
      AttachmentsComeFromItems(init, j);
      var i :| 0 <= i < |init| && HasAttachment(init[i]) && Attachments(init)[j] == Href(init[i]);
      assert items[i] == init[i];
    } else {
      assert Attachments(items)[j] == Href(items[|items| - 1]);
    }
  }

  /** Filtering commutes with concatenation. */
  lemma {:induction false} AttachmentsAppend(a: seq<Item>, b: seq<Item>)
    ensures Attachments(a + b) == Attachments(a) + Attachments(b)
    decreases |b|
  {
    if b == [] {
      assert a + b == a;
    } else {
      var init := b[..|b| - 1];
      assert (a + b)[..|a + b| - 1] == a + init;
      AttachmentsAppend(a, init);
    }
  }

  /**
   * Every item with an attachment is kept, at the position given by the
   * number of attachment-bearing items before it.
   */
  lemma AttachmentAt(items: seq<Item>, i: nat)
    requires i < |items| && HasAttachment(items[i])
    ensures |Attachments(items[..i])| < |Attachments(items)|
    ensures Attachments(items)[|Attachments(items[..i])|] == Href(items[i])
  {
    assert items == items[..i] + [items[i]] + items[i + 1..];
    AttachmentsAppend(items[..i] + [items[i]], items[i + 1..]);
    AttachmentsAppend(items[..i], [items[i]]);
    assert Attachments([items[i]]) == [Href(items[i])] by {
      assert [items[i]][..0] == [];
    }
  }

  /** The filter preserves relative order: an earlier kept item sits before a later one. */
  lemma AttachmentOrder(items: seq<Item>, i: nat, k: nat)
    requires i < k < |items| && HasAttachment(items[i]) && HasAttachment(items[k])
    ensures |Attachments(items[..i])| < |Attachments(items[..k])|
  {
    assert items[..k] == items[..i] + [items[i]] + items[i + 1..k];
    AttachmentsAppend(items[..i] + [items[i]], items[i + 1..k]);
    AttachmentsAppend(items[..i], [items[i]]);
    assert Attachments([items[i]]) == [Href(items[i])] by {
      assert [items[i]][..0] == [];
    }
  }

  // ---------------------------------------------------------------------
  // Cursor walks over a paginated listing

  /** A response ends the walk: it failed, or it has no "next" link. */
  predicate Stops(res: Response) {
    !IsSuccess(res.status) || res.next.None?
  }

  /** Some response of the server ends the walk. */
  predicate Ends(server: seq<Response>) {
    exists i :: 0 <= i < |server| && Stops(server[i])
  }

  /** The index of the response that ends the walk: the walk makes FirstStop(server) + 1 requests. */
  function FirstStop(server: seq<Response>): (n: nat)
    requires Ends(server)
    ensures n < |server| && Stops(server[n])
    ensures forall i :: 0 <= i < n ==> !Stops(server[i])
  {
    if Stops(server[0]) then 0
    else
      assert Ends(server[1..]) by {
        var i :| 0 <= i < |server| && Stops(server[i]);
        assert server[1..][i - 1] == server[i];
      }
      1 + FirstStop(server[1..])
  }

  /** The items of the given pages, in page order and then in within-page order. */
  function AllItems(pages: seq<Response>): seq<Item> {
    if pages == [] then []
    else AllItems(pages[..|pages| - 1]) + pages[|pages| - 1].items
  }

  lemma {:induction false} AllItemsAppend(a: seq<Response>, b: seq<Response>)
    ensures AllItems(a + b) == AllItems(a) + AllItems(b)
    decreases |b|
  {
    if b == [] {
      assert a + b == a;
    } else {
      var init := b[..|b| - 1];
      assert (a + b)[..|a + b| - 1] == a + init;
      AllItemsAppend(a, init);
    }
  }

  /** The attachment hrefs of each page, one page after the other. */
  function PageHrefs(pages: seq<Response>): seq<string> {
    if pages == [] then []
    else PageHrefs(pages[..|pages| - 1]) + Attachments(pages[|pages| - 1].items)
  }

  /** Filtering the accumulated items equals filtering each page and concatenating. */
  lemma {:induction false} AttachmentsOfPages(pages: seq<Response>)
    ensures Attachments(AllItems(pages)) == PageHrefs(pages)
    decreases |pages|
  {
    if pages != [] {
      var init := pages[..|pages| - 1];
      AttachmentsOfPages(init);
      AttachmentsAppend(AllItems(init), pages[|pages| - 1].items);
    }
  }

  /**
   * What a cursor walk yields: every item of the pages it fetched, or the
   * error of the response that failed.
   */
  function Listing(server: seq<Response>): Result<seq<Item>, Error>
    requires Ends(server)
  {
    var n := FirstStop(server);
    if IsSuccess(server[n].status) then Success(AllItems(server[..n + 1]))
    else Failure(HttpError(server[n].status))
  }

  /** The attachment hrefs of a walk's items, or its error. */
  function ListedHrefs(server: seq<Response>): Result<seq<string>, Error>
    requires Ends(server)
  {
    match Listing(server)
    case Success(items) => Success(Attachments(items))
    case Failure(e) => Failure(e)
  }

  /** The follow-up requests of a walk that has gone `k` pages past the first. */
  function Followups(server: seq<Response>, k: nat, headers: Headers): (reqs: seq<Request>)
    requires k <= |server|
    requires forall i :: 0 <= i < k ==> server[i].next.Some?
    ensures |reqs| == k
    ensures forall i :: 0 <= i < k ==> reqs[i] == Request(server[i].next.value, headers, map[])
  {
    if k == 0 then []
    else Followups(server, k - 1, headers) + [Request(server[k - 1].next.value, headers, map[])]
  }

  /**
   * The requests of a walk: `first`, then one request to each "next" URL,
   * carrying the headers only, until the response that stops it.
   */
  function CursorTrace(server: seq<Response>, first: Request, headers: Headers): (reqs: seq<Request>)
    requires Ends(server)
    ensures |reqs| == FirstStop(server) + 1 && reqs[0] == first
    ensures forall k :: 1 <= k < |reqs| ==>
              server[k - 1].next.Some? && reqs[k] == Request(server[k - 1].next.value, headers, map[])
  {
    [first] + Followups(server, FirstStop(server), headers)
  }

  /**
   * With N responses of which only the last stops the walk, the walk makes
   * exactly N requests and lists the attachments of all N pages, page by page.
   */
  lemma WalkFetchesEveryPage(server: seq<Response>, first: Request, headers: Headers)
    requires |server| > 0 && Stops(server[|server| - 1]) && IsSuccess(server[|server| - 1].status)
    requires forall i :: 0 <= i < |server| - 1 ==> !Stops(server[i])
    ensures Ends(server) && |CursorTrace(server, first, headers)| == |server|
    ensures ListedHrefs(server) == Success(PageHrefs(server))
  {
    assert Ends(server) by {
      assert Stops(server[|server| - 1]);
    }
    assert server[..FirstStop(server) + 1] == server;
    AttachmentsOfPages(server);
  }

  /** A failing response aborts the walk with its status, whatever pages came before it. */
  lemma WalkFailsFast(server: seq<Response>, n: nat)
    requires n < |server| && !IsSuccess(server[n].status)
    requires forall i :: 0 <= i < n ==> !Stops(server[i])
    ensures Ends(server) && FirstStop(server) == n
    ensures ListedHrefs(server) == Failure(HttpError(server[n].status))
  {
  }
}
