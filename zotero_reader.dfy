/**
 * The Zotero item reader: resolves its credentials once, lists the
 * attachment URLs of a library or collection by following pagination
 * cursors, searches, reads the full text of an item, and turns a list of
 * attachment URLs into documents.
 *
 * HTTP is replaced by inputs. A listing is answered by `server`, the
 * sequence of responses its successive requests receive; the fulltext
 * endpoint is a function from request to response. Every method that talks
 * to the server returns the requests it made, in order.
 */
module ZoteroReader {
  import opened Wrappers
  import opened ZoteroApi

  /** A loaded document: the item's text and its metadata (`item_key` is the URL it came from). */
  datatype Document = Document(text: string, extraInfo: map<string, string>)

  function ToDocument(text: string, itemUrl: string): Document {
    Document(text, map["item_key" := itemUrl])
  }

  /** The resolved pair of credentials. */
  datatype Credentials = Credentials(userId: string, privateKey: string)

  /** Query parameters of a listing when the caller gives none. */
  const DefaultQuery: Params := map["page_size" := "100"]

  // ---------------------------------------------------------------------
  // Credential resolution

  /** An explicit value wins; otherwise the environment's; otherwise the setting is missing. */
  function ResolveSetting(explicit: Option<string>, env: Option<string>, variable: string): Result<string, Error> {
    match explicit
    case Some(value) => Success(value)
    case None =>
      match env
      case Some(value) => Success(value)
      case None => Failure(MissingSetting(variable))
  }

  /**
   * Resolves the user id first, then the private key: each from its argument
   * if given, else from its environment value; the first setting with
   * neither is the error.
   */
  function ResolveCredentials(userId: Option<string>, privateKey: Option<string>,
                              envUserId: Option<string>, envPrivateKey: Option<string>): (r: Result<Credentials, Error>)
    ensures r.Success? <==> (userId.Some? || envUserId.Some?) && (privateKey.Some? || envPrivateKey.Some?)
    ensures r.Success? ==>
              r.value == Credentials(if userId.Some? then userId.value else envUserId.value,
                                     if privateKey.Some? then privateKey.value else envPrivateKey.value)
    ensures r.Failure? ==>
              r.error == MissingSetting(if userId.None? && envUserId.None? then UserIdName else PrivateKeyName)
  {
    match ResolveSetting(userId, envUserId, UserIdName)
    case Failure(e) => Failure(e)
    case Success(id) =>
      match ResolveSetting(privateKey, envPrivateKey, PrivateKeyName)
      case Failure(e) => Failure(e)
      case Success(key) => Success(Credentials(id, key))
  }

  /**
   * Resolution fails exactly when a setting has neither source, naming the
   * user id before the private key; otherwise every explicit value is used
   * unchanged and the environment supplies only the missing ones.
   */
  lemma CredentialSources(userId: Option<string>, privateKey: Option<string>,
                          envUserId: Option<string>, envPrivateKey: Option<string>)
    ensures var r := ResolveCredentials(userId, privateKey, envUserId, envPrivateKey);
      && (r.Failure? <==> (userId.None? && envUserId.None?) || (privateKey.None? && envPrivateKey.None?))
      && (userId.None? && envUserId.None? ==> r == Failure(MissingSetting(UserIdName)))
      && (r.Failure? && (userId.Some? || envUserId.Some?) ==> r == Failure(MissingSetting(PrivateKeyName)))
      && (r.Success? ==> r.value.userId == (if userId.Some? then userId.value else envUserId.value))
      && (r.Success? ==> r.value.privateKey == (if privateKey.Some? then privateKey.value else envPrivateKey.value))
  {
  }

  /** With both values given explicitly, the environment is not consulted. */
  lemma ExplicitCredentialsIgnoreEnvironment(userId: string, privateKey: string,
                                             env1: Option<string>, env2: Option<string>,
                                             env3: Option<string>, env4: Option<string>)
    ensures ResolveCredentials(Some(userId), Some(privateKey), env1, env2)
         == ResolveCredentials(Some(userId), Some(privateKey), env3, env4)
         == Success(Credentials(userId, privateKey))
  {
  }

  // ---------------------------------------------------------------------
  // Choosing where the URLs of a load come from

  /** Where `load_data` takes its URLs from: a listing (of one collection or of the library), or the caller. */
  datatype Source = Listed(scope: Option<string>) | Given(urls: seq<string>)

  /**
   * A collection wins over the given URLs; with neither, the whole library
   * is listed. The given URLs are used, verbatim, exactly when there is no
   * collection and they are not empty; a listing's scope is the collection
   * argument itself (None lists the library).
   */
  function SelectSource(itemUrls: seq<string>, collectionId: Option<string>): (s: Source)
    ensures s.Given? <==> collectionId.None? && itemUrls != []
    ensures s.Given? ==> s.urls == itemUrls
    ensures s.Listed? ==> s.scope == collectionId
  {
    if collectionId.Some? then Listed(collectionId)
    else if |itemUrls| == 0 then Listed(None)
    else Given(itemUrls)
  }

  /** What a load needs of the server: nothing when the URLs are given, a walk that ends otherwise. */
  predicate CanLoad(server: seq<Response>, itemUrls: seq<string>, collectionId: Option<string>) {
    SelectSource(itemUrls, collectionId).Given? || Ends(server)
  }

  /** The URLs a load reads, or the error of the listing that produced them. */
  function ResolveUrls(server: seq<Response>, itemUrls: seq<string>, collectionId: Option<string>): Result<seq<string>, Error>
    requires CanLoad(server, itemUrls, collectionId)
  {
    match SelectSource(itemUrls, collectionId)
    case Given(urls) => Success(urls)
    case Listed(_) => ListedHrefs(server)
  }

  // ---------------------------------------------------------------------
  // Worked examples

  /** Two listed pages, each with one attachment; the first points to the second. */
  function TwoPages(): seq<Response> {
    [ Response(200, [Item(map["attachment" := Link("A1")])], Some(BaseUrl + "/users/1/items?start=1")),
      Response(200, [Item(map["attachment" := Link("A2")])], None) ]
  }

  /**
   * The search truncation: on a result of two pages, the first page alone
   * (what Search returns) lacks the second page's attachment, which the
   * walk of every page (what SearchAll returns) has.
   */
  lemma SearchMissesLaterPages()
    ensures Ends(TwoPages())
    ensures Attachments(TwoPages()[0].items) == ["A1"]
    ensures ListedHrefs(TwoPages()) == Success(["A1", "A2"])
  {
    var server := TwoPages();
    assert Stops(server[1]);
    assert FirstStop(server) == 1 by {
      assert !Stops(server[0]) && FirstStop(server[1..]) == 0;
    }
    var item1, item2 := server[0].items[0], server[1].items[0];
    assert server[..2] == server;
    assert server[..1] == [server[0]];
    assert AllItems(server) == [item1, item2] by {
      assert AllItems([server[0]]) == [item1] by {
        assert [server[0]][..0] == [];
      }
    }
    assert Attachments([item1, item2]) == ["A1", "A2"] by {
      assert [item1, item2][..1] == [item1];
      assert [item1][..0] == [];
    }
    assert Attachments(server[0].items) == ["A1"] by {
      assert [item1][..0] == [];
    }
  }

  /** Of two items of which only the first has an attachment, only that attachment is listed. */
  lemma AttachmentExample()
    ensures Attachments([Item(map["attachment" := Link("A1")]), Item(map["alternate" := Link("B1")])]) == ["A1"]
  {
  }

  // ---------------------------------------------------------------------
  // The reader

  class ZoteroItemReader {
    const userId: string
    const privateKey: string
    /** The headers of every request, built from the resolved key. */
    const headers: Headers := AuthHeaders(privateKey)

    constructor (userId: string, privateKey: string)
      ensures this.userId == userId && this.privateKey == privateKey
    {
      this.userId := userId;
      this.privateKey := privateKey;
    }

    /**
     * Construction from optional arguments and optional environment values:
     * a reader with the resolved credentials, or the configuration error.
     */
    static method Create(userId: Option<string>, privateKey: Option<string>,
                         envUserId: Option<string>, envPrivateKey: Option<string>)
      returns (r: Result<ZoteroItemReader, Error>)
      ensures r.Success? <==> ResolveCredentials(userId, privateKey, envUserId, envPrivateKey).Success?
      ensures r.Failure? ==> ResolveCredentials(userId, privateKey, envUserId, envPrivateKey) == Failure(r.error)
      ensures r.Success? ==>
                ResolveCredentials(userId, privateKey, envUserId, envPrivateKey)
                == Success(Credentials(r.value.userId, r.value.privateKey))
      ensures r.Success? ==> r.value.headers == AuthHeaders(r.value.privateKey)
    {
      var id := userId;
      if id.None? {
        id := envUserId;
        if id.None? {
          return Failure(MissingSetting(UserIdName));
        }
      }
      var key := privateKey;
      if key.None? {
        key := envPrivateKey;
        if key.None? {
          return Failure(MissingSetting(PrivateKeyName));
        }
      }
      var reader := new ZoteroItemReader(id.value, key.value);
      r := Success(reader);
    }

    /** The request that reads an item's full text. */
    function FulltextRequest(itemUrl: string): Request {
      Request(FulltextUrl(itemUrl), FulltextHeaders(headers), map[])
    }

    /** The full text of an item: the `content` field of its fulltext resource. */
    function ReadItem(fulltext: Request -> TextResponse, itemUrl: string): (r: Result<string, Error>)
      ensures var res := fulltext(FulltextRequest(itemUrl));
        && (r.Success? <==> IsSuccess(res.status) && res.content.Some?)
        && (r.Success? ==> r.value == res.content.value)
        && (!IsSuccess(res.status) ==> r == Failure(HttpError(res.status)))
        && (IsSuccess(res.status) && res.content.None? ==> r == Failure(MissingField("content")))
    {
      var res := fulltext(FulltextRequest(itemUrl));
      if !IsSuccess(res.status) then Failure(HttpError(res.status))
      else match res.content
        case None => Failure(MissingField("content"))
        case Some(text) => Success(text)
    }

    /**
     * Follows the cursor from `first` until a response has no "next" link,
     * accumulating the items of every page; fails on the first response with
     * an error status.
     */
    method Paginate(server: seq<Response>, first: Request) returns (r: Result<seq<Item>, Error>, requests: seq<Request>)
      requires Ends(server)
      ensures r == Listing(server)
      ensures requests == CursorTrace(server, first, headers)
    {
      ghost var n := FirstStop(server);
      var k := 0;
      var res := server[0];
      requests := [first];
      if !IsSuccess(res.status) {
        return Failure(HttpError(res.status)), requests;
      }
      var items := res.items;
      assert server[..1] == [server[0]];
      while res.next.Some?
        invariant k <= n && res == server[k] && IsSuccess(res.status)
        invariant items == AllItems(server[..k + 1])
        invariant requests == [first] + Followups(server, k, headers)
        decreases n - k
      {
        var nextUrl := res.next.value;
        k := k + 1;
        res := server[k];
        requests := requests + [Request(nextUrl, headers, map[])];
        if !IsSuccess(res.status) {
          return Failure(HttpError(res.status)), requests;
        }
        assert server[..k + 1][..k] == server[..k];
        items := items + res.items;
      }
      r := Success(items);
    }

    /**
     * The attachment URLs of every item of the library (no collection) or of
     * one collection, following the pagination cursor to the last page.
     */
    method QueryUrls(server: seq<Response>, collectionId: Option<string>, queryDict: Params)
      returns (r: Result<seq<string>, Error>, requests: seq<Request>)
      requires Ends(server)
      ensures r == ListedHrefs(server)
      ensures requests == CursorTrace(server, Request(StartUrl(userId, collectionId), headers, queryDict), headers)
    {
      var startUrl := LibraryItemsUrl(userId);
      if collectionId.Some? {
        startUrl := CollectionItemsUrl(userId, collectionId.value);
      }
      var listed;
      listed, requests := Paginate(server, Request(startUrl, headers, queryDict));
      match listed
      case Failure(e) => r := Failure(e);
      case Success(items) => r := Success(Attachments(items));
    }

    /**
     * A text search over the library, as the Python `search` does: one request, and
     * the attachment URLs of the first page only, whatever its "next" link.
     * The status is not checked.
     */
    method Search(server: seq<Response>, quote: string -> string, query: string)
      returns (hrefs: seq<string>, requests: seq<Request>)
      requires |server| > 0
      ensures requests == [Request(SearchUrl(userId, quote(query)), headers, map[])]
      ensures hrefs == Attachments(server[0].items)
    {
      var done := false;
      var nextUrl: Option<string> := None;
      hrefs := [];
      requests := [];
      while !done
        invariant done ==> requests == [Request(SearchUrl(userId, quote(query)), headers, map[])]
        invariant done ==> hrefs == Attachments(server[0].items)
        invariant !done ==> requests == [] && hrefs == [] && nextUrl.None?
        decreases if done then 0 else 1
      {
        if nextUrl.None? {
          var q := quote(query);
          nextUrl := Some(SearchUrl(userId, q));
        }
        var res := server[|requests|];
        requests := requests + [Request(nextUrl.value, headers, map[])];
        for j := 0 to |res.items|
          invariant hrefs == Attachments(res.items[..j])
        {
          var item := res.items[j];
          if HasAttachment(item) {
            hrefs := hrefs + [Href(item)];
          }
          assert res.items[..j + 1][..j] == res.items[..j];
        }
        assert res.items[..|res.items|] == res.items;
        if res.next.None? {
          done := true;  // `search` also breaks here; the guard already ends the loop
        } else {
          nextUrl := res.next;
          break;
        }
      }
    }

    /** Search as evidently intended: every page of the result, following the cursor as QueryUrls does. */
    method SearchAll(server: seq<Response>, quote: string -> string, query: string)
      returns (r: Result<seq<string>, Error>, requests: seq<Request>)
      requires Ends(server)
      ensures r == ListedHrefs(server)
      ensures requests == CursorTrace(server, Request(SearchUrl(userId, quote(query)), headers, map[]), headers)
    {
      var listed;
      listed, requests := Paginate(server, Request(SearchUrl(userId, quote(query)), headers, map[]));
      match listed
      case Failure(e) => r := Failure(e);
      case Success(items) => r := Success(Attachments(items));
    }

    // -------------------------------------------------------------------
    // Loading documents

    /** The index of the first URL whose full text cannot be read, or |urls| when all can. */
    function FirstFailing(fulltext: Request -> TextResponse, urls: seq<string>): (k: nat)
      ensures k <= |urls|
      ensures forall j :: 0 <= j < k ==> ReadItem(fulltext, urls[j]).Success?
      ensures k < |urls| ==> ReadItem(fulltext, urls[k]).Failure?
    {
      if urls == [] || ReadItem(fulltext, urls[0]).Failure? then 0
      else 1 + FirstFailing(fulltext, urls[1..])
    }

    /** One document per URL, in order, or the error of the first URL that cannot be read. */
    function ReadAll(fulltext: Request -> TextResponse, urls: seq<string>): (r: Result<seq<Document>, Error>)
      ensures r.Success? <==> forall j :: 0 <= j < |urls| ==> ReadItem(fulltext, urls[j]).Success?
      ensures r.Success? ==> |r.value| == |urls|
      ensures r.Success? ==> forall j :: 0 <= j < |urls| ==>
                r.value[j] == ToDocument(ReadItem(fulltext, urls[j]).value, urls[j])
      ensures r.Failure? ==>
                FirstFailing(fulltext, urls) < |urls| &&
                ReadItem(fulltext, urls[FirstFailing(fulltext, urls)]) == Failure(r.error)
    {
      if urls == [] then Success([])
      else
        match ReadItem(fulltext, urls[0])
        case Failure(e) => Failure(e)
        case Success(text) =>
          match ReadAll(fulltext, urls[1..])
          case Failure(e) => Failure(e)
          case Success(docs) => Success([ToDocument(text, urls[0])] + docs)
    }

    /** The fulltext requests for the given URLs, in order. */
    function FulltextRequests(urls: seq<string>): (reqs: seq<Request>)
      ensures |reqs| == |urls|
      ensures forall j :: 0 <= j < |urls| ==> reqs[j] == FulltextRequest(urls[j])
    {
      if urls == [] then []
      else FulltextRequests(urls[..|urls| - 1]) + [FulltextRequest(urls[|urls| - 1])]
    }

    /** The fulltext requests of a load: one per URL up to and including the first that fails. */
    function ReadTrace(fulltext: Request -> TextResponse, urls: seq<string>): seq<Request> {
      var k := FirstFailing(fulltext, urls);
      FulltextRequests(urls[..if k == |urls| then k else k + 1])
    }

    /** The documents of a load, or its first error. */
    function LoadResult(server: seq<Response>, fulltext: Request -> TextResponse,
                        itemUrls: seq<string>, collectionId: Option<string>): Result<seq<Document>, Error>
      requires CanLoad(server, itemUrls, collectionId)
    {
      match ResolveUrls(server, itemUrls, collectionId)
      case Failure(e) => Failure(e)
      case Success(urls) => ReadAll(fulltext, urls)
    }

    /** The requests of a load: the listing's, if any, then the fulltext reads. */
    function LoadTrace(server: seq<Response>, fulltext: Request -> TextResponse,
                       itemUrls: seq<string>, collectionId: Option<string>): seq<Request>
      requires CanLoad(server, itemUrls, collectionId)
    {
      var listing := match SelectSource(itemUrls, collectionId)
        case Given(_) => []
        case Listed(scope) => CursorTrace(server, Request(StartUrl(userId, scope), headers, DefaultQuery), headers);
      match ResolveUrls(server, itemUrls, collectionId)
      case Failure(_) => listing
      case Success(urls) => listing + ReadTrace(fulltext, urls)
    }

    /**
     * Loads the documents of a collection, of the given URLs, or of the whole
     * library, in that order of priority.
     */
    method LoadData(server: seq<Response>, fulltext: Request -> TextResponse,
                    itemUrls: seq<string>, collectionId: Option<string>)
      returns (r: Result<seq<Document>, Error>, requests: seq<Request>)
      requires CanLoad(server, itemUrls, collectionId)
      ensures r == LoadResult(server, fulltext, itemUrls, collectionId)
      ensures requests == LoadTrace(server, fulltext, itemUrls, collectionId)
    {
      var urls := itemUrls;
      requests := [];
      if collectionId.Some? {
        var listed;
        listed, requests := QueryUrls(server, collectionId, DefaultQuery);
        if listed.Failure? {
          return Failure(listed.error), requests;
        }
        urls := listed.value;
      } else if |itemUrls| == 0 {
        var listed;
        listed, requests := QueryUrls(server, None, DefaultQuery);
        if listed.Failure? {
          return Failure(listed.error), requests;
        }
        urls := listed.value;
      }
      assert ResolveUrls(server, itemUrls, collectionId) == Success(urls);
      var fetched;
      r, fetched := ReadDocuments(fulltext, urls);
      requests := requests + fetched;
    }

    /** Reads the URLs in order into documents; the first URL that cannot be read aborts the loop. */
    method ReadDocuments(fulltext: Request -> TextResponse, urls: seq<string>)
      returns (r: Result<seq<Document>, Error>, requests: seq<Request>)
      ensures r == ReadAll(fulltext, urls)
      ensures requests == ReadTrace(fulltext, urls)
    {
      var docs: seq<Document> := [];
      requests := [];
      for i := 0 to |urls|
        invariant |docs| == i
        invariant forall j :: 0 <= j < i ==>
                    ReadItem(fulltext, urls[j]).Success? && docs[j] == ToDocument(ReadItem(fulltext, urls[j]).value, urls[j])
        invariant requests == FulltextRequests(urls[..i])
      {
        requests := requests + [FulltextRequest(urls[i])];
        assert urls[..i + 1][..i] == urls[..i];
        var text := ReadItem(fulltext, urls[i]);
        if text.Failure? {
          return Failure(text.error), requests;
        }
        docs := docs + [ToDocument(text.value, urls[i])];
      }
      assert urls[..|urls|] == urls;
      assert ReadAll(fulltext, urls).value == docs;
      r := Success(docs);
    }

    // -------------------------------------------------------------------
    // Properties of a load

    /** With a collection, the given URLs are ignored and the first request lists that collection. */
    lemma LoadFromCollection(server: seq<Response>, fulltext: Request -> TextResponse,
                             itemUrls: seq<string>, collectionId: string)
      requires Ends(server)
      ensures LoadResult(server, fulltext, itemUrls, Some(collectionId)) == LoadResult(server, fulltext, [], Some(collectionId))
      ensures LoadTrace(server, fulltext, itemUrls, Some(collectionId)) == LoadTrace(server, fulltext, [], Some(collectionId))
      ensures LoadTrace(server, fulltext, itemUrls, Some(collectionId))[0]
           == Request(CollectionItemsUrl(userId, collectionId), headers, DefaultQuery)
    {
    }

    /** With neither a collection nor URLs, the whole library is listed before anything is read. */
    lemma LoadWholeLibrary(server: seq<Response>, fulltext: Request -> TextResponse)
      requires Ends(server)
      ensures ResolveUrls(server, [], None) == ListedHrefs(server)
      ensures LoadTrace(server, fulltext, [], None)[0] == Request(LibraryItemsUrl(userId), headers, DefaultQuery)
      ensures LoadTrace(server, fulltext, [], None)[..FirstStop(server) + 1]
           == CursorTrace(server, Request(LibraryItemsUrl(userId), headers, DefaultQuery), headers)
    {
    }

    /**
     * Given URLs and no collection, nothing is listed: exactly the given URLs
     * are read, whatever the server would answer, and document j is the text
     * of URL j keyed by that URL.
     */
    lemma LoadGivenUrls(server1: seq<Response>, server2: seq<Response>, fulltext: Request -> TextResponse,
                        itemUrls: seq<string>)
      requires itemUrls != []
      ensures LoadResult(server1, fulltext, itemUrls, None) == LoadResult(server2, fulltext, itemUrls, None)
      ensures LoadTrace(server1, fulltext, itemUrls, None) == ReadTrace(fulltext, itemUrls)
      ensures var r := LoadResult(server1, fulltext, itemUrls, None);
        r.Success? ==>
          |r.value| == |itemUrls| &&
          forall j :: 0 <= j < |itemUrls| ==>
            r.value[j].extraInfo["item_key"] == itemUrls[j] && r.value[j].text == ReadItem(fulltext, itemUrls[j]).value
    {
    }

    /** Two given URLs whose texts are "text1" and "text2" load as two documents, in that order. */
    lemma LoadGivenExample(server: seq<Response>)
      ensures var fulltext := (req: Request) =>
                if req.url == FulltextUrl("A1") then TextResponse(200, Some("text1")) else TextResponse(200, Some("text2"));
        LoadResult(server, fulltext, ["A1", "A2"], None) == Success([ToDocument("text1", "A1"), ToDocument("text2", "A2")])
    {
      var fulltext := (req: Request) =>
        if req.url == FulltextUrl("A1") then TextResponse(200, Some("text1")) else TextResponse(200, Some("text2"));
      FulltextUrlInjective("A1", "A2");
      var urls := ["A1", "A2"];
      assert ReadItem(fulltext, urls[0]) == Success("text1");
      assert ReadItem(fulltext, urls[1]) == Success("text2");
      var docs := ReadAll(fulltext, urls).value;
      assert docs == [ToDocument("text1", "A1"), ToDocument("text2", "A2")];
    }

    /**
     * Reading stops at the first URL that fails: the URLs after it are never
     * requested and no document is produced.
     */
    lemma ReadStopsAtFirstFailure(fulltext: Request -> TextResponse, urls: seq<string>)
      ensures var k := FirstFailing(fulltext, urls);
        var trace := ReadTrace(fulltext, urls);
        && (ReadAll(fulltext, urls).Success? <==> k == |urls|)
        && (k == |urls| ==> trace == FulltextRequests(urls))
        && (k < |urls| ==>
              |trace| == k + 1 && trace[k] == FulltextRequest(urls[k]) &&
              ReadAll(fulltext, urls) == Failure(ReadItem(fulltext, urls[k]).error))
    {
    }
  }
}
