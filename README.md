# Zotero item reader, modelled in Dafny

A model of `ZoteroItemReader`. This is a llama-hub loader that reads items from the Zotero Web API v3 and turns their extracted full text into documents. The model covers what the reader decides around its HTTP calls:

- how it resolves its credentials and builds its headers;
- which URL a listing starts from;
- how it follows the pagination cursor ("next" link) and accumulates items;
- how it keeps only items that have an attachment link;
- why `search` stops after one page;
- how `load_data` chooses between a collection, the given URLs and the whole library;
- how it reads each URL's `/fulltext` resource into a document.

HTTP is replaced by inputs:

- A listing is answered by `server: seq<Response>`. Request k receives `server[k]`. A `Response` has a status, the decoded items and the URL of its "next" link, if it has one.
- The fulltext endpoint is a function `Request -> TextResponse`. A `TextResponse` has a status and the `content` field, if the body has one.
- `raise_for_status` fails exactly for statuses 400 to 599.
- Every method that talks to the server also returns the requests it made, in order, as `requests`. This is how the model states that a walk makes exactly N requests, that the first request goes to the scope's URL, and that nothing is requested after the first failure.

Files:

- `wrappers.dfy`: `Option` and `Result`.
- `zotero_api.dfy` (module `ZoteroApi`): constants, requests and responses, headers, URLs, the attachment filter, and the specification of a cursor walk (`FirstStop`, `AllItems`, `Listing`, `ListedHrefs`, `CursorTrace`).
- `zotero_reader.dfy` (module `ZoteroReader`): credential resolution, the source-selection policy, and the class `ZoteroItemReader`. Its fields `userId` and `privateKey` are set once by the constructor. `headers` is derived from the key. Its methods are proved against the specification functions.

## Model

| member | source | states |
|---|---|---|
| `ZoteroReader.ResolveCredentials` | loader_hub/zotero/base.py:27-40 | The user id is taken from its argument if given, else from the environment value; then the private key the same way. Resolution succeeds exactly when both have a source. On failure the error names the user id's variable if it is the one missing, otherwise the key's. |
| `ZoteroReader.CredentialSources` | loader_hub/zotero/base.py:25-43 | Construction fails exactly when a setting has neither an argument nor an environment value. A missing user id is reported before a missing key. An explicit value is used unchanged; the environment fills only a missing one. |
| `ZoteroReader.ExplicitCredentialsIgnoreEnvironment` | loader_hub/zotero/base.py:25-43 | With both values given explicitly, the result is the same whatever the environment holds. |
| `ZoteroReader.ZoteroItemReader.constructor` | loader_hub/zotero/base.py:42-43 | The reader stores the resolved user id and private key. |
| `ZoteroReader.ZoteroItemReader.Create` | loader_hub/zotero/base.py:25-49 | Construction from optional arguments and environment values succeeds exactly when credential resolution does. It then yields a reader with the resolved pair and headers built from its key. Otherwise it yields the resolution error. |
| `ZoteroApi.AuthHeaders` | loader_hub/zotero/base.py:46-49 | The headers are exactly Authorization = "Bearer " + key and Zotero-API-Version = "3". |
| `ZoteroApi.AuthHeadersDetermineKey` | loader_hub/zotero/base.py:46-49 | The headers hold the key verbatim after "Bearer ", so two keys give the same headers only if they are equal. |
| `ZoteroApi.FulltextHeadersExtendAuth` | loader_hub/zotero/base.py:56-59 | A fulltext request carries exactly Authorization = "Bearer " + key, Zotero-API-Version = "3" and Content-Type = application/json. |
| `ZoteroApi.StartUrl` | loader_hub/zotero/base.py:77-79 | The start URL lies under the user's prefix and ends in "/items". It is the library URL exactly when no collection is given. Otherwise "/collections/" and the collection id follow the user's prefix. |
| `ZoteroApi.StartUrlDeterminesScope` | loader_hub/zotero/base.py:77-79 | The start URL identifies the scope. The library URL never equals a collection URL, and two collections have different URLs. |
| `ZoteroApi.FulltextUrlInjective` | loader_hub/zotero/base.py:53 | Distinct item URLs give distinct `/fulltext` URLs. |
| `ZoteroReader.ZoteroItemReader.ReadItem` | loader_hub/zotero/base.py:51-67 | Reading an item succeeds exactly when its fulltext response has a success status and a `content` field, and then returns that field. A 4xx/5xx status gives the HTTP error; a body without `content` gives a missing-field error. |
| `ZoteroApi.Attachments` | loader_hub/zotero/base.py:101 | The filtered list is never longer than the accumulated items. |
| `ZoteroApi.AttachmentsComeFromItems` | loader_hub/zotero/base.py:101 | Every output href is the attachment href of some item that has an attachment link. |
| `ZoteroApi.AttachmentAt` | loader_hub/zotero/base.py:101 | Every item with an attachment link is kept. Its href sits at the position equal to the number of attachment-bearing items before it. |
| `ZoteroApi.AttachmentOrder` | loader_hub/zotero/base.py:101 | Kept items keep their relative order. |
| `ZoteroApi.AttachmentsAppend` | loader_hub/zotero/base.py:101 | Filtering a concatenation equals concatenating the filtered parts. |
| `ZoteroReader.AttachmentExample` | loader_hub/zotero/base.py:101 | Of two items where only the first has an attachment, only "A1" is listed. |
| `ZoteroApi.FirstStop` | loader_hub/zotero/base.py:86-99 | The walk ends at the first response that fails or has no "next" link. Every earlier response succeeded and had one. |
| `ZoteroApi.AllItemsAppend` | loader_hub/zotero/base.py:89-99 | The accumulated items of consecutive runs of pages are the concatenation of each run's items. |
| `ZoteroApi.AttachmentsOfPages` | loader_hub/zotero/base.py:89-101 | Filtering the accumulated items gives each page's attachment hrefs in page order, then within-page order. |
| `ZoteroApi.Followups` | loader_hub/zotero/base.py:91-96 | The k-th follow-up request goes to page k's "next" URL, with the headers only and no query parameters. |
| `ZoteroApi.CursorTrace` | loader_hub/zotero/base.py:81-99 | A walk makes FirstStop + 1 requests. The first is the given one; request k goes to the "next" URL of response k-1. |
| `ZoteroApi.WalkFetchesEveryPage` | loader_hub/zotero/base.py:81-102 | Given N responses where only the last lacks a "next" link, the walk makes exactly N requests. It lists the attachments of all N pages in page order. |
| `ZoteroApi.WalkFailsFast` | loader_hub/zotero/base.py:86-97 | A response with an error status ends the walk there, with that status as the error, whatever pages came before. |
| `ZoteroReader.ZoteroItemReader.Paginate` | loader_hub/zotero/base.py:75-99 | The cursor loop's result is the items of every fetched page in order, or the first error status. Its requests are exactly the walk's trace. |
| `ZoteroReader.ZoteroItemReader.QueryUrls` | loader_hub/zotero/base.py:69-102 | The first request goes to the library URL (no collection) or the collection URL, with the query parameters. The result is the attachment hrefs of all pages of the walk, or its HTTP error. |
| `ZoteroReader.ZoteroItemReader.Search` | loader_hub/zotero/base.py:104-125 | Search makes exactly one request, to the library URL with `?q=` and the quoted query. It returns that page's attachment hrefs in order, whether or not the page has a "next" link. |
| `ZoteroReader.SearchMissesLaterPages` | loader_hub/zotero/base.py:119-124 | On a result of two pages, the first page alone gives ["A1"], while all pages give ["A1", "A2"]. |
| `ZoteroReader.ZoteroItemReader.SearchAll` | loader_hub/zotero/base.py:104-125 | Corrected search: it follows the cursor like `query_urls`. It returns the attachment hrefs of every page and makes one request per page. |
| `ZoteroReader.ZoteroItemReader.FulltextRequests` | loader_hub/zotero/base.py:53-60 | One fulltext request per URL, in the URLs' order. |
| `ZoteroReader.ZoteroItemReader.FirstFailing` | loader_hub/zotero/base.py:149-151 | Gives the index of the first URL whose text cannot be read. Every URL before it is readable. |
| `ZoteroReader.ZoteroItemReader.ReadAll` | loader_hub/zotero/base.py:149-153 | Documents are produced exactly when every URL is readable. There is then one document per URL, in order: document j holds URL j's text with `item_key` = URL j. Otherwise the error is the first failing URL's. |
| `ZoteroReader.ZoteroItemReader.ReadDocuments` | loader_hub/zotero/base.py:149-153 | The loop over the URLs computes ReadAll. It requests each URL up to and including the first that fails, and nothing after it. |
| `ZoteroReader.ZoteroItemReader.ReadStopsAtFirstFailure` | loader_hub/zotero/base.py:149-153 | If no URL fails, every URL is requested. Otherwise exactly k+1 requests are made (k = first failing URL), the last one for URL k, and the load fails with URL k's error. |
| `ZoteroReader.SelectSource` | loader_hub/zotero/base.py:142-147 | Priority: a given collection is listed, whatever URLs are given. With no collection, non-empty URLs are used verbatim. With no collection and no URLs, the whole library is listed. Formally: the given URLs are used exactly when there is no collection and they are non-empty, and a listing's scope is the collection argument (None = library). |
| `ZoteroReader.ZoteroItemReader.LoadData` | loader_hub/zotero/base.py:127-153 | The load gives the documents of the selected URLs, or the first error of the listing or of a read. Its requests are the listing's (if any), then the fulltext reads. |
| `ZoteroReader.ZoteroItemReader.LoadFromCollection` | loader_hub/zotero/base.py:142-144 | With a collection, the given URLs are ignored: the result and the requests are the same for any of them. The first request lists that collection. |
| `ZoteroReader.ZoteroItemReader.LoadWholeLibrary` | loader_hub/zotero/base.py:145-147 | With no collection and no URLs, the whole library is listed (first request to the library URL, the full walk) before anything is read. |
| `ZoteroReader.ZoteroItemReader.LoadGivenUrls` | loader_hub/zotero/base.py:142-153 | With URLs and no collection, nothing is listed: the server is never consulted and only fulltext reads are made. Document j has `item_key` = URL j and that URL's text. |
| `ZoteroReader.ZoteroItemReader.LoadGivenExample` | loader_hub/zotero/base.py:149-153 | Loading ["A1", "A2"] with texts "text1" and "text2" gives those two documents, in that order. |

## Left out

- HTTP is not modelled: what `requests.get`, `res.json()` and `res.links` return is an input. Listing responses are given already decoded; `raise_for_status` is kept as the status test.
- A body that is not JSON, an item without `links`, and an attachment link without `href` would raise in the source. They are not modelled: items are given with their links, and every link has an href.
- `os.getenv` is passed in as two optional environment values.
- `urllib.parse.quote` is a parameter `quote` of the search methods.
- `Document` from llama_index is reduced to its text and its `extra_info` map.
- The `__main__` demo is not part of this model.
- `num_tabs` of `_read_item` is unused. `read_item` only delegates to `_read_item`, so both are one member, `ReadItem`. `query_dict` is forwarded to the first request as a string-to-string map (default `page_size` = "100"). Its mutable default is never mutated, so it does not matter.
- Paginate, QueryUrls, SearchAll: the model requires that some response ends the walk. A server whose "next" links never end would make the source loop forever. That case is not modelled.
- Search: the source does not check the status. The model reads the items of the one response whatever its status. What the source does with an error body (a `TypeError` or `KeyError`) is not modelled.
- Search: in its `else` branch (base.py:123) `search` stores the whole "next" link object rather than its URL. The model stores the URL. The value stored is never used, because the branch then breaks.
- `search` makes exactly one request and never a follow-up; the model does the same.

## Findings

| source | as written | input that shows it | evidently intended | confidence | as-written member | corrected member |
|---|---|---|---|---|---|---|
| loader_hub/zotero/base.py:119-124 | Both branches of the "next" test `break`, so `search` returns the first page of results only. The cursor it computes is never used. | A search whose result has two pages, with attachment "A1" on the first (which links to the second) and "A2" on the second: `search` returns ["A1"]. | Follow the cursor as `query_urls` does and return ["A1", "A2"]. | medium; not executed | `ZoteroReader.ZoteroItemReader.Search`, `ZoteroReader.SearchMissesLaterPages` | `ZoteroReader.ZoteroItemReader.SearchAll` |
