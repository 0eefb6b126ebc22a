# my-ootd, modelled in Dafny

my-ootd is a closet-cataloguing web application. Users upload photographs of
clothing, tag them with a category and style tags, browse a paginated
gallery, and ask for outfit suggestions built around one selected item. The
repository holds two generations of a Next.js client (`frontend/` and the
older `my-ootd/`) and a Flask backend (`backend-flask/`) in front of a
Supabase database and a hosted language model.

This project models the deterministic rules of that application and proves
what those rules promise. One Dafny module stands for each source file:

- **Client session layer.**
  - The two `ApiClient`s are a token store, a header builder and a response
    classifier (`FrontendApiClient`, `OotdApiClient`).
  - `FrontendAuth` is the single-flight refresh coordinator of the newer
    `AuthContext`, written as a class with the states Idle and Refreshing.
  - `OotdAuth` is the older, one-shot, cookie-gated rehydration.
- **Gallery list state** (`FrontendGallery`, `OotdGallery`).
  - Page offsets and the end-of-data flag.
  - The de-duplicating merge and the older plain append.
  - Update in place, or removal on a category change, when an item is saved.
  - Removal by id on delete, and the category-gated insertion of a new item.
- **Style-tag editing** (`StyleTags`, shared by `FrontendAddClothForm`,
  `OotdAddClothForm` and `ClothViewEditForm`).
  - Validation of new tag names, de-duplication by name, and toggling.
  - Extraction of numeric style ids, and file-name sanitising and composition.
- **Carousels** (`Carousel`, `Wardrobe`).
  - Wrap-around previous/next.
  - The circular signed distance, and the z-index, angle and offset derived
    from it.
  - The client-side filter/sort/take-three recommender.
- **Recommendation shaping.**
  - `OotdClothesApi`: `normalizeRecommendations` and the recommendation fetch.
  - `EmbeddingService`: the per-user embedding cache with its one-hour
    lifetime, and the top-three-per-other-category prefilter.
  - `LlmService`: the prompt builder.
  - `OutfitParser`: the `category: id` reply parser.
- **Request and validation rules.**
  - `Signup`: the client's password and field checks.
  - `AuthRoutes`: signup, login, refresh and logout over abstract user and
    refresh-token tables.
  - `AuthUtils`: the two Bearer-header parsers; the second decorator lives here.
  - `ClothDbService`: style-name normalisation, the style-id partition and
    upsert by name.
  - `ClothRoutes`: the status codes of the `/clothes` routes.
  - `WardrobeRoute`: the older Next.js wardrobe endpoint.

How the model is written:

- State that the source updates step by step is a `class` with `modifies`
  clauses. This covers React component state, the API clients' token, the
  refresh coordinator and the embedding cache.
- Loops are methods proved against a specification function.
- Pure list and string logic is functions and lemmas.
- Calls whose outcome another system decides are parameters: the network, the
  database's answers, JWT decoding, bcrypt, time, and the similarity score.

Two facts about the code that the model keeps:

- The code never retries a request after a refresh, and no refresh has a
  timeout: a 401 rejects with "Unauthorized" after firing the registered
  handler.
- The newer client's `get` always sends `Bearer ${token}`, which gives
  "Bearer null" without a token. Only `post`, `put` and `delete` use the
  conditional header.

## Model

| member | source | states |
|---|---|---|
| ClosetTypes.Ids | frontend/src/app/closet/Gallery.tsx:106 | the ids of the list, position by position |
| ClosetTypes.IdSet | frontend/src/app/closet/Gallery.tsx:106 | the set holds exactly the ids of the listed items |
| ClosetTypes.WithoutIds | frontend/src/app/closet/Gallery.tsx:107-109 | an item is kept exactly when its id is not excluded (also line 168) |
| ClosetTypes.WithoutIdsAppend | frontend/src/app/closet/Gallery.tsx:107-109 | filtering keeps the order of what it keeps, list by list |
| ClosetTypes.WithoutIdsAll | frontend/src/app/closet/Gallery.tsx:107-109 | everything is dropped when every id is excluded |
| ClosetTypes.WithoutIdsNoop | frontend/src/app/closet/Gallery.tsx:107-109 | nothing is dropped when no excluded id occurs |
| ClosetTypes.WithoutIdsUnique | frontend/src/app/closet/Gallery.tsx:168 | filtering a list without repeated ids leaves one without repeated ids |
| ClosetTypes.FindIndex | frontend/src/app/closet/Gallery.tsx:155-157 | nothing exactly when no item has the id, otherwise the first position holding it |
| FrontendApiClient.TokenText | frontend/src/utils/api/apiClient.ts:45 | the template `${this.token}` renders a missing token as the text "null" and a present one as itself |
| FrontendApiClient.HeadersFor | frontend/src/utils/api/apiClient.ts:17-25 | Content-Type is always `application/json`; an Authorization header `Bearer <t>` is present exactly when the token is non-null and non-empty; no other header |
| FrontendApiClient.GetHeadersFor | frontend/src/utils/api/apiClient.ts:43-46 | `get` always sends Authorization, "Bearer null" without a token; it agrees with `getHeaders` exactly when the token is truthy |
| FrontendApiClient.Classify | frontend/src/utils/api/apiClient.ts:27-37 | an ok response resolves with its body and fires nothing; a 401 with a handler fires that handler and rejects with "Unauthorized"; every other failure rejects with "`<step>` failed: `<text>`" |
| FrontendApiClient.ApiClient.constructor | frontend/src/utils/api/apiClient.ts:5-6 | a new client has no token and no handler |
| FrontendApiClient.ApiClient.SetToken | frontend/src/utils/api/apiClient.ts:8-10 | the token is replaced wholesale; the handler is untouched |
| FrontendApiClient.ApiClient.SetOnUnauthorized | frontend/src/utils/api/apiClient.ts:12-14 | the handler is replaced; the token is untouched |
| FrontendApiClient.ApiClient.Headers | frontend/src/utils/api/apiClient.ts:17-25 | the headers are those `HeadersFor` gives for the stored token |
| FrontendApiClient.ApiClient.HandleResponse | frontend/src/utils/api/apiClient.ts:27-37 | the response is classified with the registered handler |
| FrontendApiClient.ApiClient.Get | frontend/src/utils/api/apiClient.ts:39-52 | a GET to the path with Content-Type and the literal `Bearer <token text>` header; the result is classified under step "GET `<path>`" |
| FrontendApiClient.ApiClient.Post | frontend/src/utils/api/apiClient.ts:54-63 | a POST with `getHeaders` and the body; classified under "POST `<path>`" |
| FrontendApiClient.ApiClient.Put | frontend/src/utils/api/apiClient.ts:65-74 | a PUT with `getHeaders` and the body; classified under "PUT `<path>`" |
| FrontendApiClient.ApiClient.Delete | frontend/src/utils/api/apiClient.ts:75-83 | a DELETE with `getHeaders` and no body; classified under "DELETE `<path>`" |
| FrontendApiClient.SetTokenTwice | frontend/src/utils/api/apiClient.ts:8-10 | setting the same token twice leaves the headers those of that token |
| FrontendApiClient.FreshClient401 | frontend/src/utils/api/apiClient.ts:6-34 | a 401 on a fresh client, before any handler is registered, takes the generic error path |
| FrontendAuth.AuthProvider.constructor | frontend/src/contexts/AuthContext.tsx:36-44 | a new provider has no user, no token, no refresh in flight, and has not checked a refresh |
| FrontendAuth.AuthProvider.Invoke | frontend/src/contexts/AuthContext.tsx:46-87 | `rehydrate` starts a refresh exactly when none is pending and otherwise returns the pending one; at most one refresh is ever in flight |
| FrontendAuth.AuthProvider.SettleOk | frontend/src/contexts/AuthContext.tsx:58-84 | a successful refresh sets the client token first, then the token and user state, then clears the pending promise and marks the refresh checked |
| FrontendAuth.AuthProvider.SettleFail | frontend/src/contexts/AuthContext.tsx:72-84 | a failed refresh clears the client token, the token and the user; it navigates to /login exactly when the current page is neither /login nor /signup |
| FrontendAuth.AuthProvider.SyncToken | frontend/src/contexts/AuthContext.tsx:110-113 | the client token becomes the state's token; the handler is untouched |
| FrontendAuth.AuthProvider.RegisterHandler | frontend/src/contexts/AuthContext.tsx:96-101 | the 401 handler becomes the rehydrate callback |
| FrontendAuth.AuthProvider.Unmount | frontend/src/contexts/AuthContext.tsx:103-106 | on unmount the handler becomes a no-op |
| FrontendAuth.AuthProvider.OnUnauthorized | frontend/src/contexts/AuthContext.tsx:98-101 | a 401 under the rehydrate handler joins or starts a refresh; under the no-op handler nothing starts |
| FrontendAuth.AuthProvider.Mount | frontend/src/contexts/AuthContext.tsx:92-120 | mounting starts exactly one refresh, registers the handler, syncs the token, and the loader shows until the refresh settles |
| FrontendAuth.ConcurrentUnauthorized | frontend/src/contexts/AuthContext.tsx:43-101 | any number of 401s arriving while idle start one refresh, and every one of them waits on that same refresh |
| FrontendAuth.RefreshCycle | frontend/src/contexts/AuthContext.tsx:57-87 | once a refresh settles, either way, the next `rehydrate` starts a new refresh |
| OotdApiClient.ApiClient.constructor | my-ootd/src/utils/api/apiClient.ts:6 | a new client holds no token |
| OotdApiClient.ApiClient.SetToken | my-ootd/src/utils/api/apiClient.ts:8-10 | the token is replaced wholesale |
| OotdApiClient.ApiClient.Headers | my-ootd/src/utils/api/apiClient.ts:31-39 | Content-Type is always JSON; Authorization is present exactly when the token is truthy and is then `Bearer <token>` |
| OotdApiClient.ApiClient.Get | my-ootd/src/utils/api/apiClient.ts:12-19 | a GET with `getHeaders` and no body; the response body is returned whatever the status |
| OotdApiClient.ApiClient.Post | my-ootd/src/utils/api/apiClient.ts:21-29 | a POST with `getHeaders` and the body; the response body is returned whatever the status |
| OotdApiClient.SameHeaders | my-ootd/src/utils/api/apiClient.ts:15-28 | `get` and `post` send the same headers, and an error status reaches the caller as an ordinary body |
| OotdApiClient.FreshClientHeaders | my-ootd/src/utils/api/apiClient.ts:6-37 | a fresh client sends no Authorization; after a non-empty token is set it sends `Bearer <t>`, and after the empty token still none |
| OotdAuth.AuthProvider.constructor | my-ootd/src/contexts/AuthContext.tsx:33-36 | a new provider has no user, no token, no refresh started and has not checked a refresh |
| OotdAuth.AuthProvider.RunEffect | my-ootd/src/contexts/AuthContext.tsx:41-67 | the effect starts a refresh exactly when the check has not finished and the cookie names `refresh_token`; without the cookie it finishes the check with no call |
| OotdAuth.AuthProvider.Settle | my-ootd/src/contexts/AuthContext.tsx:50-63 | a successful refresh sets token and user; a failed one clears both and goes to /login unless the pathname captured by that run was /login or /signup; either way the check is finished |
| OotdAuth.NoWorkAfterCheck | my-ootd/src/contexts/AuthContext.tsx:42-68 | once the check has finished, a re-run of the effect does nothing and the children render |
| OotdAuth.SecondRefreshOnNavigation | my-ootd/src/contexts/AuthContext.tsx:41-67 | a change to a different pathname while a refresh is pending starts a second refresh: this variant has no single flight |
| OotdAuth.NoCookieNoCall | my-ootd/src/contexts/AuthContext.tsx:44-48 | without a refresh cookie the first run finishes the check, calls nothing and leaves the user signed out |
| FrontendGallery.MergeDedupe | frontend/src/app/closet/Gallery.tsx:105-111 | the merged list is at least the old list and at most old plus fetched |
| FrontendGallery.MergeKeepsPrefix | frontend/src/app/closet/Gallery.tsx:105-111 | the old list is a prefix of the merge, and what follows it is exactly the fetched items whose id the old list lacks |
| FrontendGallery.MergeIdempotent | frontend/src/app/closet/Gallery.tsx:105-111 | merging the same page a second time adds nothing |
| FrontendGallery.MergeKeepsIdsUnique | frontend/src/app/closet/Gallery.tsx:105-111 | a list with distinct ids keeps distinct ids after merging a page with distinct ids |
| FrontendGallery.RemoveById | frontend/src/app/closet/Gallery.tsx:168-208 | an item stays exactly when its id differs from the removed one |
| FrontendGallery.RemoveByIdIdempotent | frontend/src/app/closet/Gallery.tsx:206-208 | removing the same id twice is the same as once |
| FrontendGallery.RemoveAbsentId | frontend/src/app/closet/Gallery.tsx:206-208 | removing an id no item has leaves the list unchanged |
| FrontendGallery.UpdateOnSave | frontend/src/app/closet/Gallery.tsx:154-180 | an unknown id leaves the list alone; a category change while a specific category is shown drops the item; otherwise only the item's slot is replaced by the saved item |
| FrontendGallery.InsertNew | frontend/src/app/closet/Gallery.tsx:225-233 | a new cloth is appended exactly when its category is the one shown; otherwise the list is unchanged |
| FrontendGallery.SaveIntroducesNoId | frontend/src/app/closet/Gallery.tsx:154-180 | a save never adds an id to the list |
| FrontendGallery.SaveKeepsIdsUnique | frontend/src/app/closet/Gallery.tsx:154-180 | a list with distinct ids keeps them distinct after a save |
| FrontendGallery.Gallery.constructor | frontend/src/app/closet/Gallery.tsx:49-56 | empty list, page 0, not loading, more pages assumed, nothing selected |
| FrontendGallery.Gallery.ChangeCategory | frontend/src/app/closet/Gallery.tsx:58-118 | a category change resets list, page and `hasMore`, starts loading, requests the first page of three, and supersedes the previous effect; the more-data effect, run in the same commit with the old page and `hasMore`, also sends a request for the new category at the old page's offset exactly when that page was not 0 and `hasMore` held |
| FrontendGallery.Gallery.InitialResponse | frontend/src/app/closet/Gallery.tsx:75-79 | the first page replaces the list only when its effect is still the live one; `hasMore` is whether it was non-empty |
| FrontendGallery.Gallery.Trigger | frontend/src/app/closet/Gallery.tsx:123-131 | the observer advances the page by exactly one, only while intersecting, not loading and with more pages |
| FrontendGallery.Gallery.MoreFetch | frontend/src/app/closet/Gallery.tsx:89-100 | a further page is requested exactly when the page is not 0 and more pages may exist, at offset page times three |
| FrontendGallery.Gallery.MoreResponse | frontend/src/app/closet/Gallery.tsx:102-114 | a null or empty page ends paging; otherwise it is merged without duplicate ids; loading stops |
| FrontendGallery.Gallery.FetchRejected | frontend/src/app/closet/Gallery.tsx:61-80 | a rejected page fetch changes nothing: neither fetch effect catches, so the loader is never switched off (also lines 92-115) |
| FrontendGallery.Gallery.Select | frontend/src/app/closet/Gallery.tsx:240-266 | only the selected index changes |
| FrontendGallery.Gallery.Save | frontend/src/app/closet/Gallery.tsx:144-189 | an unsuccessful save leaves the list; a successful one applies `UpdateOnSave` |
| FrontendGallery.Gallery.Delete | frontend/src/app/closet/Gallery.tsx:190-223 | a delete is attempted exactly when a valid item is selected and the user confirms; on a truthy result that id is removed and the viewer closes, otherwise nothing changes |
| FrontendGallery.Gallery.NewCloth | frontend/src/app/closet/Gallery.tsx:225-233 | a new cloth is appended exactly when it belongs to the shown category, and the handled callback fires whenever one is given |
| FrontendGallery.StaleInitialIgnored | frontend/src/app/closet/Gallery.tsx:58-87 | after two quick category changes only the second category's first page is shown |
| FrontendGallery.StrayPageAfterCategoryChange | frontend/src/app/closet/Gallery.tsx:89-118 | a category change made on page 2 also asks for the new category at offset 6; that answer is merged after the first page, skipping the pages between, and an empty answer ends paging however full the first page was |
| FrontendGallery.RejectionStallsPaging | frontend/src/app/closet/Gallery.tsx:92-125 | after a rejected fetch the loader stays on and the observer no longer advances the page |
| FrontendGallery.RejectedFirstPage | frontend/src/app/closet/Gallery.tsx:58-80 | a category change whose first page is rejected leaves the empty list, the loader on and page 0, whatever the observer reports |
| OotdGallery.AppendVersusMerge | my-ootd/src/app/closet/Gallery.tsx:65 | the older gallery's plain append equals the newer de-duplicating merge exactly when no fetched id is already listed, and differs otherwise |
| OotdGallery.Append | my-ootd/src/app/closet/Gallery.tsx:65 | the old list is kept as a prefix and the fetched page follows it unchanged |
| OotdGallery.WithoutIdsSameLength | my-ootd/src/app/closet/Gallery.tsx:65 | an id filter that keeps as many items as it was given kept all of them |
| OotdGallery.Gallery.constructor | my-ootd/src/app/closet/Gallery.tsx:15-18 | empty list, page 0, not loading, more pages assumed |
| OotdGallery.Gallery.ChangeCategory | my-ootd/src/app/closet/Gallery.tsx:26-72 | a category change resets the view and asks for 3 items at offset 0, superseding the previous effect; the more-data effect, run in the same commit with the old page and `hasMore`, also sends `fetchMoreData` for the new category and the old page exactly when that page was not 0 and `hasMore` held |
| OotdGallery.Gallery.InitialResponse | my-ootd/src/app/closet/Gallery.tsx:40-44 | the first page is shown only when its effect was not cancelled |
| OotdGallery.Gallery.Trigger | my-ootd/src/app/closet/Gallery.tsx:77-85 | the page advances by one only while intersecting, not loading and with more pages |
| OotdGallery.Gallery.MoreFetch | my-ootd/src/app/closet/Gallery.tsx:54-60 | `fetchMoreData(category, page)` is called exactly when the page is not 0 and more pages may exist |
| OotdGallery.Gallery.MoreResponse | my-ootd/src/app/closet/Gallery.tsx:62-68 | a null or empty page ends paging; otherwise the page is appended as is |
| OotdGallery.EndIsFinal | my-ootd/src/app/closet/Gallery.tsx:55-79 | once the end is reached no trigger advances the page and no further request is made |
| OotdGallery.StrayPageAfterCategoryChange | my-ootd/src/app/closet/Gallery.tsx:53-72 | a category change made on page 2 also asks for page 2 of the new category; its items are appended after the first page, duplicates included, and an empty answer ends paging |
| FrontendAddClothForm.Plan | frontend/src/app/closet/AddClothForm.tsx:104-165 | the calls are made in the source's order and the first failure ends the submit: the tag upsert (only when tags were typed in, under their names), the cloth insert (its type's category, an empty URL), the style links (one row per truthy id of the selection, then of the saved new tags, for the new cloth), the storage listing under the composed name, the upload (only when no file of that name exists), and the image-URL update (only with a truthy URL); the count of calls shows exactly which were reached, and success means every stage answered |
| FrontendAddClothForm.ExistingFileNotUploaded | frontend/src/app/closet/AddClothForm.tsx:199-209 | when a file with the composed name exists its URL is reused and no upload call is made |
| FrontendAddClothForm.ClothFailureStops | frontend/src/app/closet/AddClothForm.tsx:124-131 | when `addCloth` throws it is the last call: no style is linked, no image is uploaded and no URL is written |
| FrontendAddClothForm.ImageUpdateNeedsUrl | frontend/src/app/closet/AddClothForm.tsx:155-162 | the image URL is written only after every earlier stage answered and the upload or a reused file gave a truthy URL |
| FrontendAddClothForm.TypedTagsLinkNothing | frontend/src/app/closet/AddClothForm.tsx:134-144 | tags typed in carry the fake id "" and are never linked themselves: with no saved new tags the links call of such a selection carries no row (the fake id is set at line 74) |
| FrontendAddClothForm.AddClothForm.constructor | frontend/src/app/closet/AddClothForm.tsx:39-50 | the form opens on the existing cloth's name and colour, type "top", no image and an empty style editor |
| FrontendAddClothForm.AddClothForm.SyncDbStyles | frontend/src/app/closet/AddClothForm.tsx:51-55 | a non-empty list of database styles replaces the shown choices; an empty one changes nothing |
| FrontendAddClothForm.AddClothForm.AddNewStyle | frontend/src/app/closet/AddClothForm.tsx:58-82 | the editor moves as `StyleTags.AddChecked` says; the error text is set exactly when the name is too long or not letters and spaces, cleared on accepted names, and untouched on an empty name |
| FrontendAddClothForm.AddClothForm.ToggleStyle | frontend/src/app/closet/AddClothForm.tsx:85-91 | the selection is toggled by name and nothing else changes |
| FrontendAddClothForm.AddClothForm.Reset | frontend/src/app/closet/AddClothForm.tsx:93-102 | name, colour, styles, input and image are cleared and the type is "top"; the shown choices and the error text stay |
| FrontendAddClothForm.AddClothForm.PickImage | frontend/src/app/closet/AddClothForm.tsx:255 | the chosen file, or none, replaces the image and nothing else changes |
| FrontendAddClothForm.AddClothForm.Submit | frontend/src/app/closet/AddClothForm.tsx:104-176 | without an image nothing is sent; otherwise the calls are those of `Plan` on the form's values, the chosen file and the services' answers, and the form, image included, is reset exactly when the submit succeeded, otherwise left as it was |
| FrontendAddClothForm.ResubmitNeedsNewImage | frontend/src/app/closet/AddClothForm.tsx:101-109 | after a successful submit a second one sends nothing until a new image is picked |
| StyleTags.RemoveName | frontend/src/app/closet/AddClothForm.tsx:87 | a tag stays exactly when its name differs from the removed one |
| StyleTags.RemoveAbsentName | frontend/src/app/closet/AddClothForm.tsx:87 | filtering out a name no tag has changes nothing |
| StyleTags.Toggle | frontend/src/app/closet/AddClothForm.tsx:85-91 | a selected name is deselected (every tag of that name goes); an unselected tag is appended |
| StyleTags.ToggleFlips | frontend/src/app/closet/AddClothForm.tsx:85-91 | a toggle flips whether the name is selected |
| StyleTags.ToggleTwiceRestores | frontend/src/app/closet/AddClothForm.tsx:85-91 | toggling an unselected tag twice gives back the original selection |
| StyleTags.RemoveNameAppend | frontend/src/app/closet/AddClothForm.tsx:87-89 | removing a just-appended, previously absent name gives back the list before the append |
| StyleTags.AddName | frontend/src/app/closet/AddClothForm.tsx:73-81 | an already selected name changes nothing and keeps the input; otherwise one tag with id "" is appended to the selection, the new tags and the shown tags, and the input is cleared |
| StyleTags.AddTyped | frontend/src/app/closet/ClothViewEditForm.tsx:38-47 | the unvalidated handler ignores an empty input and otherwise adds the raw text |
| StyleTags.AddNameSelects | frontend/src/app/closet/AddClothForm.tsx:73-81 | after an add the name is selected, and adding it again changes nothing |
| StyleTags.AddNameKeepsStyleIds | frontend/src/app/closet/AddClothForm.tsx:134-137 | a typed-in tag never changes the style ids taken from the selection or the new tags (the fake id is set at line 74) |
| StyleTags.CheckNewStyleName | frontend/src/app/closet/AddClothForm.tsx:59-70 | only the trimmed, lower-cased text is checked and accepted; it is blank exactly when that text is empty |
| StyleTags.AcceptedNameShape | frontend/src/app/closet/AddClothForm.tsx:59-70 | an accepted name has 1 to 20 characters, all lower-case ASCII letters or white space, none at either end, and checking it again accepts it unchanged |
| StyleTags.AcceptedNameForm | frontend/src/app/closet/AddClothForm.tsx:59-70 | an accepted name is the lower-cased trim of the input, letters and spaces only, at most 20 UTF-16 code units, with no white space at either end |
| StyleTags.RecheckAccepted | frontend/src/app/closet/AddClothForm.tsx:59-70 | a name already trimmed, lower-case, short enough and of letters and spaces is accepted as it is |
| StyleTags.JsTrimNoEdgeSpace | frontend/src/app/closet/AddClothForm.tsx:59 | `trim` leaves a string with no white space at either end unchanged |
| StyleTags.ErrorFor | frontend/src/app/closet/AddClothForm.tsx:60-71 | the error text is left alone exactly for a blank name and cleared exactly for an accepted one |
| StyleTags.AddChecked | frontend/src/app/closet/AddClothForm.tsx:58-82 | only an accepted name reaches the lists, and then as its normalised form |
| StyleTags.AddCheckedAddsValidNames | frontend/src/app/closet/AddClothForm.tsx:58-82 | every tag the validating handler appends has id "" and a name of 1 to 20 lower-case letters and spaces |
| StyleTags.ToNumber | frontend/src/app/closet/AddClothForm.tsx:135-136 | `Number` of a decimal numeral is its value |
| StyleTags.TruthyIds | frontend/src/app/closet/AddClothForm.tsx:135-136 | `filter(s => s.id)` keeps every non-empty id, adds none, and keeps no empty one |
| StyleTags.TruthyIdsAppend | frontend/src/app/closet/AddClothForm.tsx:134-137 | the ids of two lists joined are the first list's ids followed by the second's: the filter keeps order |
| StyleTags.TruthyIdsSingle | frontend/src/app/closet/AddClothForm.tsx:135 | one tag contributes its id exactly when the id is non-empty |
| StyleTags.Numbers | frontend/src/app/closet/AddClothForm.tsx:135-136 | `map(s => Number(s.id))` converts each id in place |
| StyleTags.StyleIds | frontend/src/app/closet/AddClothForm.tsx:134-137 | the style ids are `Number` of the truthy ids of the selection, position by position and in order, followed by those of the saved new tags |
| StyleTags.StyleIdsJoined | frontend/src/app/closet/AddClothForm.tsx:134-137 | the style ids are the same list as reading the truthy ids of the selection and the saved tags joined |
| StyleTags.NumbersAppend | frontend/src/app/closet/AddClothForm.tsx:134-137 | `Number` applied element-wise distributes over concatenation |
| StyleTags.FakeIdsDropped | frontend/src/app/closet/AddClothForm.tsx:134-137 | appending tags with the fake id "" does not change the ids taken (the fake id is set at line 74) |
| StyleTags.FakeIdsEmpty | frontend/src/app/closet/AddClothForm.tsx:134-137 | tags with only fake ids give no ids (the fake id is set at line 74) |
| StyleTags.StyleIdsOfRenderedIds | frontend/src/app/closet/AddClothForm.tsx:135-136 | tags whose ids render database ids give back exactly those numbers, in order |
| StyleTags.TruthyIdsAll | frontend/src/app/closet/AddClothForm.tsx:135 | when every id is non-empty all of them are kept, in order |
| StyleTags.ToNumberOfNat | frontend/src/app/closet/AddClothForm.tsx:136 | `Number(String(n)) == n` for every natural number |
| StyleTags.StyleRows | frontend/src/app/closet/AddClothForm.tsx:139-142 | one junction row per style id, in order, all for the same cloth |
| StyleTags.RemoveMarksShape | frontend/src/app/closet/AddClothForm.tsx:187 | after removing U+0300 to U+036F none is left and every character remaining came from the input |
| StyleTags.CollapseNoSpace | frontend/src/app/closet/AddClothForm.tsx:188 | after the white-space replacement no white space is left |
| StyleTags.CollapseKeepsChars | frontend/src/app/closet/AddClothForm.tsx:188 | every character after the replacement is "_" or came from the input |
| StyleTags.KeepSafe | frontend/src/app/closet/AddClothForm.tsx:189 | the last replacement leaves only `[a-zA-Z0-9_\-.]` and never lengthens the name |
| StyleTags.Sanitize | frontend/src/app/closet/AddClothForm.tsx:184-190 | a sanitised file name holds only safe characters |
| StyleTags.SanitizeSafe | frontend/src/app/closet/AddClothForm.tsx:184-190 | a name of safe characters passes through unchanged |
| StyleTags.SanitizeIdempotent | frontend/src/app/closet/AddClothForm.tsx:184-190 | sanitising twice is sanitising once |
| StyleTags.SafeNoMarks | frontend/src/app/closet/AddClothForm.tsx:187 | a safe name holds no combining mark to remove |
| StyleTags.SafeNoSpaces | frontend/src/app/closet/AddClothForm.tsx:188 | a safe name holds no white space to replace |
| StyleTags.SafeKept | frontend/src/app/closet/AddClothForm.tsx:189 | a safe name loses nothing in the last replacement |
| StyleTags.SpaceBecomesUnderscore | frontend/src/app/closet/AddClothForm.tsx:184-190 | a space between two safe parts becomes exactly one "_" |
| StyleTags.SafeUnderscoreJoin | frontend/src/app/closet/AddClothForm.tsx:189 | "_" between two safe parts is safe |
| StyleTags.MarksOfSpaceThenSafe | frontend/src/app/closet/AddClothForm.tsx:187 | mark removal leaves a space followed by a safe part unchanged |
| StyleTags.CollapseOfSpaceThenSafe | frontend/src/app/closet/AddClothForm.tsx:188 | a single space followed by a safe part becomes "_" |
| StyleTags.RemoveMarksSafePrefix | frontend/src/app/closet/AddClothForm.tsx:187 | mark removal passes a safe prefix through |
| StyleTags.RemoveMarksSafeHead | frontend/src/app/closet/AddClothForm.tsx:187 | mark removal copies the first character of a safe prefix |
| StyleTags.CollapseSafePrefix | frontend/src/app/closet/AddClothForm.tsx:188 | the white-space replacement passes a safe prefix through |
| StyleTags.CollapseSafeHead | frontend/src/app/closet/AddClothForm.tsx:188 | the white-space replacement copies the first character of a safe prefix |
| StyleTags.CollapseCons | frontend/src/app/closet/AddClothForm.tsx:188 | a character that is not white space is copied |
| StyleTags.SafeCharNotSpace | frontend/src/app/closet/AddClothForm.tsx:187-189 | a safe character is neither white space nor a combining mark |
| StyleTags.ShortUserId | frontend/src/app/closet/AddClothForm.tsx:148 | the short id is the part of the user id before its first "-": a prefix with no "-", followed by "-" when shorter |
| StyleTags.UploadNameLeadingFields | frontend/src/app/closet/AddClothForm.tsx:194-196 | splitting the composed name at its first "-" gives back the short user id, and the rest starts with the cloth id, whatever the file was called |
| StyleTags.UploadName | frontend/src/app/closet/AddClothForm.tsx:194-196 | the composed object name starts with the short user id |
| StyleTags.DashJoin | frontend/src/app/closet/AddClothForm.tsx:194-196 | the composed name is the short id, one "-", and the rest |
| StyleTags.UniqueSplit | frontend/src/app/closet/AddClothForm.tsx:194-196 | a name whose first field has no "-" splits back into that field and the rest |
| StyleTags.IndexOfAfterPrefix | frontend/src/app/closet/AddClothForm.tsx:194-196 | the first "-" of a join lies right after a first field that has none |
| StyleTags.FindByName | frontend/src/app/closet/ClothViewEditForm.tsx:100 | `find` gives nothing exactly when no tag has the name, and otherwise the first tag in the list with that name |
| StyleTags.InitialSelection | frontend/src/app/closet/ClothViewEditForm.tsx:98-101 | the seeded selection's names are exactly the stored names that have a database tag, in stored order, each position holding the first database tag of that name |
| StyleTags.InitialSelectionAppend | frontend/src/app/closet/ClothViewEditForm.tsx:98-101 | the selection for two runs of stored names joined is the first run's selection followed by the second's |
| StyleTags.Names | frontend/src/app/closet/AddClothForm.tsx:121 | `map(s => s.name)` keeps the order and the length |
| StyleTags.InitialSelectionComplete | frontend/src/app/closet/ClothViewEditForm.tsx:98-101 | when every stored name has a database tag the selection's names are exactly the stored names, in order |
| StyleTags.InitialSelectionUnmatched | frontend/src/app/closet/ClothViewEditForm.tsx:98-101 | stored names none of which has a database tag give an empty selection |
| StyleTags.CategoryFor | frontend/src/app/closet/Gallery.tsx:18-28 | a listed type maps to one of the six categories (to itself when it is also a category name); an unlisted type maps to "" |
| ClothViewEditForm.EditForm.constructor | frontend/src/app/closet/ClothViewEditForm.tsx:24-33 | the form opens on the item's name and colour, its type or "top", an empty style editor and a closed delete modal |
| ClothViewEditForm.EditForm.SyncDbStyles | frontend/src/app/closet/ClothViewEditForm.tsx:92-94 | a non-empty list of database styles replaces the shown choices |
| ClothViewEditForm.EditForm.SeedSelection | frontend/src/app/closet/ClothViewEditForm.tsx:96-103 | with an item, the selection becomes its stored names matched to database tags (none when it has no styles); without one nothing changes |
| ClothViewEditForm.EditForm.Type | frontend/src/app/closet/ClothViewEditForm.tsx:30 | only the input text changes |
| ClothViewEditForm.EditForm.AddNewStyle | frontend/src/app/closet/ClothViewEditForm.tsx:38-47 | the editor moves as the unvalidated handler says |
| ClothViewEditForm.EditForm.ToggleStyle | frontend/src/app/closet/ClothViewEditForm.tsx:49-55 | the selection is toggled by name |
| ClothViewEditForm.EditForm.SavePayload | frontend/src/app/closet/ClothViewEditForm.tsx:59-65 | the payload carries the item's id, the edited fields and the current selection |
| ClothViewEditForm.EditForm.DeleteClick | frontend/src/app/closet/ClothViewEditForm.tsx:80-84 | a truthy id opens the modal for that id; a zero id changes nothing |
| ClothViewEditForm.EditForm.ConfirmDelete | frontend/src/app/closet/ClothViewEditForm.tsx:86-90 | `onDelete` runs exactly when a truthy id is pending, with that id; the modal always closes and the id is cleared |
| ClothViewEditForm.ClickThenConfirm | frontend/src/app/closet/ClothViewEditForm.tsx:80-90 | opening the modal on an item and confirming deletes exactly that item and closes the modal |
| OotdAddClothForm.UploadName | my-ootd/src/app/closet/AddClothForm.tsx:63 | the object name's first "-"-separated field is the timestamp |
| OotdAddClothForm.FromUpload | my-ootd/src/app/closet/AddClothForm.tsx:124-155 | the upload is always made; a truthy URL adds the insert with that URL; an inserted cloth adds the links, one per truthy style id; success exactly when all three answered |
| OotdAddClothForm.Plan | my-ootd/src/app/closet/AddClothForm.tsx:117-160 | the calls stop at the first throw: tags are created first when some were typed in, then the image is uploaded, then only with a truthy URL the cloth is inserted with it, then only with a cloth id its styles are linked; success exactly when every stage answered |
| OotdAddClothForm.TagFailureStops | my-ootd/src/app/closet/AddClothForm.tsx:120-122 | a throwing `addStyleTags` is the only call made and the submit fails |
| OotdAddClothForm.ClothFailureStops | my-ootd/src/app/closet/AddClothForm.tsx:132-155 | a throwing `addCloth` is the last call: no style is linked and the submit fails |
| OotdAddClothForm.InsertNeedsUrl | my-ootd/src/app/closet/AddClothForm.tsx:125-129 | the cloth is inserted only after the upload gave a truthy URL |
| OotdAddClothForm.AddClothForm.constructor | my-ootd/src/app/closet/AddClothForm.tsx:43-46 | an empty style editor |
| OotdAddClothForm.AddClothForm.SyncDbStyles | my-ootd/src/app/closet/AddClothForm.tsx:48-52 | a non-empty list of database styles replaces the shown choices |
| OotdAddClothForm.AddClothForm.Type | my-ootd/src/app/closet/AddClothForm.tsx:45 | only the input text changes |
| OotdAddClothForm.AddClothForm.AddNewStyle | my-ootd/src/app/closet/AddClothForm.tsx:85-98 | the raw input is added unless it is empty or a selected tag has exactly that text |
| OotdAddClothForm.AddClothForm.ToggleStyle | my-ootd/src/app/closet/AddClothForm.tsx:101-107 | the selection is toggled by name |
| OotdAddClothForm.AddClothForm.Submit | my-ootd/src/app/closet/AddClothForm.tsx:109-165 | without an image nothing is sent; otherwise the calls are those of `Plan`, and it succeeds exactly when the cloth was saved and linked; the form is never reset |
| OotdAddClothForm.CaseSensitiveDuplicate | my-ootd/src/app/closet/AddClothForm.tsx:89 | "casual" then "Casual" gives two selected tags: the duplicate check compares exact text |
| Carousel.Abs | frontend/src/app/closet/RandomCloset.tsx:107 | `Math.abs` is non-negative and is the value or its negation |
| Carousel.PrevIndex | frontend/src/app/closet/RandomCloset.tsx:40-43 | on a non-empty ring the previous index stays in range and is one step back modulo the ring size |
| Carousel.NextIndex | frontend/src/app/closet/RandomCloset.tsx:47-50 | on a non-empty ring the next index stays in range and is one step forward modulo the ring size |
| Carousel.PrevNextInverse | frontend/src/app/closet/RandomCloset.tsx:40-52 | next then prev, and prev then next, return to the start |
| Carousel.DiffBounds | frontend/src/app/closet/RandomCloset.tsx:102-104 | the signed distance is at most half the ring, congruent to i − current modulo its size, and zero exactly for the current card |
| Carousel.HalfBounds | frontend/src/app/closet/RandomCloset.tsx:103-104 | twice `Math.floor(total / 2)` is total or total − 1 |
| Carousel.TurnMod | frontend/src/app/closet/RandomCloset.tsx:103-104 | adding or removing one turn does not change the residue |
| Carousel.DiffIsCircular | frontend/src/app/closet/RandomCloset.tsx:102-104 | the current card is at distance 0, and on a ring of at least three the next card is at +1 and the previous at −1 |
| Carousel.Place | frontend/src/app/closet/RandomCloset.tsx:106-127 | angle and depth grow linearly with the distance, full scale only at distance 0, and the z-index is the ring size minus the distance |
| Carousel.CardOrdering | frontend/src/app/closet/RandomCloset.tsx:102-127 | only the current card is at full scale and on top (z-index n); every card has z-index at least 1; nearer cards sit above farther ones |
| Carousel.LayoutConstants | frontend/src/app/closet/RandomCloset.tsx:106-108 | both closets use 25 degrees, depth 130 and scale 0.5; the dashboard wardrobe 30, 100 and 0.8 (also my-ootd/src/app/closet/RandomCloset.tsx:98-100; my-ootd/src/app/dashboard/Wardrobe.tsx:99-101) |
| Carousel.RandomCloset.constructor | frontend/src/app/closet/RandomCloset.tsx:20-33 | index 0, nothing selected, not loading, no recommendation |
| Carousel.RandomCloset.Prev | frontend/src/app/closet/RandomCloset.tsx:40-45 | the index steps back with wrap-around, the selection is cleared, and a valid index stays valid |
| Carousel.RandomCloset.Next | frontend/src/app/closet/RandomCloset.tsx:47-52 | the index steps forward with wrap-around, the selection is cleared, and a valid index stays valid |
| Carousel.RandomCloset.Select | frontend/src/app/closet/RandomCloset.tsx:36-38 | a click selects the card; a fetch for its item starts exactly when the selection changed and the index names an item (the click handler is at line 129) |
| Carousel.RandomCloset.FetchSettled | frontend/src/app/closet/RandomCloset.tsx:60-68 | the response is the fetched set on success and null on failure; loading always ends |
| Wardrobe.Candidates | my-ootd/src/app/dashboard/Wardrobe.tsx:60-63 | an item is a candidate exactly when it differs from the selected one in both id and type |
| Wardrobe.MatchingColour | my-ootd/src/app/dashboard/Wardrobe.tsx:64-66 | exactly the items of the selected colour |
| Wardrobe.OtherColour | my-ootd/src/app/dashboard/Wardrobe.tsx:64-66 | exactly the items of another colour |
| Wardrobe.ColourFirstPermutes | my-ootd/src/app/dashboard/Wardrobe.tsx:64-66 | the colour-first order is a permutation of the candidates |
| Wardrobe.ColourFirst | my-ootd/src/app/dashboard/Wardrobe.tsx:64-66 | the colour-first order holds exactly the candidates |
| Wardrobe.ColourFirstGroups | my-ootd/src/app/dashboard/Wardrobe.tsx:64-66 | no item of another colour comes before one of the selected colour |
| Wardrobe.Recommend | my-ootd/src/app/dashboard/Wardrobe.tsx:58-68 | at most three recommendations |
| Wardrobe.AnyOrderTakeSafe | my-ootd/src/app/dashboard/Wardrobe.tsx:60-67 | whatever order the engine's sort leaves, the first three are at most three wardrobe items sharing neither the selected item's id nor its type |
| Wardrobe.RecommendSafe | my-ootd/src/app/dashboard/Wardrobe.tsx:58-68 | every recommendation is a wardrobe item of another id and type, and there are three of them or all the candidates when fewer |
| Wardrobe.SelectedNotRecommended | my-ootd/src/app/dashboard/Wardrobe.tsx:60-63 | the selected item is never recommended to itself |
| Wardrobe.Recommendations | my-ootd/src/app/dashboard/Wardrobe.tsx:23-25 | nothing selected gives no recommendations; a selected index in range gives that item's recommendations |
| Wardrobe.Wardrobe.constructor | my-ootd/src/app/dashboard/Wardrobe.tsx:17-20 | an empty wardrobe at index 0 with nothing selected |
| Wardrobe.Wardrobe.Loaded | my-ootd/src/app/dashboard/Wardrobe.tsx:27-35 | the mount fetch replaces the list with the response |
| Wardrobe.Wardrobe.Prev | my-ootd/src/app/dashboard/Wardrobe.tsx:44-49 | the index steps back with wrap-around and the selection is cleared |
| Wardrobe.Wardrobe.Next | my-ootd/src/app/dashboard/Wardrobe.tsx:51-56 | the index steps forward with wrap-around and the selection is cleared |
| Wardrobe.Wardrobe.Select | my-ootd/src/app/dashboard/Wardrobe.tsx:18 | only the selection changes |
| Wardrobe.Wardrobe.CurrentRecommendations | my-ootd/src/app/dashboard/Wardrobe.tsx:23-68 | the recommendations for the current selection, at most three and all from the wardrobe, computed without changing its list |
| OotdClothesApi.StyleNames | my-ootd/src/utils/api/clothes.ts:79 | a missing styles array gives []; a null element makes the map throw; otherwise each element is replaced by its `styles` field, in place |
| OotdClothesApi.Keep | my-ootd/src/utils/api/clothes.ts:73-83 | an entry is kept exactly when its value is an item with a truthy id; it keeps its key as category and every field, its styles turned into names |
| OotdClothesApi.Categories | my-ootd/src/utils/api/clothes.ts:71-72 | every entry except `_style_phrase` |
| OotdClothesApi.KeepAll | my-ootd/src/utils/api/clothes.ts:71-83 | no more items than entries; every item is what `Keep` makes of one of the entries, so it has a truthy id, its category is that entry's key, its styles are turned into names and its other fields are copied |
| OotdClothesApi.Normalize | my-ootd/src/utils/api/clothes.ts:66-85 | a missing body gives null; the call throws exactly when some category's value is null or holds a null style |
| OotdClothesApi.NormalizeEntries | my-ootd/src/utils/api/clothes.ts:69-84 | the style phrase is copied across, and every item has a truthy id and a category that is an input key other than `_style_phrase` |
| OotdClothesApi.KeepAllOrder | my-ootd/src/utils/api/clothes.ts:71-83 | every entry with an item of truthy id is kept |
| OotdClothesApi.KeepAllAppend | my-ootd/src/utils/api/clothes.ts:71-83 | the entries are kept in key order: the result for two runs of entries joined is the first run's result followed by the second's |
| OotdClothesApi.KeepAllSingle | my-ootd/src/utils/api/clothes.ts:71-83 | one entry gives exactly what `Keep` makes of it |
| OotdClothesApi.EmptyObjectIsNotNull | my-ootd/src/utils/api/clothes.ts:67 | an empty object is truthy and its `length` is undefined, so it gives an empty set rather than null |
| OotdClothesApi.FetchOutcome | my-ootd/src/utils/api/clothes.ts:93-98 | a non-ok response is null without normalising; an ok one is the normalised body |
| OotdClothesApi.PagePath | my-ootd/src/utils/api/clothes.ts:13 | the path is `/clothes?` followed by the query |
| OotdClothesApi.PageQueryFields | my-ootd/src/utils/api/clothes.ts:13 | with no "&" in the category, the query splits into exactly `type=<c>`, `limit=<l>` and `offset=<o>` |
| OotdClothesApi.SplitJoin3 | my-ootd/src/utils/api/clothes.ts:13 | three fields joined by a separator none of them holds split back into those three |
| Signup.Check | frontend/src/app/signup/page.tsx:24-43 | the first failing check decides: a missing field, then an email without "@", then a password that is short, has no A–Z or no digit; only when all pass is the call made |
| Signup.ClientPasswordRule | frontend/src/app/signup/page.tsx:34-38 | a password the page accepts has at least 8 UTF-16 units, so at least 4 characters |
| Signup.HandleSignup | frontend/src/app/signup/page.tsx:20-46 | the error is cleared first; the signup call is made exactly when every check passes; the alert and the email error appear exactly for their failures; `pwdNotMeetRec` is written only once the first two checks pass, as the negation of the password rule |
| Signup.FailureError | frontend/src/app/signup/page.tsx:53 | a rejected call shows its message, or the fallback text when the message is empty; never an empty error |
| Signup.JsTrimFixed | frontend/src/app/signup/page.tsx:103-124 | a value with no white space at either end is left as it is by `trim` |
| Signup.EmailInputNormal | frontend/src/app/signup/page.tsx:82 | the email field holds a value with no white space at either end and no A–Z, and re-entering it leaves it unchanged |
| Signup.TrimmedInputNormal | frontend/src/app/signup/page.tsx:103-124 | trimming the username or password again changes nothing |
| Signup.AsciiUtf16Length | frontend/src/app/signup/page.tsx:35 | for ASCII text `length` counts characters |
| Signup.ClientRuleImpliesServerRule | frontend/src/app/signup/page.tsx:34-38 | an ASCII password the page accepts also passes the server's length, letter and digit rule (also backend-flask/app/auth/routes.py:46) |
| Signup.AstralPasswordSplitsRules | frontend/src/app/signup/page.tsx:35 | outside ASCII the rules part: a five-character password with three emoji is eight UTF-16 units, passes the page and is refused by the server (also backend-flask/app/auth/routes.py:46) |
| AuthRoutes.StaleExpiry | backend-flask/app/auth/routes.py:13 | with the expiry as written, once the server has run for 15 minutes every access token it issues is already expired when issued (the expiries use it at lines 77, 126 and 172) |
| AuthRoutes.StaleExpiryExample | backend-flask/app/auth/routes.py:13 | a login 20 minutes after start-up gets a token that expired 5 minutes before it was issued (the login expiry is at line 126) |
| AuthRoutes.ExpiryAsWritten | backend-flask/app/auth/routes.py:13 | the expiry as written is fixed by the load time: never before it, and no later than the request once the server has run a whole lifetime |
| AuthRoutes.ServerPasswordRule | backend-flask/app/auth/routes.py:46 | a password the server accepts has at least 8 UTF-8 bytes |
| AuthRoutes.Expiry | backend-flask/app/auth/routes.py:75-85 | the intended expiry lies exactly the lifetime after the request (likewise at lines 124-134 and 170-173) |
| AuthRoutes.FreshExpiry | backend-flask/app/auth/routes.py:75-78 | with the intended expiry an access token is valid at every instant of its first 15 minutes, however long the server has run (likewise at lines 124-127 and 170-173) |
| AuthRoutes.BearerToken | backend-flask/app/auth/routes.py:20-22 | a token is taken exactly when the header starts with "Bearer ", and it is everything after that prefix |
| AuthRoutes.BearerGuard | backend-flask/app/auth/routes.py:16-31 | no header or no "Bearer " prefix gives 401 "Missing token"; decode failures give their 401s; the handler runs exactly when the payload has `sub`, with that user id; a payload without `sub` raises |
| AuthRoutes.Utf8Length | backend-flask/app/auth/routes.py:49 | the UTF-8 length lies between one and four bytes per code point |
| AuthRoutes.SignupError | backend-flask/app/auth/routes.py:43-59 | the checks run in the order missing field, password rule, 72-byte limit, email taken, username taken; each error implies every earlier check passed and its own failed, and no error means every check passed |
| AuthRoutes.Signup | backend-flask/app/auth/routes.py:35-104 | a failed check answers 400 with its message and changes no table; otherwise exactly one user row and one unrevoked refresh-token row are added, and the 201 reply carries the access token, the user view and the refresh cookie |
| AuthRoutes.SignupTwice | backend-flask/app/auth/routes.py:56-59 | after a successful signup the same email is refused with "Email exists", and the same username is refused too |
| AuthRoutes.FirstByEmail | backend-flask/app/auth/routes.py:114-118 | nothing exactly when no user has the email, otherwise the first stored row with that email, as `data[0]` |
| AuthRoutes.Login | backend-flask/app/auth/routes.py:107-146 | an unknown email and a wrong password both get the same 401 and change nothing; a success adds one unrevoked refresh-token row and returns the access token, the user row and the refresh cookie |
| AuthRoutes.LoginAsWritten | backend-flask/app/auth/routes.py:119 | as written, an unknown email gets its 401 and every known email ends in a 500 that changes no table, because `bcrypt.verify` does not exist |
| AuthRoutes.NoLoginAsWritten | backend-flask/app/auth/routes.py:4-119 | the account just created, whose password the intended check accepts, logs in with `Login` and gets a 500 as written |
| AuthRoutes.LoginExposesHash | backend-flask/app/auth/routes.py:118-144 | a login response carries the account's stored password hash |
| AuthRoutes.SignupThenLogin | backend-flask/app/auth/routes.py:66-120 | the account just created logs in with a password its hash accepts |
| AuthRoutes.FirstByEmailAppend | backend-flask/app/auth/routes.py:114-118 | a new email appended to the table is found as that row |
| AuthRoutes.FirstByJti | backend-flask/app/auth/routes.py:165 | nothing exactly when no row has the jti, otherwise the first stored row with that jti, as `data[0]` |
| AuthRoutes.Refresh | backend-flask/app/auth/routes.py:150-175 | a missing cookie, a token that does not decode with both claims, and an absent or revoked jti all answer 401 with no cookie change; otherwise the body holds only a new access token for the `sub` |
| AuthRoutes.RevokeJti | backend-flask/app/auth/routes.py:187 | exactly the rows with that jti become revoked; the others and the order are kept |
| AuthRoutes.Logout | backend-flask/app/auth/routes.py:179-192 | the cookie's jti is revoked when the cookie decodes with one, and otherwise no table changes; the reply is always "Logged out" with the cookie deleted |
| AuthRoutes.LogoutThenRefresh | backend-flask/app/auth/routes.py:165-187 | once logged out, the same cookie no longer refreshes |
| AuthRoutes.LoginThenRefresh | backend-flask/app/auth/routes.py:129-175 | the refresh token a login issues refreshes, when its jti was new to the table |
| AuthRoutes.FirstByJtiAppend | backend-flask/app/auth/routes.py:165 | a new jti appended to the table is found as that row |
| AuthUtils.HeaderToken | backend-flask/app/auth/auth_utils.py:11-16 | no header gives no token; a token is the non-empty second space-separated field and holds no space |
| AuthUtils.TokenGuard | backend-flask/app/auth/auth_utils.py:8-27 | no token gives 401 "Token is missing"; the handler runs exactly when the token decodes with a `sub`, with that user id; every other outcome is one of the three 401 messages |
| Common.SplitNoSeparator | backend-flask/app/auth/auth_utils.py:14 | a text without the separator splits into itself alone (also used for the query split of my-ootd/src/utils/api/clothes.ts:13) |
| Common.SplitAfterWord | backend-flask/app/auth/auth_utils.py:14 | splitting `word + sep + rest`, with no separator in the word, gives the word and then the fields of rest |
| AuthUtils.AnySchemeAccepted | backend-flask/app/auth/auth_utils.py:14 | any first word is accepted as the scheme; the second word is the token |
| AuthUtils.NoSpaceNoToken | backend-flask/app/auth/auth_utils.py:14-17 | a header without a space yields no token |
| AuthUtils.GuardsAgreeOnBearer | backend-flask/app/auth/auth_utils.py:14 | for `Bearer <token>` with a space-free token both decorators take the same token (also backend-flask/app/auth/routes.py:20-22) |
| AuthUtils.GuardsDisagreeOnSpaces | backend-flask/app/auth/auth_utils.py:14 | for `Bearer a b` one decorator takes `a b` and the other only `a` (also backend-flask/app/auth/routes.py:22) |
| LlmService.AppendItems | backend-flask/app/recommendation/llm_service.py:44-48 | the inner loop adds one line for each item of the category except the selected one, in list order |
| LlmService.AppendShortlist | backend-flask/app/recommendation/llm_service.py:43-48 | the outer loop adds each category's lines in shortlist order |
| LlmService.BuildPrompt | backend-flask/app/recommendation/llm_service.py:38-58 | the prompt is the header, the selected item's line, the candidates heading, the candidate lines and the instruction block |
| LlmService.Remaining | backend-flask/app/recommendation/llm_service.py:43-46 | the listed candidates never include the selected item's id |
| LlmService.Without | backend-flask/app/recommendation/llm_service.py:45-46 | an item is kept exactly when it was in the list and its id differs from the selected one |
| LlmService.ItemsTextIsLines | backend-flask/app/recommendation/llm_service.py:44-48 | one category's text is exactly the lines of its items without the selected one |
| LlmService.ShortlistIsLines | backend-flask/app/recommendation/llm_service.py:43-48 | the loops' text is exactly the lines of the remaining candidates |
| LlmService.PromptListsRemaining | backend-flask/app/recommendation/llm_service.py:38-58 | the candidate part of the prompt is exactly one line per remaining candidate, in category and then list order |
| LlmService.PromptFrame | backend-flask/app/recommendation/llm_service.py:39-58 | every prompt starts with the stylist header and ends with the instruction block |
| LlmService.RemainingComplete | backend-flask/app/recommendation/llm_service.py:43-48 | every shortlisted item whose id is not the selected one is listed |
| OutfitParser.FindById | backend-flask/app/recommendation/parser.py:21-24 | nothing exactly when no item's id prints as the value; otherwise the first item whose id does |
| OutfitParser.Step | backend-flask/app/recommendation/parser.py:9-37 | blank lines and lines without a colon leave the outfit unchanged; a "style phrase" key stores the value under `_style_phrase`; any other key stores the item the value names, or nothing when none matches |
| OutfitParser.ReadLine | backend-flask/app/recommendation/parser.py:9-37 | the loop body updates the outfit as one step of the parse |
| OutfitParser.MapAiText | backend-flask/app/recommendation/parser.py:2-38 | the outfit is the parse of the stripped text's lines, in order |
| OutfitParser.LineKeysFromLines | backend-flask/app/recommendation/parser.py:12-13 | each collected key is the key of some line with a colon |
| OutfitParser.KeysFromText | backend-flask/app/recommendation/parser.py:12-28 | every outfit key is `_style_phrase` or the key of a line of the text, and "style phrase" is never a category |
| OutfitParser.StepKeys | backend-flask/app/recommendation/parser.py:16-28 | one line adds at most its own key or `_style_phrase` |
| OutfitParser.ChosenFromItems | backend-flask/app/recommendation/parser.py:21-35 | every chosen value is one of the cloth details |
| OutfitParser.ParsedUniqueKeys | backend-flask/app/recommendation/parser.py:6-28 | the outfit never holds a key twice |
| OutfitParser.LaterLineWins | backend-flask/app/recommendation/parser.py:28 | a later line for the same category overwrites the earlier entry and leaves the other keys as they were |
| OutfitParser.NoColonSkipped | backend-flask/app/recommendation/parser.py:11-37 | a line without a colon adds nothing and parsing goes on |
| OutfitParser.ColonLine | backend-flask/app/recommendation/parser.py:12-14 | `key:value` with unpadded parts has the lower-cased key and the value |
| OutfitParser.CategoryLine | backend-flask/app/recommendation/parser.py:12-35 | a `<Category>:<id>` line naming an item files that item under the lower-cased category |
| OutfitParser.StylePhraseLine | backend-flask/app/recommendation/parser.py:13-17 | a `Style Phrase: <text>` line in any letter case stores the phrase |
| EmbeddingService.ValidRows | backend-flask/app/recommendation/embedding_service.py:107-110 | the kept rows are exactly the rows with a non-empty embedding, in order |
| EmbeddingService.Columns | backend-flask/app/recommendation/embedding_service.py:103-118 | the three lists have one position per kept row, holding its id, vector and category |
| EmbeddingService.CollectValid | backend-flask/app/recommendation/embedding_service.py:103-118 | the row loop builds the three parallel lists from exactly the rows that have an embedding |
| EmbeddingService.ColumnsDescribeRows | backend-flask/app/recommendation/embedding_service.py:107-118 | every cached position describes a query row that has an embedding |
| EmbeddingService.EmbeddingCache.constructor | backend-flask/app/recommendation/embedding_service.py:14 | the cache starts empty, with every entry's three lists aligned |
| EmbeddingService.EmbeddingCache.Clear | backend-flask/app/recommendation/embedding_service.py:82-84 | only the given user's entry is removed, and a missing user changes nothing |
| EmbeddingService.EmbeddingCache.GetAll | backend-flask/app/recommendation/embedding_service.py:87-138 | an entry younger than an hour is returned without a query; otherwise an empty result, or one with no usable embedding, returns empty lists and stores nothing; otherwise the lists are stored stamped with the time of the call |
| EmbeddingService.ReadTwice | backend-flask/app/recommendation/embedding_service.py:94-136 | a second read within the hour of a stored read returns the same lists and makes no query |
| EmbeddingService.IndexOfId | backend-flask/app/recommendation/embedding_service.py:154 | nothing exactly when the id is absent, otherwise its first position |
| EmbeddingService.ScoredUpTo | backend-flask/app/recommendation/embedding_service.py:162-166 | no scored entry is the selected item, and each comes from one position of the lists with its category |
| EmbeddingService.InCategory | backend-flask/app/recommendation/embedding_service.py:169-173 | an entry is kept exactly when it is scored and has that category |
| EmbeddingService.Group | backend-flask/app/recommendation/embedding_service.py:168-173 | the grouping loop builds the groups as the specification of the loop |
| EmbeddingService.GroupedLookup | backend-flask/app/recommendation/embedding_service.py:168-173 | a category's group is its scored entries in order; the selected category and a category with no entry have no group |
| EmbeddingService.GroupedUniqueKeys | backend-flask/app/recommendation/embedding_service.py:173 | no category is grouped twice |
| EmbeddingService.GroupsAreCategories | backend-flask/app/recommendation/embedding_service.py:168-173 | no group belongs to the selected category, and each group holds exactly the scored entries of its category |
| EmbeddingService.InsertDesc | backend-flask/app/recommendation/embedding_service.py:178 | inserting adds exactly that entry to the list |
| EmbeddingService.InsertDescSorted | backend-flask/app/recommendation/embedding_service.py:178 | inserting keeps a list sorted best first |
| EmbeddingService.SortDesc | backend-flask/app/recommendation/embedding_service.py:178 | the result is sorted by descending score and is a permutation of the group |
| EmbeddingService.Top | backend-flask/app/recommendation/embedding_service.py:178 | at most three entries of the group are kept, and all come from it (the constant is at line 16) |
| EmbeddingService.TopIsBest | backend-flask/app/recommendation/embedding_service.py:178 | the kept entries come best first, and none left out scores higher than one kept |
| EmbeddingService.ScoredIds | backend-flask/app/recommendation/embedding_service.py:179-190 | the ids of the entries, position by position |
| EmbeddingService.TopIds | backend-flask/app/recommendation/embedding_service.py:176-179 | the loop appends each group's kept ids in group order |
| EmbeddingService.TopIdsBounded | backend-flask/app/recommendation/embedding_service.py:176-179 | at most three ids per group, and every id belongs to an entry of some group |
| EmbeddingService.DetailsWithIds | backend-flask/app/recommendation/embedding_service.py:190-191 | a detail is kept exactly when its id is among the group's ids |
| EmbeddingService.ByCategory | backend-flask/app/recommendation/embedding_service.py:187-191 | one candidate list per group, in group order, holding the fetched details of that group's items |
| EmbeddingService.FirstWithId | backend-flask/app/recommendation/embedding_service.py:186 | the first fetched detail with the selected id, or nothing exactly when none has it |
| EmbeddingService.Prefilter | backend-flask/app/recommendation/embedding_service.py:154-195 | the method computes the prefilter specification from the embeddings it read |
| EmbeddingService.PrefilterPromises | backend-flask/app/recommendation/embedding_service.py:154-195 | a ValueError exactly when the selected id is not among the embeddings; otherwise the fetch list starts with the selected id and every candidate list belongs to another category and holds only fetched details of that category's items, never the selected one |
| EmbeddingService.FetchListBounded | backend-flask/app/recommendation/embedding_service.py:176-182 | the fetch list holds at most one plus three ids per category (the constant is at line 16) |
| EmbeddingService.CreateCandidateByCategory | backend-flask/app/recommendation/embedding_service.py:141-196 | the result is the prefilter of the embeddings read through the cache, a fresh entry is used as stored, and the cache's entries stay aligned |
| ClothDbService.Window | backend-flask/app/cloth/db_service.py:24 | an inclusive window inside the table is exactly those rows; one past the end or reversed is empty |
| ClothDbService.PageSize | backend-flask/app/cloth/db_service.py:24 | a page holds `limit` rows starting at `offset`, fewer at the end of the table, none past it |
| ClothDbService.PagesTile | backend-flask/app/cloth/db_service.py:24 | two consecutive pages together are the double page: no row skipped, none repeated |
| ClothDbService.Matching | backend-flask/app/cloth/db_service.py:19-27 | a row matches exactly when it has a linked style and, for a truthy category, has that category |
| ClothDbService.StyleNames | backend-flask/app/cloth/db_service.py:37 | one name per link whose style is present, each taken from such a link |
| ClothDbService.Project | backend-flask/app/cloth/db_service.py:30-39 | the returned item keeps the row's id, name, type, colour, category and image and lists its style names |
| ClothDbService.ProjectAll | backend-flask/app/cloth/db_service.py:30-41 | one projected item per row, in order |
| ClothDbService.ClothesByType | backend-flask/app/cloth/db_service.py:17-42 | for non-negative `limit` and `offset`: the projections of the matching rows from `offset` on, in order, `limit` of them or fewer at the end of the matches |
| ClothDbService.StyleNamesAppend | backend-flask/app/cloth/db_service.py:37 | the names of two link lists are the names of each, in order |
| ClothDbService.NewTags | backend-flask/app/cloth/db_service.py:82 | blank names are dropped and every tag sent is stripped, non-empty and lower-case |
| ClothDbService.NewTagsIdempotent | backend-flask/app/cloth/db_service.py:82 | normalising the tags a second time changes nothing |
| ClothDbService.NewTagsEmpty | backend-flask/app/cloth/db_service.py:82-85 | nothing is sent exactly when every name is blank |
| ClothDbService.CreateStyleTags | backend-flask/app/cloth/db_service.py:80-93 | all-blank names give `[]` with no database call; otherwise the normalised tags are upserted and the database's rows, or `None` on an error, are returned |
| ClothDbService.CleanField | backend-flask/app/cloth/db_service.py:124-126 | the cleaned field has no surrounding space and no upper-case letter |
| ClothDbService.CleanFieldIdempotent | backend-flask/app/cloth/db_service.py:124-126 | cleaning twice is cleaning once |
| ClothDbService.IndexOfName | backend-flask/app/cloth/db_service.py:130-134 | nothing exactly when no row has the name, otherwise the first row that has it |
| ClothDbService.UpdateById | backend-flask/app/cloth/db_service.py:135-140 | every row with the id gets the new type, category, colour and image; the others are kept |
| ClothDbService.InsertCloth | backend-flask/app/cloth/db_service.py:119-154 | an error returns `None` and changes nothing; otherwise the returned row is in the table with the cleaned name and fields and the image, and the table is the upsert by name |
| ClothDbService.Upsert | backend-flask/app/cloth/db_service.py:130-151 | an existing name updates that row in place and keeps the table size; a new name appends one row with the new id and no styles |
| ClothDbService.Ids | backend-flask/app/cloth/db_service.py:134 | the ids of the table, position by position |
| ClothDbService.InsertClothTwice | backend-flask/app/cloth/db_service.py:119-151 | repeating the same insert leaves the table as the first call made it |
| ClothDbService.UpsertTwice | backend-flask/app/cloth/db_service.py:130-151 | a second upsert of the same cleaned fields changes nothing |
| ClothDbService.PyInt | backend-flask/app/cloth/db_service.py:168 | `int()` succeeds only on text that is not blank |
| ClothDbService.PyIntOfIntToString | backend-flask/app/cloth/db_service.py:168 | an id sent as its decimal text is read back as the same number |
| ClothDbService.PartitionedFailureSticks | backend-flask/app/cloth/db_service.py:166-168 | once an `int()` has raised the whole update fails |
| ClothDbService.PartitionStyles | backend-flask/app/cloth/db_service.py:163-170 | the loop yields the partition of the styles, or fails where an `int()` raises |
| ClothDbService.PartitionShape | backend-flask/app/cloth/db_service.py:166-170 | every style lands in at most one list, and the new names are already clean |
| ClothDbService.PartitionKnownIds | backend-flask/app/cloth/db_service.py:166-168 | styles that all carry numeric ids give exactly those ids in order and no new names |
| ClothDbService.RowIds | backend-flask/app/cloth/db_service.py:176 | the ids of the tag rows, position by position |
| ClothDbService.UpdateCloth | backend-flask/app/cloth/db_service.py:158-195 | a failing `int()` gives `success: False` with no RPC; otherwise the RPC gets the cloth id, name, colour and type, and the existing ids followed by the ids of the rows the tag call returned (none when it failed); success is whether the RPC raised |
| ClothDbService.TagFailureDropsNewStyles | backend-flask/app/cloth/db_service.py:173-176 | when the tag call fails the RPC still runs, successfully, with only the existing ids |
| ClothDbService.WithoutId | backend-flask/app/cloth/db_service.py:205 | a row is kept exactly when its id differs |
| ClothDbService.DeleteCloth | backend-flask/app/cloth/db_service.py:199-208 | the rows with the id go, and the result is true exactly when one existed; otherwise the table is unchanged |
| ClothDbService.DeleteTwice | backend-flask/app/cloth/db_service.py:199-208 | a second delete of the same id reports nothing deleted |
| ClothRoutes.GuardedAsWritten | backend-flask/app/auth/auth_utils.py:27 | as written a route answers the guard's 401 when it refuses, and otherwise Flask's 500: the `user_id` keyword raises before any handler runs |
| ClothRoutes.Guarded | backend-flask/app/auth/auth_utils.py:16-27 | the intended route: the guard's refusal as a 401 with its message, otherwise exactly the handler's reply |
| ClothRoutes.AsWrittenOnlyRefuses | backend-flask/app/auth/auth_utils.py:27 | for every header, decoder and handler reply, a route as written answers only 401 or 500, 500 exactly when the guard lets the request through, and it agrees with the intended route exactly when the guard refuses or the handler itself ends in Flask's 500 |
| ClothRoutes.ValidTokenGetWardrobe | backend-flask/app/cloth/routes.py:18-30 | `GET /clothes` with a valid Bearer token and no arguments answers 500 as written and the first three matching rows as intended |
| ClothRoutes.CategoryFilter | backend-flask/app/cloth/routes.py:21-28 | no filter exactly when the lower-cased type is "" or "all"; otherwise that lower-cased, non-empty category |
| ClothRoutes.IntArg | backend-flask/app/cloth/routes.py:22-23 | an absent argument takes its default; a present one is whatever `int()` makes of it |
| ClothRoutes.GetWardrobe | backend-flask/app/cloth/routes.py:20-30 | the handler body, reached only by the intended route: 200 exactly when both numeric arguments parse, with the page of the filtered wardrobe; otherwise Flask's 500 |
| ClothRoutes.DefaultQuery | backend-flask/app/cloth/routes.py:21-26 | the handler body with no arguments answers the first three matching rows of the whole wardrobe |
| ClothRoutes.TypeCaseInsensitive | backend-flask/app/cloth/routes.py:21 | the handler body treats the type argument case-insensitively |
| ClothRoutes.AllMeansEverything | backend-flask/app/cloth/routes.py:25-26 | in the handler body "all" in any case, and the empty type, mean no filter |
| ClothRoutes.InsertUpdateCloth | backend-flask/app/cloth/routes.py:35-44 | the handler body: 201 with the row exactly when the service returns one; `None` is 500 "Insert failed"; an exception is 500 with its message |
| ClothRoutes.UpdateClothImage | backend-flask/app/cloth/routes.py:51-63 | the handler body: a missing or empty URL is 400; 200 with the URL exactly when the update returns true; false and an exception are 500s with their messages |
| ClothRoutes.RandomClothes | backend-flask/app/cloth/routes.py:68-74 | the handler body: 200 with whatever the service returned, `null` included, exactly when it did not raise; otherwise 500 with the message |
| ClothRoutes.StyleTags | backend-flask/app/cloth/routes.py:80-82 | the handler body always answers 200 with what the tag query returned |
| ClothRoutes.DeleteClothRoute | backend-flask/app/cloth/routes.py:88-101 | the handler body: id 0 is 400 and no call; an exception is 500 with the error; 200 removes the cloth exactly when one had the id; otherwise 404 with the table unchanged |
| ClothRoutes.DeleteRouteTwice | backend-flask/app/cloth/routes.py:93-95 | through the handler body, deleting the same cloth a second time is a 404 |
| WardrobeRoute.SelectedCategory | my-ootd/src/app/api/wardrobe/route.ts:7 | a missing or empty `type` becomes "all"; any other value is kept as given |
| WardrobeRoute.QueryFilter | my-ootd/src/app/api/wardrobe/route.ts:30-33 | no filter exactly when the lower-cased category is "all"; otherwise that lower-cased category |
| WardrobeRoute.PayloadStyles | my-ootd/src/app/api/wardrobe/route.ts:49-51 | null links give no styles; every non-empty style name of the links is listed, and only those |
| WardrobeRoute.NonEmptyNames | my-ootd/src/app/api/wardrobe/route.ts:50-51 | every non-empty style name of the links is listed and each listed name is one of them |
| WardrobeRoute.NonEmptyNamesAppend | my-ootd/src/app/api/wardrobe/route.ts:50-51 | the names of two runs of links joined are the first run's names followed by the second's: link order is kept |
| WardrobeRoute.ToPayload | my-ootd/src/app/api/wardrobe/route.ts:43-53 | the payload item keeps the row's id, name, type, colour, category and image and lists its style names |
| WardrobeRoute.ToPayloads | my-ootd/src/app/api/wardrobe/route.ts:43 | one payload item per row, in order |
| WardrobeRoute.Get | my-ootd/src/app/api/wardrobe/route.ts:4-58 | a query error is a 500 with its message; otherwise the payload of the returned rows, empty when the data is null |
| WardrobeRoute.MissingTypeIsAll | my-ootd/src/app/api/wardrobe/route.ts:7-31 | without a type, or with an empty one, the whole wardrobe is asked for |
| WardrobeRoute.InCategory | my-ootd/src/app/api/wardrobe/route.ts:32 | a row is returned exactly when it has the filtered category, or when there is no filter |
| WardrobeRoute.FilteredPayload | my-ootd/src/app/api/wardrobe/route.ts:31-53 | against such a database every returned item is in the lower-cased category asked for |
| WardrobeRoute.ProjectionsAgree | my-ootd/src/app/api/wardrobe/route.ts:49-51 | where every link has a non-empty style name, this payload and the Flask projection list the same names (also backend-flask/app/cloth/db_service.py:37) |
| WardrobeRoute.ProjectionsRelate | my-ootd/src/app/api/wardrobe/route.ts:49-51 | for any links, the payload's names are the Flask projection's names with the null and empty ones dropped, in order (also backend-flask/app/cloth/db_service.py:37) |
| WardrobeRoute.EmptyNameDropped | my-ootd/src/app/api/wardrobe/route.ts:51 | a style whose name is empty is dropped here and kept by the Flask projection (also backend-flask/app/cloth/db_service.py:37) |

## Left out

- Network, cookies and JSON: each request's response is a parameter. So are the parsed body, the Supabase answers and the RPC outcomes. JSON key order is taken as the order of the modelled sequence.
- JWT encoding, signing and verification: decoding is a parameter returning the claims, or an expired or invalid result.
- bcrypt: hashing and the password check are parameters. The login route calls `bcrypt.verify`, which the bcrypt package does not have (see Findings); `AuthRoutes.Login` uses a working check in its place.
- Clocks, `uuid4` and `Date.now()` are parameters. So are the new row ids the database assigns.
- Floating point: embeddings are opaque vectors, the cosine similarity is an integer score given as a parameter, and the norms array is not modelled.
- Rendering, styling, animation and modals' markup. The React render cycle is modelled only as far as the Galleries need it: effects are methods that the hooks call, `useEffect` dependency lists are explicit conditions, and effects of one commit see that commit's state (the extra request after a category change).
- The single-flight coordinator is modelled as a sequence of events. Interleavings inside one JavaScript turn are not modelled.
- Text handling:
  - Lower-casing covers ASCII letters only.
  - `str.isalpha` and `str.isdigit` cover code points up to U+00FF only.
  - NFKD and NFC normalisation are taken as the identity. The combining marks removed by `sanitizeFileName` are those of the U+0300–U+036F block.
  - Python's `int()` is modelled without underscores and non-ASCII digits.
- `insert_cloth_with_styles_embedding` and `update_cloth_url` are not part of this model. The POST and image routes take their outcomes as parameters.
- The `get_all_items`, `fetch_style_tags`, `get_random_items` and `insert_cloth_style_relation` queries are opaque: the routes take their results as parameters.
- The query engine behind `range`, `eq` and the `!inner` joins is modelled only as filtering and windowing of a row sequence.
- `request.json` being null, and the crashes that follow from it, are left out.
- The signup page's success path (state setters and navigation after a successful call) is left out; the validation chain, the trimming and the call are modelled.
- The older `clothes.ts` calls `apiClient.put` and `apiClient.delete`, which the older `ApiClient` does not define. Only `normalizeRecommendations`, `fetchRecommendations` and the page path are modelled.
- The older Gallery's `fetchMoreData` helper is not part of this model; its answer is a parameter.
- The `print` and `log_memory` diagnostics are left out.
- The LLM request in `ask_openrouter_for_outfit` (lines 60-75) is left out: only the prompt is modelled.
- OotdAddClothForm: the clothing type list is an input. `my-ootd/src/app/closet/AddClothForm.tsx:13` imports `clothingTypes` from `./Gallery`, which has only a default export (`my-ootd/src/app/closet/Gallery.tsx:12`), so line 38 would fail when the form is first rendered.
- StyleTags.ToNumber: JavaScript's `Number` is modelled for decimal digit strings, with JavaScript white space around them ignored; signs, decimal points, exponents and hexadecimal forms give NaN here instead of a number.
- Wardrobe.Recommend: `sort` with the comparator of `my-ootd/src/app/dashboard/Wardrobe.tsx:64-66`, which never answers 1, is taken as a stable colour-first order; `Wardrobe.AnyOrderTakeSafe` states what holds for any order the engine leaves.
- FrontendAddClothForm.Plan: the `uploadedFilePath` cleanup variable, the `pendingId` stamp, the loading flag and the alerts are left out; none of them changes a call.
- FrontendAddClothForm: `frontend/src/app/closet/AddClothForm.tsx:6-11` imports `addCloth`, `addClothStylesRelation` and `addStyleTags` from `@/utils/api/clothes`, but `frontend/src/utils/api/clothes.ts` exports none of the three (its exports, lines 5-44, are the page, style-tag, random, recommendation, image-update, delete and upsert calls). Their answers are parameters here, as if the helpers existed.
- OotdAddClothForm.Plan: the loading flag, the alerts, the `console` output and the `onClose` call on success are left out; none of them changes a call.
- AuthRoutes.Login: the refresh-token insert is taken to succeed. The code sends `expires_at` as a raw `datetime` (`backend-flask/app/auth/routes.py:141`), which a JSON body cannot carry, so even with a working password check the route would likely still answer 500; the model takes the ISO text that signup sends (see Findings).
- ClothRoutes.GetWardrobe: stated of the handler body, which only the intended route `ClothRoutes.Guarded` reaches; as written every request the guard lets through answers 500 (`ClothRoutes.GuardedAsWritten`, see Findings).
- ClothRoutes.InsertUpdateCloth: stated of the handler body, which only the intended route `ClothRoutes.Guarded` reaches; as written every request the guard lets through answers 500 (`ClothRoutes.GuardedAsWritten`, see Findings).
- ClothRoutes.UpdateClothImage: stated of the handler body, which only the intended route `ClothRoutes.Guarded` reaches; as written every request the guard lets through answers 500 (`ClothRoutes.GuardedAsWritten`, see Findings).
- ClothRoutes.RandomClothes: stated of the handler body, which only the intended route `ClothRoutes.Guarded` reaches; as written every request the guard lets through answers 500 (`ClothRoutes.GuardedAsWritten`, see Findings).
- ClothRoutes.StyleTags: stated of the handler body, which only the intended route `ClothRoutes.Guarded` reaches; as written every request the guard lets through answers 500 (`ClothRoutes.GuardedAsWritten`, see Findings).
- ClothRoutes.DeleteClothRoute: stated of the handler body, which only the intended route `ClothRoutes.Guarded` reaches; as written every request the guard lets through answers 500 (`ClothRoutes.GuardedAsWritten`, see Findings).
- ClothRoutes.DefaultQuery: stated of the handler body, which only the intended route `ClothRoutes.Guarded` reaches; as written every request the guard lets through answers 500 (`ClothRoutes.GuardedAsWritten`, see Findings).
- ClothRoutes.TypeCaseInsensitive: stated of the handler body, which only the intended route `ClothRoutes.Guarded` reaches; as written every request the guard lets through answers 500 (`ClothRoutes.GuardedAsWritten`, see Findings).
- ClothRoutes.AllMeansEverything: stated of the handler body, which only the intended route `ClothRoutes.Guarded` reaches; as written every request the guard lets through answers 500 (`ClothRoutes.GuardedAsWritten`, see Findings).
- ClothRoutes.DeleteRouteTwice: stated of the handler body, which only the intended route `ClothRoutes.Guarded` reaches; as written every request the guard lets through answers 500 (`ClothRoutes.GuardedAsWritten`, see Findings).
- FrontendGallery.Gallery.InitialResponse: a null first-page body is left out. `setFetchItems(null)` runs before `data.length` throws (`frontend/src/app/closet/Gallery.tsx:76-78`), so the list would become null and the loader stays on; a rejected fetch is `FrontendGallery.Gallery.FetchRejected`.
- Carousel.RandomCloset: the `pointer-events-none` container of both `RandomCloset` components drops clicks while a recommendation loads; the model's handlers stand for the clicks that reach them.
- AuthRoutes.Signup: `created_at` is stamped with the request time, like the corrected expiry; the code writes the module-load instant there too (see Findings).

## Findings

| source | as written | input that shows it | evidently intended | confidence | as-written member | corrected member |
|---|---|---|---|---|---|---|
| backend-flask/app/auth/routes.py:13 | `nowUTC` is evaluated once, when the module loads, and every access, refresh and `created_at` time is that instant plus the lifetime | a login 20 minutes after the server started gets an access token that expired 5 minutes before it was issued | each token expires its lifetime after the request that issues it | not executed | AuthRoutes.ExpiryAsWritten | AuthRoutes.Expiry |
| backend-flask/app/auth/routes.py:119 | the password is checked with `bcrypt.verify`, and the `bcrypt` package has no `verify` | a login with the email and password of an account just created: the attribute lookup raises and the request ends in a 500 | `bcrypt.checkpw(password.encode(), hash.encode())`; the same route also needs `expires_at` sent as `.isoformat()` text at line 141, as signup does at line 92 | not executed | AuthRoutes.LoginAsWritten | AuthRoutes.Login |
| backend-flask/app/auth/auth_utils.py:27 | `token_required` calls the handler as `f(user_id=user_id, *args, **kwargs)`, and none of the `/clothes` handlers (backend-flask/app/cloth/routes.py:20, 35, 51, 68, 80, 88) takes `user_id` | `GET /clothes` with a valid Bearer token: the call raises `TypeError` and Flask answers 500 | handlers that accept the user id, so a request the guard lets through reaches the handler | not executed | ClothRoutes.GuardedAsWritten | ClothRoutes.Guarded |

`AuthRoutes.StaleExpiry` proves that with the expiry as written, once the
server has run for one access lifetime, every access token is already expired
when it is issued. `AuthRoutes.StaleExpiryExample` gives the concrete login
above. `AuthRoutes.FreshExpiry` proves that the corrected expiry keeps a token
valid for its whole first 15 minutes. The corrected expiry is the one that
signup, login and refresh use in this model.
`AuthRoutes.NoLoginAsWritten` proves that the account a successful signup
creates gets a 500 from the login as written and a 200 from `AuthRoutes.Login`.
`ClothRoutes.AsWrittenOnlyRefuses` proves that as written no `/clothes` route
answers anything but 401 or 500, and `ClothRoutes.ValidTokenGetWardrobe` gives
the concrete request above with its intended 200. The `ClothRoutes` handler
functions are the bodies the intended route reaches.

Other behaviours the proofs bring out, which look deliberate or harmless
rather than wrong:

- `AuthRoutes.LoginExposesHash`: the login response includes the stored password hash.
- `AuthUtils.GuardsDisagreeOnSpaces`: the two token decorators read a header with two spaces differently.
- `Signup.AstralPasswordSplitsRules`: outside ASCII the page's and the server's password rules disagree.
- `ClothDbService.TagFailureDropsNewStyles`: a failed tag upsert silently drops the new styles from an update.
- `OotdAddClothForm.CaseSensitiveDuplicate`: the older form adds "Casual" beside "casual".
- `OotdAuth.SecondRefreshOnNavigation`: the older rehydration can start a second refresh on navigation.
- `WardrobeRoute.EmptyNameDropped`: the Next.js endpoint drops empty style names that the Flask projection keeps.
