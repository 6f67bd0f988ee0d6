# Storefront listing proxy — a verified model

The modelled service is a small HTTP layer in front of a remote product catalog (a Shopify
store). Storefront users list their own properties through it. It has four handlers:

- `POST /create-product` validates the form and looks up the caller's customer record to
  decide whether the caller is *private* or *public*. It counts the caller's existing products
  and refuses a private caller who already holds two. Otherwise it creates the product, stamped
  with the owner tag `storefront_user_id:<id>` and three metafields, and uploads the attached
  images to it.
- `PUT /update-product/:product_id` fetches the product and checks ownership through its tag
  string. It writes the new title, description and price and re-stamps the owner tag. When
  the request carries files, it then replaces the images: it deletes every old image and
  uploads the new files.
- `GET /products/:storefront_user_id` lists the caller's products in catalog order. Each comes
  with its metafields, or none when their fetch fails.
- `DELETE /remove-product/:product_id` removes a product the caller owns.

A remote failure that reaches a handler's `catch` is answered with 500. The body is the
remote error payload when there is a non-empty one, and otherwise "Something went wrong".
There are two exceptions:
- A failed image upload is rethrown as a plain `Error`, so it loses its payload and always
  answers "Something went wrong" (`server.js:56-58`, `server.js:156`).
- A failed metafield fetch in the list handler is caught for that one product, whose
  metafields become `[]`; the list still answers 200 (`server.js:275-277`, `server.js:282`).

## How the model is organised

- `strings.dfy` (module `Strings`) defines JavaScript's `String.prototype.includes`. It is a
  scanning definition, proved equal to "occurs at some index". Ownership and the tier rule are
  both built on it.
- `listings.dfy` (module `Listings`) holds the data model and the pure rules:
  - request validation (JavaScript truthiness of form fields);
  - the tier rule and the ownership codec;
  - the quota and the per-user filter;
  - the `catch` error mapping and the product bodies the handlers send;
  - the image bookkeeping of the concurrent upload and delete groups;
  - the well-formedness invariant of the remote catalog.
- `catalog.dfy` (module `Server`) holds the handlers.
  - Each handler's read-only prefix is a function. It returns the response the handler stops
    with, or `None` when the handler goes on to change the catalog: `CreateRefusal`,
    `UpdateRefusal`, `RemoveRefusal`.
  - The class `Catalog` stands in for the remote store's state: products by id, catalog
    order, customers by email, and the next product and image ids.
  - Its methods are the handlers and the remote mutations they trigger. Each state-changing
    method states every field of the new state in terms of the specification functions above.

The model's own conventions:

- **Faults.** Whether a remote call fails, and how, is an input (`Faults`). The model covers
  each single call, each upload by file index, each image deletion by image id, and each
  metafield fetch by product id.
- **Concurrent groups.** A `Promise.all` group runs as a loop over all its elements in order,
  and no sibling is ever cancelled. The group fails if any element fails.
- **Image sources.** An uploaded image's `src` is modelled as the uploaded file's name, since
  the remote's URL assignment is outside the model.
- **Temporary files.** They are unlinked only after a whole upload group succeeds
  (`server.js:151`, `server.js:230`). File I/O is outside the model.
- **Unknown product id.** Fetching an unknown product throws a remote error. The model gives
  it the payload `Not Found` (500), because the code has no 404 path.
- **`size` and `baths`.** A missing value throws a `TypeError` (`undefined.toString()`) after
  the quota check and before anything is created. The handler then answers 500 "Something
  went wrong"; the model covers this.
- **Absent `body_html` on update.** JSON serialisation drops it, so the old description
  stays.

## Model

| member | source | states |
|---|---|---|
| Strings.Includes | server.js:95 | the `includes` test on strings used for ownership (also at lines 183, 257, 312) and for the tier; its meaning is given by `Strings.IncludesIff` |
| Listings.Truthy | server.js:69 | a form field passes the guard when it was sent and is not the empty string (JavaScript truthiness) |
| Listings.HasRequired | server.js:168 | the create and update guard (also line 69): title, price and caller id are all truthy |
| Listings.Lookup | server.js:82 | the first customer record the search by email returns, or none |
| Listings.TierOf | server.js:83 | private exactly when the record exists, has a note, and the note includes the private marker; see `Listings.TierIff` and `Listings.NoNoteIsPublic` |
| Listings.OwnerTag | server.js:111 | the tag `storefront_user_id:<id>` stamped on create (and re-stamped on update at line 195) |
| Listings.Owns | server.js:95 | the ownership test: the tag string includes the caller's owner tag (also lines 183, 257, 312); see `Listings.OwnsIff` |
| Listings.QuotaReached | server.js:99 | the quota refuses exactly a private caller who already owns two products or more |
| Listings.CreateMetafields | server.js:112-131 | the three metafields of a new listing: `size` and `baths` as single-line text, the raw `bedrooms` field, typed `number_integer` |
| Listings.Edited | server.js:188-197 | the fields the update's PUT writes, applied to the fetched product; its properties are `Listings.EditedIsOwned` |
| Server.EditOf | server.js:188-197 | `Listings.Edited` applied to the update request's title, description, price and caller id |
| Listings.View | server.js:271-277 | one entry of the list response: the product's listed fields with its metafields, or `[]` when their fetch failed |
| Listings.Attached | server.js:147 | the images an upload group attaches: one per successful file, in file order, with fresh ids; its properties are `Listings.AttachedIds`, `Listings.AttachedAll` and `Listings.AttachedSurvivors` |
| Listings.Kept | server.js:210-220 | the old images a delete group leaves: those whose deletion failed, in their old order; see `Listings.KeptMembers` |
| Listings.Without | server.js:213-218 | the images after one remote image deletion; see `Listings.WithoutMembers` |
| Strings.IncludesIff | server.js:94-96 | `s.includes(t)` holds exactly when `t` occurs in `s` at some index (both directions) |
| Strings.IncludesLength | server.js:95 | nothing longer than `s` is included in `s` |
| Strings.SameLengthIncludes | server.js:95 | between strings of equal length, inclusion is equality |
| Listings.TierIff | server.js:82-83 | a customer with a note is private exactly when `user_type:private` occurs somewhere in the note |
| Listings.NoNoteIsPublic | server.js:82-83 | a caller the search does not find, or whose record has no note, is public |
| Listings.PrivateMarkerAnywhere | server.js:83 | the marker makes the caller private whatever text surrounds it |
| Listings.ShortNoteIsPublic | server.js:83 | a note shorter than the marker never makes the caller private |
| Listings.OwnsIff | server.js:94-96 | a tag string grants ownership exactly when the owner tag occurs in it at some position |
| Listings.StampedIsOwned | server.js:111 | the tag the create handler stamps grants ownership to its creator |
| Listings.OwnedAmongOtherTags | server.js:94-96 | the owner tag still grants ownership among other tags |
| Listings.PrefixCallerOwns | server.js:183-185 | substring semantics: a caller whose id is a prefix of the owner's id passes the ownership check |
| Listings.SameLengthOwnerIsExact | server.js:311-314 | for ids of equal length the ownership check is exact: owner and caller must be equal |
| Listings.StampExcludesLongerIds | server.js:195 | a tag stamped for `user` grants nothing to an id that extends `user` |
| Listings.OwnedIds | server.js:94-96 | the per-user filter keeps exactly the listed ids whose product the user owns, and is no longer than the catalog listing |
| Listings.OwnedIdsAppend | server.js:256-258 | the filter keeps catalog order: filtering a concatenation concatenates the filtered parts |
| Listings.OwnedIdsAfterCreate | server.js:104-111 | creating a product appends its id to the list of every user its tags grant ownership to, and leaves every other user's list as it was. Because ownership is a substring test, ids that are prefixes of the creator's id gain the product too (`Listings.PrefixCallerOwns`) |
| Listings.Erase | server.js:317-322 | removing an id from the catalog order keeps every other id and no more |
| Listings.OwnedIdsAfterRemove | server.js:317-322 | after a product is removed, every user's list loses that id and nothing else |
| Listings.ServerError | server.js:156 | the answer of every handler's `catch` (also lines 235, 284, 326): status 500 with `ErrorText` of the error as its body |
| Listings.ErrorText | server.js:155-157 | the `catch` answer is never empty. It is the remote error payload whenever the remote sent a non-empty one, otherwise "Something went wrong". A plain `Error` always gives the latter |
| Listings.Srcs | server.js:148 | the image sources, one per image, in order |
| Listings.Shape | server.js:148 | the response's image refs, one per URL, in order |
| Listings.AttachedIds | server.js:147 | the images an upload group attaches number at most the files and carry consecutive fresh ids |
| Listings.AttachedAll | server.js:147 | with no failing upload, the attached images are the uploaded files in file order |
| Listings.AttachedSurvivors | server.js:147 | a failing upload never cancels its siblings: every successful file's image is attached |
| Listings.AttachedFromSurvivors | server.js:147 | conversely, every attached image comes from a file whose upload succeeded |
| Listings.KeptMembers | server.js:210-220 | after the delete group, exactly the old images whose deletion failed remain |
| Listings.KeptNothingWhenAllDeleted | server.js:210-220 | when every deletion succeeds, no old image remains |
| Listings.WithoutMembers | server.js:213-218 | one remote image deletion removes exactly the images carrying that id |
| Listings.KeepStep | server.js:213-218 | a failed deletion leaves its image in place and changes nothing else |
| Listings.DetachStep | server.js:211-219 | a successful deletion inside the group removes exactly that image and keeps the order of the rest |
| Listings.NewListing | server.js:104-133 | the create body is built exactly when `size` and `baths` were sent. Its tag string is exactly the caller's owner tag; its title, price and description are the request's; it has the three metafields and no images. Otherwise the thrown `TypeError` maps to "Something went wrong" |
| Listings.EditedIsOwned | server.js:188-197 | after the update's PUT the tag string is exactly the caller's owner tag, so the caller owns the product whatever its tags were. Title and price are the request's; the description changes only when one was sent. Images and metafields are untouched |
| Listings.PrefixCallerTakesOver | server.js:183-197 | a caller whose id is a proper prefix of the owner's id passes the check, and the re-stamp then locks the real owner out |
| Server.CreateRefusal | server.js:65-157 | the create handler answers 400 exactly when a required field is missing; 403 (the quota message) exactly when the quota rule refuses. A failed customer search, then product index, then product creation answers the 500 of that call's own error, in that order of precedence. Every refusal is 400, 403 or 500, and it goes on exactly when `CreateGoesAhead` holds |
| Server.PublicNeverOverQuota | server.js:98-101 | a public caller is never refused on quota, however many products it owns |
| Server.MissingAttributeIsGeneric500 | server.js:112-131 | past the quota check, a missing `size` or `baths` answers 500 "Something went wrong" |
| Server.UpdateRefusal | server.js:163-235 | the update handler answers 400 exactly when a field is missing. A failed fetch answers the 500 of the fetch's error, and an unknown id the remote's 500. It answers 403 exactly when the caller fails the ownership check. Past that check, a failed PUT answers the 500 of the PUT's error. It goes on exactly when the PUT is saved (`UpdateSaved`) |
| Server.RemoveRefusal | server.js:292-327 | the delete handler answers 400 exactly when no caller id was sent. A failed fetch answers the 500 of the fetch's error, and an unknown id the remote's 500. It answers 403 exactly when the caller fails the ownership check. Past that check, a failed DELETE answers the 500 of the DELETE's error. It deletes exactly when `RemoveGoesAhead` holds |
| Server.Catalog.UploadImage | server.js:33-60 | one upload either attaches the file under the next fresh image id and returns its src, or changes nothing and throws the plain "Failed to upload image to Shopify." |
| Server.Catalog.UploadNext | server.js:147 | one upload of the group advances the group's progress from `files[..i]` to `files[..i+1]` |
| Server.Catalog.UploadEach | server.js:147 | after the loop the product carries its old images plus `Attached` for all files; with no failure every file succeeded, in order; otherwise some file failed |
| Server.Catalog.UploadAll | server.js:147 | the group succeeds exactly when no upload fails, returning the files' srcs in order; otherwise it throws the plain upload error; either way the successful uploads stay attached |
| Server.Catalog.DeleteImage | server.js:213-218 | one image deletion either removes that image from the product or fails and changes nothing |
| Server.Catalog.DeleteNext | server.js:211-219 | one deletion of the group advances the settled prefix of old images by one |
| Server.Catalog.DeleteEach | server.js:210-220 | after the loop the product keeps exactly the old images whose deletion failed; on failure the error is a failing image's |
| Server.Catalog.DeleteImages | server.js:210-220 | the group succeeds exactly when every deletion does; otherwise its error is one failing deletion's error; either way the product keeps exactly `Kept` of its old images |
| Server.Catalog.Insert | server.js:104-142 | the remote creates the product under a fresh id, appended to the catalog order |
| Server.Catalog.Save | server.js:188-204 | the remote PUT replaces product `id`'s fields; it keeps its images and changes no other product |
| Server.Catalog.Publish | server.js:142-154 | after creation: the new product carries the attached images, and the image counter has advanced by their number; 201 with the files' image refs when every upload succeeds, otherwise 500 "Something went wrong" |
| Server.Catalog.Create | server.js:65-158 | a refusal leaves the catalog untouched and answers `CreateRefusal`. Otherwise exactly one product is created: owned by the caller, listed last, carrying the uploaded images, and added to the end of the list of every user its tag grants ownership to, the caller included. Every other list is unchanged. Answers 201 with the images, or 500 when an upload failed |
| Server.Catalog.Reimage | server.js:207-233 | when files are sent: if a deletion fails, the surviving old images stay and the answer is that failure's 500; otherwise the product carries exactly the newly attached images, answering 200 with them or 500 when an upload failed |
| Server.Catalog.Update | server.js:163-237 | a refusal changes nothing and answers `UpdateRefusal`. Otherwise the product takes the edited fields and the caller owns it. With no files it keeps its images (200); with files, images are replaced as `Reimage` states |
| Server.Catalog.ListByUser | server.js:243-286 | a failed index answers the remote's 500; otherwise 200 with exactly the caller's products in catalog order, each with its metafields, or none when their fetch failed |
| Server.Catalog.Remove | server.js:292-328 | a refusal changes nothing and answers `RemoveRefusal`. Otherwise the product and its id are gone, every user's list loses exactly that id, and the answer is 200 |

## Left out

- Express routing, CORS, multer's multipart decoding and `dotenv` are left out. So is the
  listening socket (`server.js:1-24`, `server.js:330-332`). They are the framework around
  the handlers.
- HTTP transport, headers and access tokens are left out. A remote call is modelled only by
  its effect on the catalog and by the fault it may raise.
- Reading the temporary file, base64 encoding and `fs.unlinkSync` are left out. They are
  local file I/O. The uploaded file is modelled by its name.
- Real concurrency is left out: interleaving inside a `Promise.all` group, and races between
  requests. This includes the quota's check-then-act race between two concurrent creations.
  The model runs each group in order and each request on its own.
- `Promise.all` rejects with the first rejection in time. The model reports the first
  failure in element order.
- The remote assigns ids, URLs and list order. The model uses consecutive ids, the file name
  as `src`, and creation order for listing.
- Pagination is left out. The remote's default page size means the index calls see only the
  first page; the model's index returns the whole catalog.
- Customer search is modelled as an exact lookup by email. The remote's query semantics are
  not modelled.
- `parseInt(bedrooms)` is left out. The model keeps the raw field, and metafield types are
  not validated.
- `console.error` logging is left out; it is a side effect only.
- `product.variants[0]` on update assumes the product has a variant. Remote products always
  have one, so the model keeps a single price per product.
- Server.Catalog.ListByUser: the list response keeps the product's title, price, tags and
  images. The remote field projection (`fields=id,title,variants,tags,images`) is modelled
  only by these fields.
