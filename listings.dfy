/**
 * The values the listing proxy works with, and the pure rules its handlers apply:
 * request validation, tier derivation, the tag-based ownership codec, the quota,
 * the per-user filter over the catalog, and the image bookkeeping of the
 * upload and delete groups.
 */
module Listings {
  import opened Strings

  datatype Option<T> = None | Some(value: T)

  // ---------------------------------------------------------------- data model

  /** A metafield value; `Integer` holds the raw form field that `parseInt` is applied to. */
  datatype MetaValue = Line(text: string) | Integer(raw: Option<string>)

  datatype Metafield = Metafield(namespace: string, key: string, value: MetaValue, kind: string)

  /** An image attached to a product; `src` is the remote copy of the uploaded file. */
  datatype Image = Image(id: nat, src: string)

  /** A catalog product with its first variant's price and its tag string. */
  datatype Product = Product(
    title: string,
    body: Option<string>,
    price: string,
    tags: string,
    images: seq<Image>,
    metafields: seq<Metafield>)

  /** A customer record of the identity store; only its free-text note matters. */
  datatype Customer = Customer(note: Option<string>)

  datatype Tier = Public | Private

  /** Form fields of a create request; `None` is a field the client did not send. */
  datatype CreateRequest = CreateRequest(
    title: Option<string>,
    bodyHtml: Option<string>,
    price: Option<string>,
    user: Option<string>,
    size: Option<string>,
    bedrooms: Option<string>,
    baths: Option<string>)

  datatype UpdateRequest = UpdateRequest(
    title: Option<string>,
    bodyHtml: Option<string>,
    price: Option<string>,
    user: Option<string>)

  // ---------------------------------------------------------------- failures

  /** How a remote call fails: with an API error payload, or with no response at all. */
  datatype Failure = ApiError(payload: string) | NoResponse

  /** What a handler's `catch` receives: a remote call's error, or a plain `Error`. */
  datatype Thrown = Remote(failure: Failure) | Plain(message: string)

  datatype Outcome<T> = Ok(value: T) | Threw(error: Thrown)

  /** The single remote calls a handler may issue. */
  datatype Call = CustomerSearch | ProductIndex | ProductCreate | ProductFetch | ProductSave | ProductDelete

  /**
   * The remote outcomes of one request, given up front: which single calls fail and how,
   * which uploads fail (by file index), which image deletions fail (by image id) and whose
   * metafield fetch fails (by product id).
   */
  datatype Faults = Faults(
    calls: map<Call, Failure>,
    uploads: map<nat, Failure>,
    imageDeletes: map<nat, Failure>,
    metafields: set<nat>)

  // ---------------------------------------------------------------- responses

  datatype ImageRef = ImageRef(src: string)

  /** A product as the list handler returns it: the projected fields plus its metafields. */
  datatype Listed = Listed(
    id: nat,
    title: string,
    price: string,
    tags: string,
    images: seq<Image>,
    metafields: seq<Metafield>)

  datatype Body =
    | ErrorBody(error: string)
    | ProductCreated(message: string, productId: nat, images: seq<ImageRef>)
    | ProductUpdated(message: string, productId: nat, images: seq<ImageRef>)
    | ProductList(products: seq<Listed>)
    | ProductRemoved(message: string, productId: nat)

  datatype Response = Response(status: int, body: Body)

  const OwnerPrefix: string := "storefront_user_id:"
  const PrivateMarker: string := "user_type:private"
  const PrivateLimit: nat := 2

  const MissingFieldsCreate: string := "Missing required fields"
  const MissingFieldsUpdate: string := "Missing required fields."
  const MissingUserDelete: string := "Missing storefront_user_id in request body."
  const QuotaMessage: string := "Private users can only create up to 2 products."
  const NotOwnerUpdate: string := "You are not authorized to update this product."
  const NotOwnerDelete: string := "You are not authorized to delete this product."
  const GenericError: string := "Something went wrong"
  const UploadFailed: string := "Failed to upload image to Shopify."
  const ToStringOfUndefined: string := "Cannot read properties of undefined (reading 'toString')"
  const NotFound: string := "Not Found"
  const CreatedMessage: string := "Product created successfully"
  const UpdatedMessage: string := "Product updated successfully"
  const RemovedMessage: string := "Product removed successfully"

  // ---------------------------------------------------------------- validation

  /** JavaScript truthiness of a form field: sent and not the empty string. */
  predicate Truthy(field: Option<string>) {
    field.Some? && field.value != ""
  }

  /** The `!title || !price || !storefront_user_id` guard of create and update, negated. */
  predicate HasRequired(title: Option<string>, price: Option<string>, user: Option<string>) {
    Truthy(title) && Truthy(price) && Truthy(user)
  }

  // ---------------------------------------------------------------- identity and tier

  /** The first record of the customer search by email, if any. */
  function Lookup(customers: map<string, Customer>, email: string): Option<Customer> {
    if email in customers then Some(customers[email]) else None
  }

  /** A caller is private when its customer record has a note mentioning the private marker. */
  function TierOf(customer: Option<Customer>): Tier {
    if customer.Some? && customer.value.note.Some? && Includes(customer.value.note.value, PrivateMarker)
    then Private
    else Public
  }

  /** A caller with a note is private exactly when the marker occurs at some position of the note. */
  lemma TierIff(note: string)
    ensures TierOf(Some(Customer(Some(note)))) == Private <==> exists i :: OccursAt(note, PrivateMarker, i)
  {
    IncludesIff(note, PrivateMarker);
  }

  /** Callers the search does not find, and customers without a note, are public. */
  lemma NoNoteIsPublic(customer: Option<Customer>)
    requires customer.None? || customer.value.note.None?
    ensures TierOf(customer) == Public
  {
  }

  /** The marker makes a caller private wherever it stands in the note. */
  lemma PrivateMarkerAnywhere(before: string, after: string)
    ensures TierOf(Some(Customer(Some(before + PrivateMarker + after)))) == Private
  {
    IncludesInfix(before, PrivateMarker, after);
  }

  /** A note shorter than the marker can never make a caller private. */
  lemma ShortNoteIsPublic(note: string)
    requires |note| < |PrivateMarker|
    ensures TierOf(Some(Customer(Some(note)))) == Public
  {
    if Includes(note, PrivateMarker) {
      IncludesLength(note, PrivateMarker);
    }
  }

  // ---------------------------------------------------------------- ownership codec

  /** The tag a caller's products are stamped with. */
  function OwnerTag(user: string): string {
    OwnerPrefix + user
  }

  /** `tags.includes("storefront_user_id:" + user)`: a substring test, not a token match. */
  predicate Owns(tags: string, user: string) {
    Includes(tags, OwnerTag(user))
  }

  /** Ownership holds exactly when the owner tag occurs at some position of the tag string. */
  lemma OwnsIff(tags: string, user: string)
    ensures Owns(tags, user) <==> exists i :: OccursAt(tags, OwnerTag(user), i)
  {
    IncludesIff(tags, OwnerTag(user));
  }

  /** A product stamped for `user` is owned by `user`. */
  lemma StampedIsOwned(user: string)
    ensures Owns(OwnerTag(user), user)
  {
    IncludesSelf(OwnerTag(user));
  }

  /** The owner tag may sit among other tags. */
  lemma OwnedAmongOtherTags(before: string, user: string, after: string)
    ensures Owns(before + OwnerTag(user) + after, user)
  {
    IncludesInfix(before, OwnerTag(user), after);
  }

  /** Substring semantics: a caller whose id is a prefix of the owner's id owns the product too. */
  lemma PrefixCallerOwns(owner: string, suffix: string)
    ensures Owns(OwnerTag(owner + suffix), owner)
  {
    assert OwnerTag(owner + suffix) == OwnerTag(owner) + suffix + "";
    IncludesInfix("", OwnerTag(owner), suffix);
  }

  /** Between ids of equal length the stamped tag identifies exactly one owner. */
  lemma SameLengthOwnerIsExact(owner: string, caller: string)
    requires |owner| == |caller|
    ensures Owns(OwnerTag(owner), caller) <==> owner == caller
  {
    SameLengthIncludes(OwnerTag(owner), OwnerTag(caller));
    if OwnerTag(owner) == OwnerTag(caller) {
      assert owner == OwnerTag(owner)[|OwnerPrefix|..];
    }
  }

  /** A tag stamped for `user` is not owned by any longer id that extends it. */
  lemma StampExcludesLongerIds(user: string, suffix: string)
    requires suffix != ""
    ensures !Owns(OwnerTag(user), user + suffix)
  {
    if Owns(OwnerTag(user), user + suffix) {
      IncludesLength(OwnerTag(user), OwnerTag(user + suffix));
    }
  }

  // ---------------------------------------------------------------- quota

  /** The create handler's refusal rule: private callers may hold at most two products. */
  predicate QuotaReached(tier: Tier, owned: nat) {
    tier == Private && owned >= PrivateLimit
  }

  // ---------------------------------------------------------------- the per-user filter

  /** The ids of `order` whose product is owned by `user`, in catalog order. */
  function OwnedIds(order: seq<nat>, products: map<nat, Product>, user: string): (owned: seq<nat>)
    ensures |owned| <= |order|
    ensures forall id :: id in owned <==> id in order && id in products && Owns(products[id].tags, user)
  {
    if order == [] then []
    else
      var rest := OwnedIds(order[1..], products, user);
      if order[0] in products && Owns(products[order[0]].tags, user) then [order[0]] + rest else rest
  }

  /** The filter keeps catalog order: it distributes over concatenation. */
  lemma {:induction false} OwnedIdsAppend(a: seq<nat>, b: seq<nat>, products: map<nat, Product>, user: string)
    ensures OwnedIds(a + b, products, user) == OwnedIds(a, products, user) + OwnedIds(b, products, user)
  {
    if a == [] {
      assert a + b == b;
    } else {
      assert (a + b)[0] == a[0];
      assert (a + b)[1..] == a[1..] + b;
      OwnedIdsAppend(a[1..], b, products, user);
    }
  }

  /** A product outside `order` does not change who owns what in `order`. */
  lemma {:induction false} OwnedIdsIgnoresOthers(order: seq<nat>, products: map<nat, Product>, id: nat, p: Product, user: string)
    requires id !in order
    ensures OwnedIds(order, products[id := p], user) == OwnedIds(order, products, user)
  {
    if order != [] {
      OwnedIdsIgnoresOthers(order[1..], products, id, p, user);
    }
  }

  /**
   * Appending a fresh product adds its id to the end of the list of every user its tags grant
   * ownership to (with substring ownership, that includes ids that are prefixes of the owner's)
   * and leaves every other user's list as it was.
   */
  lemma OwnedIdsAfterCreate(order: seq<nat>, products: map<nat, Product>, id: nat, p: Product, user: string)
    requires id !in order
    ensures OwnedIds(order + [id], products[id := p], user) ==
              OwnedIds(order, products, user) + (if Owns(p.tags, user) then [id] else [])
  {
    OwnedIdsAppend(order, [id], products[id := p], user);
    OwnedIdsIgnoresOthers(order, products, id, p, user);
    assert [id][1..] == [];
  }

  /** `s` with every occurrence of `x` taken out, the rest in order. */
  function Erase(s: seq<nat>, x: nat): (r: seq<nat>)
    ensures forall y :: y in r <==> y in s && y != x
    ensures |r| <= |s|
  {
    if s == [] then [] else if s[0] == x then Erase(s[1..], x) else [s[0]] + Erase(s[1..], x)
  }

  predicate Distinct(s: seq<nat>) {
    forall j, k :: 0 <= j < k < |s| ==> s[j] != s[k]
  }

  lemma {:induction false} EraseKeepsDistinct(s: seq<nat>, x: nat)
    requires Distinct(s)
    ensures Distinct(Erase(s, x))
  {
    if s != [] {
      assert Distinct(s[1..]);
      EraseKeepsDistinct(s[1..], x);
      assert s[0] !in s[1..];
    }
  }

  /** Removing a product removes its id, and only its id, from every caller's list. */
  lemma {:induction false} OwnedIdsAfterRemove(order: seq<nat>, products: map<nat, Product>, id: nat, user: string)
    ensures OwnedIds(Erase(order, id), products - {id}, user) == Erase(OwnedIds(order, products, user), id)
  {
    if order != [] {
      OwnedIdsAfterRemove(order[1..], products, id, user);
    }
  }

  // ---------------------------------------------------------------- errors

  /**
   * The error text every `catch` answers with: the remote's error payload when it sent one
   * (an empty payload is falsy), otherwise the generic message.
   */
  function ErrorText(e: Thrown): (text: string)
    ensures text != ""
    ensures text == GenericError || e == Remote(ApiError(text))
    ensures e.Remote? && e.failure.ApiError? && e.failure.payload != "" ==> text == e.failure.payload
    ensures e.Plain? ==> text == GenericError
  {
    if e.Remote? && e.failure.ApiError? && e.failure.payload != "" then e.failure.payload else GenericError
  }

  /** The answer of every handler's `catch`: status 500 with the error text. */
  function ServerError(e: Thrown): Response {
    Response(500, ErrorBody(ErrorText(e)))
  }

  // ---------------------------------------------------------------- the upload group

  predicate AllUploaded(files: seq<string>, fails: map<nat, Failure>) {
    forall k :: 0 <= k < |files| ==> k !in fails
  }

  /**
   * The images that uploading `files[..n]` to a product attaches, when the remote hands out
   * image ids from `base` on; a failed upload attaches nothing and its siblings still run.
   */
  function Attached(files: seq<string>, fails: map<nat, Failure>, n: nat, base: nat): seq<Image>
    requires n <= |files|
    decreases n
  {
    if n == 0 then []
    else
      var before := Attached(files, fails, n - 1, base);
      if n - 1 in fails then before else before + [Image(base + |before|, files[n - 1])]
  }

  function Srcs(images: seq<Image>): (srcs: seq<string>)
    ensures |srcs| == |images|
    ensures forall k :: 0 <= k < |images| ==> srcs[k] == images[k].src
  {
    if images == [] then [] else [images[0].src] + Srcs(images[1..])
  }

  /** Attached images carry consecutive fresh ids and there are at most as many as files. */
  lemma {:induction false} AttachedIds(files: seq<string>, fails: map<nat, Failure>, n: nat, base: nat)
    requires n <= |files|
    ensures |Attached(files, fails, n, base)| <= n
    ensures forall k :: 0 <= k < |Attached(files, fails, n, base)| ==> Attached(files, fails, n, base)[k].id == base + k
  {
    if n > 0 {
      AttachedIds(files, fails, n - 1, base);
    }
  }

  /** With no failing upload, the attached images are the files themselves, in file order. */
  lemma {:induction false} AttachedAll(files: seq<string>, fails: map<nat, Failure>, n: nat, base: nat)
    requires n <= |files|
    requires forall k :: 0 <= k < n ==> k !in fails
    ensures Srcs(Attached(files, fails, n, base)) == files[..n]
  {
    if n > 0 {
      AttachedAll(files, fails, n - 1, base);
      assert files[..n] == files[..n - 1] + [files[n - 1]];
    }
  }

  /** Every file whose upload succeeds leaves its image behind, whatever its siblings do. */
  lemma {:induction false} AttachedSurvivors(files: seq<string>, fails: map<nat, Failure>, n: nat, base: nat, k: nat)
    requires k < n <= |files|
    ensures k !in fails ==> exists j :: 0 <= j < |Attached(files, fails, n, base)| && Attached(files, fails, n, base)[j].src == files[k]
  {
    var before := Attached(files, fails, n - 1, base);
    if k == n - 1 {
      if k !in fails {
        assert Attached(files, fails, n, base)[|before|].src == files[k];
      }
    } else {
      AttachedSurvivors(files, fails, n - 1, base, k);
      if k !in fails {
        var j :| 0 <= j < |before| && before[j].src == files[k];
        assert Attached(files, fails, n, base)[j] == before[j];
      }
    }
  }

  /** Conversely, every attached image comes from a file whose upload succeeded. */
  lemma {:induction false} AttachedFromSurvivors(files: seq<string>, fails: map<nat, Failure>, n: nat, base: nat)
    requires n <= |files|
    ensures forall j :: 0 <= j < |Attached(files, fails, n, base)| ==>
              exists k :: 0 <= k < n && k !in fails && Attached(files, fails, n, base)[j].src == files[k]
  {
    if n > 0 {
      var before := Attached(files, fails, n - 1, base);
      AttachedFromSurvivors(files, fails, n - 1, base);
      forall j | 0 <= j < |Attached(files, fails, n, base)|
        ensures exists k :: 0 <= k < n && k !in fails && Attached(files, fails, n, base)[j].src == files[k]
      {
        if j < |before| {
          assert Attached(files, fails, n, base)[j] == before[j];
          var k :| 0 <= k < n - 1 && k !in fails && before[j].src == files[k];
          assert Attached(files, fails, n, base)[j].src == files[k];
        } else {
          assert n - 1 !in fails;
          assert Attached(files, fails, n, base) == before + [Image(base + |before|, files[n - 1])];
          assert Attached(files, fails, n, base)[j].src == files[n - 1];
        }
      }
    } else {
      assert Attached(files, fails, n, base) == [];
    }
  }

  /** Each URL as the `{ src }` object the handlers answer with. */
  function Shape(urls: seq<string>): (refs: seq<ImageRef>)
    ensures |refs| == |urls|
    ensures forall k :: 0 <= k < |urls| ==> refs[k] == ImageRef(urls[k])
  {
    if urls == [] then [] else [ImageRef(urls[0])] + Shape(urls[1..])
  }

  // ---------------------------------------------------------------- the delete group

  predicate AllDeleted(images: seq<Image>, fails: map<nat, Failure>) {
    forall k :: 0 <= k < |images| ==> images[k].id !in fails
  }

  /**
   * The images of `images[..n]` that survive the delete group: those whose deletion fails,
   * in their old order. The whole group leaves `Kept(images, fails, |images|)`.
   */
  function Kept(images: seq<Image>, fails: map<nat, Failure>, n: nat): seq<Image>
    requires n <= |images|
    decreases n
  {
    if n == 0 then []
    else Kept(images, fails, n - 1) + (if images[n - 1].id in fails then [images[n - 1]] else [])
  }

  /** Exactly the old images whose deletion fails are kept. */
  lemma {:induction false} KeptMembers(images: seq<Image>, fails: map<nat, Failure>, n: nat)
    requires n <= |images|
    ensures forall x :: x in Kept(images, fails, n) <==> x in images[..n] && x.id in fails
  {
    if n > 0 {
      KeptMembers(images, fails, n - 1);
      assert images[..n] == images[..n - 1] + [images[n - 1]];
    }
  }

  /** When every deletion succeeds, no old image is left. */
  lemma {:induction false} KeptNothingWhenAllDeleted(images: seq<Image>, fails: map<nat, Failure>, n: nat)
    requires n <= |images|
    requires AllDeleted(images, fails)
    ensures Kept(images, fails, n) == []
  {
    if n > 0 {
      KeptNothingWhenAllDeleted(images, fails, n - 1);
    }
  }

  /** `images` without the image whose id is `id`, as the remote's delete call leaves it. */
  function Without(images: seq<Image>, id: nat): seq<Image>
  {
    if images == [] then []
    else if images[0].id == id then Without(images[1..], id)
    else [images[0]] + Without(images[1..], id)
  }

  /** The remote's delete removes exactly the images carrying `id`. */
  lemma {:induction false} WithoutMembers(images: seq<Image>, id: nat)
    ensures forall x :: x in Without(images, id) <==> x in images && x.id != id
  {
    if images != [] {
      WithoutMembers(images[1..], id);
    }
  }

  predicate DistinctIds(images: seq<Image>) {
    forall j, k :: 0 <= j < k < |images| ==> images[j].id != images[k].id
  }

  lemma {:induction false} WithoutAppend(a: seq<Image>, b: seq<Image>, id: nat)
    ensures Without(a + b, id) == Without(a, id) + Without(b, id)
  {
    if a == [] {
      assert a + b == b;
    } else {
      assert (a + b)[0] == a[0];
      assert (a + b)[1..] == a[1..] + b;
      WithoutAppend(a[1..], b, id);
    }
  }

  lemma {:induction false} WithoutAbsent(a: seq<Image>, id: nat)
    requires forall k :: 0 <= k < |a| ==> a[k].id != id
    ensures Without(a, id) == a
  {
    if a != [] {
      WithoutAbsent(a[1..], id);
    }
  }

  lemma {:induction false} WithoutKeepsDistinct(a: seq<Image>, id: nat)
    requires DistinctIds(a)
    ensures DistinctIds(Without(a, id))
  {
    if a != [] {
      assert DistinctIds(a[1..]);
      WithoutKeepsDistinct(a[1..], id);
      if a[0].id != id {
        var rest := Without(a[1..], id);
        WithoutMembers(a[1..], id);
        forall k | 0 <= k < |rest| ensures rest[k].id != a[0].id {
          assert rest[k] in a[1..];
        }
      }
    }
  }

  /** A failed deletion leaves the image where it was. */
  lemma KeepStep(s: seq<Image>, fails: map<nat, Failure>, i: nat)
    requires i < |s|
    requires s[i].id in fails
    ensures Kept(s, fails, i + 1) + s[i + 1..] == Kept(s, fails, i) + s[i..]
  {
    assert s[i..] == [s[i]] + s[i + 1..];
  }

  /** No image kept from before position `i` shares the id of the image at `i`. */
  lemma KeptPrecedes(s: seq<Image>, fails: map<nat, Failure>, i: nat)
    requires DistinctIds(s)
    requires i < |s|
    ensures forall k :: 0 <= k < |Kept(s, fails, i)| ==> Kept(s, fails, i)[k].id != s[i].id
  {
    var front := Kept(s, fails, i);
    KeptMembers(s, fails, i);
    forall k | 0 <= k < |front| ensures front[k].id != s[i].id {
      assert front[k] in front;
      var j :| 0 <= j < i && s[..i][j] == front[k];
      assert s[j] == front[k];
    }
  }

  /** Deleting an id that only one image carries removes that image and keeps the rest in order. */
  lemma WithoutMiddle(front: seq<Image>, x: Image, tail: seq<Image>)
    requires forall k :: 0 <= k < |front| ==> front[k].id != x.id
    requires forall k :: 0 <= k < |tail| ==> tail[k].id != x.id
    ensures Without(front + ([x] + tail), x.id) == front + tail
  {
    WithoutAppend(front, [x] + tail, x.id);
    WithoutAppend([x], tail, x.id);
    WithoutAbsent(front, x.id);
    WithoutAbsent(tail, x.id);
    assert Without([x], x.id) == Without([x][1..], x.id);
    assert [x][1..] == [];
  }

  /** One successful deletion of the delete group, as the loop over the old images performs it. */
  lemma DetachStep(s: seq<Image>, fails: map<nat, Failure>, i: nat)
    requires DistinctIds(s)
    requires i < |s|
    requires s[i].id !in fails
    ensures Without(Kept(s, fails, i) + s[i..], s[i].id) == Kept(s, fails, i + 1) + s[i + 1..]
  {
    var front := Kept(s, fails, i);
    var x := s[i];
    var tail := s[i + 1..];
    KeptPrecedes(s, fails, i);
    forall k | 0 <= k < |tail| ensures tail[k].id != x.id {
      assert tail[k] == s[i + 1 + k];
    }
    WithoutMiddle(front, x, tail);
    assert s[i..] == [x] + tail;
    assert Kept(s, fails, i + 1) == front;
  }

  // ---------------------------------------------------------------- the catalog invariant

  /** Image ids within a product are distinct and all below the next id the remote hands out. */
  ghost predicate WellFormedImages(images: seq<Image>, nextImageId: nat) {
    DistinctIds(images) && forall k :: 0 <= k < |images| ==> images[k].id < nextImageId
  }

  /** `order` lists every product exactly once, and every id is below the next fresh id. */
  ghost predicate WellFormed(products: map<nat, Product>, order: seq<nat>, nextId: nat, nextImageId: nat) {
    && Distinct(order)
    && (forall k :: 0 <= k < |order| ==> order[k] in products)
    && (forall id :: id in products ==> id in order)
    && (forall id :: id in products ==> id < nextId && WellFormedImages(products[id].images, nextImageId))
  }

  /** `products` with product `pid`'s image list replaced by `images`. */
  function WithImages(products: map<nat, Product>, pid: nat, images: seq<Image>): map<nat, Product>
    requires pid in products
  {
    products[pid := products[pid].(images := images)]
  }

  /** A second replacement of the same product's images overrides the first. */
  lemma WithImagesTwice(products: map<nat, Product>, pid: nat, a: seq<Image>, b: seq<Image>)
    requires pid in products
    ensures WithImages(WithImages(products, pid, a), pid, b) == WithImages(products, pid, b)
  {
  }

  /** Replacing the images of a product just stored is storing it with those images. */
  lemma WithImagesOfNew(products: map<nat, Product>, pid: nat, p: Product, images: seq<Image>)
    ensures WithImages(products[pid := p], pid, images) == products[pid := p.(images := images)]
  {
  }

  /** Replacing a product's images by themselves changes nothing. */
  lemma WithImagesSame(products: map<nat, Product>, pid: nat)
    requires pid in products
    ensures WithImages(products, pid, products[pid].images) == products
  {
    assert products[pid].(images := products[pid].images) == products[pid];
  }

  /** An image stored under the next fresh id keeps a product's images well formed. */
  lemma AppendFreshImage(images: seq<Image>, nextImageId: nat, src: string)
    requires WellFormedImages(images, nextImageId)
    ensures WellFormedImages(images + [Image(nextImageId, src)], nextImageId + 1)
  {
  }

  /** Replacing one product by one with well-formed images keeps the catalog well formed. */
  lemma ReplaceWellFormed(products: map<nat, Product>, order: seq<nat>, nextId: nat, nextImageId: nat,
                          pid: nat, p: Product, nextImageId': nat)
    requires WellFormed(products, order, nextId, nextImageId)
    requires pid in products
    requires nextImageId <= nextImageId'
    requires WellFormedImages(p.images, nextImageId')
    ensures WellFormed(products[pid := p], order, nextId, nextImageId')
  {
    var products' := products[pid := p];
    forall id | id in products'
      ensures id < nextId && WellFormedImages(products'[id].images, nextImageId')
    {
      if id != pid {
        assert WellFormedImages(products[id].images, nextImageId);
      }
    }
  }

  /** A product created under the next fresh id, at the end of the order, keeps the catalog well formed. */
  lemma InsertWellFormed(products: map<nat, Product>, order: seq<nat>, nextId: nat, nextImageId: nat, p: Product)
    requires WellFormed(products, order, nextId, nextImageId)
    requires WellFormedImages(p.images, nextImageId)
    ensures nextId !in products && nextId !in order
    ensures WellFormed(products[nextId := p], order + [nextId], nextId + 1, nextImageId)
  {
    var order' := order + [nextId];
    forall k | 0 <= k < |order'| ensures order'[k] in products[nextId := p] {
      if k < |order| {
        assert order'[k] == order[k];
      }
    }
    forall id | id in products[nextId := p] ensures id in order' {
      if id != nextId {
        assert id in order;
      }
    }
  }

  /** Removing a product and its id from the order keeps the catalog well formed. */
  lemma RemoveWellFormed(products: map<nat, Product>, order: seq<nat>, nextId: nat, nextImageId: nat, id: nat)
    requires WellFormed(products, order, nextId, nextImageId)
    ensures WellFormed(products - {id}, Erase(order, id), nextId, nextImageId)
  {
    EraseKeepsDistinct(order, id);
    var order' := Erase(order, id);
    forall k | 0 <= k < |order'| ensures order'[k] in products - {id} {
      assert order'[k] in order';
    }
  }

  // ---------------------------------------------------------------- product bodies

  function CreateMetafields(size: string, bedrooms: Option<string>, baths: string): seq<Metafield> {
    [ Metafield("custom", "size", Line(size), "single_line_text_field"),
      Metafield("custom", "bedrooms", Integer(bedrooms), "number_integer"),
      Metafield("custom", "baths", Line(baths), "single_line_text_field") ]
  }

  /**
   * The product the create handler posts; building it throws a `TypeError` when `size` or
   * `baths` was not sent, because `undefined.toString()` is evaluated.
   */
  function NewListing(req: CreateRequest, user: string): (built: Outcome<Product>)
    requires req.title.Some? && req.price.Some?
    ensures built.Ok? <==> req.size.Some? && req.baths.Some?
    ensures built.Ok? ==> Owns(built.value.tags, user) && built.value.images == []
    ensures built.Ok? ==>
      && built.value.tags == OwnerTag(user)
      && built.value.title == req.title.value && built.value.price == req.price.value
      && built.value.body == req.bodyHtml
      && built.value.metafields == CreateMetafields(req.size.value, req.bedrooms, req.baths.value)
    ensures built.Threw? ==> ErrorText(built.error) == GenericError
  {
    if req.size.None? || req.baths.None? then Threw(Plain(ToStringOfUndefined))
    else
      StampedIsOwned(user);
      Ok(Product(req.title.value, req.bodyHtml, req.price.value, OwnerTag(user), [],
                 CreateMetafields(req.size.value, req.bedrooms, req.baths.value)))
  }

  /**
   * The product after the update handler's PUT: new title and price, the tag string replaced
   * by the caller's owner tag, and the description replaced only when one was sent (an absent
   * `body_html` is dropped from the JSON and so leaves the old one).
   */
  function Edited(p: Product, title: string, body: Option<string>, price: string, user: string): Product {
    p.(title := title, body := if body.Some? then body else p.body, price := price, tags := OwnerTag(user))
  }

  /**
   * After an update the tag string is exactly the caller's owner tag, so the caller owns the
   * product whatever its tags were before; title and price are the request's, a description
   * is replaced only when one was sent, and images and metafields are untouched.
   */
  lemma EditedIsOwned(p: Product, title: string, body: Option<string>, price: string, user: string)
    ensures Edited(p, title, body, price, user).tags == OwnerTag(user)
    ensures Owns(Edited(p, title, body, price, user).tags, user)
    ensures Edited(p, title, body, price, user).title == title
    ensures Edited(p, title, body, price, user).price == price
    ensures Edited(p, title, body, price, user).body == (if body.Some? then body else p.body)
    ensures Edited(p, title, body, price, user).images == p.images
    ensures Edited(p, title, body, price, user).metafields == p.metafields
  {
    StampedIsOwned(user);
  }

  /**
   * Substring semantics again: a caller whose id is a proper prefix of the owner's id passes
   * the ownership check, and the re-stamp then takes the product away from the real owner.
   */
  lemma PrefixCallerTakesOver(p: Product, title: string, body: Option<string>, price: string, user: string, suffix: string)
    requires p.tags == OwnerTag(user + suffix)
    requires suffix != ""
    ensures Owns(p.tags, user)
    ensures !Owns(Edited(p, title, body, price, user).tags, user + suffix)
  {
    PrefixCallerOwns(user, suffix);
    StampExcludesLongerIds(user, suffix);
  }

  // ---------------------------------------------------------------- list view

  /** `{ ...product, metafields }` over the fields the list handler requests. */
  function View(id: nat, p: Product, failing: set<nat>): Listed {
    Listed(id, p.title, p.price, p.tags, p.images, if id in failing then [] else p.metafields)
  }
}
