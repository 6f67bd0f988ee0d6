/**
 * The four listing handlers as methods on an in-memory stand-in for the remote catalog.
 * Every remote call that can fail is decided by the `Faults` argument; a `Promise.all`
 * group runs as an ordered loop over all its elements (siblings are never cancelled) and
 * fails as a whole when any element fails.
 *
 * Each handler first only reads (validation, lookups, the ownership or quota test); that
 * prefix is a function returning the response the handler stops with, if it stops. The
 * method then performs the remote mutations step by step.
 */
module Server {
  import opened Listings

  // ---------------------------------------------------------------- create

  /** The create handler refuses on quota: validation passed, both reads succeeded, and the quota is reached. */
  predicate QuotaRejects(req: CreateRequest, customers: map<string, Customer>, order: seq<nat>,
                         products: map<nat, Product>, faults: Faults)
  {
    && HasRequired(req.title, req.price, req.user)
    && CustomerSearch !in faults.calls
    && ProductIndex !in faults.calls
    && QuotaReached(TierOf(Lookup(customers, req.user.value)), |OwnedIds(order, products, req.user.value)|)
  }

  /** The create handler gets as far as creating the product. */
  predicate CreateGoesAhead(req: CreateRequest, customers: map<string, Customer>, order: seq<nat>,
                            products: map<nat, Product>, faults: Faults)
  {
    && HasRequired(req.title, req.price, req.user)
    && CustomerSearch !in faults.calls
    && ProductIndex !in faults.calls
    && !QuotaReached(TierOf(Lookup(customers, req.user.value)), |OwnedIds(order, products, req.user.value)|)
    && req.size.Some? && req.baths.Some?
    && ProductCreate !in faults.calls
  }

  /**
   * What the create handler answers when it stops before the product exists: a missing
   * field, a failed customer search or product index, the quota, the `toString` of an
   * absent `size` or `baths`, or a failed product creation.
   */
  function CreateRefusal(req: CreateRequest, customers: map<string, Customer>, order: seq<nat>,
                         products: map<nat, Product>, faults: Faults): (refusal: Option<Response>)
    ensures !HasRequired(req.title, req.price, req.user) <==>
              refusal == Some(Response(400, ErrorBody(MissingFieldsCreate)))
    ensures (refusal.Some? && refusal.value.status == 403) <==> QuotaRejects(req, customers, order, products, faults)
    ensures refusal.Some? && refusal.value.status == 403 ==> refusal.value.body == ErrorBody(QuotaMessage)
    ensures refusal.Some? ==> refusal.value.status in {400, 403, 500}
    ensures refusal.None? <==> CreateGoesAhead(req, customers, order, products, faults)
    ensures HasRequired(req.title, req.price, req.user) && CustomerSearch in faults.calls ==>
              refusal == Some(ServerError(Remote(faults.calls[CustomerSearch])))
    ensures HasRequired(req.title, req.price, req.user) && CustomerSearch !in faults.calls
            && ProductIndex in faults.calls ==>
              refusal == Some(ServerError(Remote(faults.calls[ProductIndex])))
    ensures HasRequired(req.title, req.price, req.user) && CustomerSearch !in faults.calls
            && ProductIndex !in faults.calls
            && !QuotaReached(TierOf(Lookup(customers, req.user.value)), |OwnedIds(order, products, req.user.value)|)
            && req.size.Some? && req.baths.Some? && ProductCreate in faults.calls ==>
              refusal == Some(ServerError(Remote(faults.calls[ProductCreate])))
  {
    if !HasRequired(req.title, req.price, req.user) then Some(Response(400, ErrorBody(MissingFieldsCreate)))
    else
      var user := req.user.value;
      if CustomerSearch in faults.calls then Some(ServerError(Remote(faults.calls[CustomerSearch])))
      else if ProductIndex in faults.calls then Some(ServerError(Remote(faults.calls[ProductIndex])))
      else if QuotaReached(TierOf(Lookup(customers, user)), |OwnedIds(order, products, user)|) then
        Some(Response(403, ErrorBody(QuotaMessage)))
      else
        match NewListing(req, user)
        case Threw(e) => Some(ServerError(e))
        case Ok(_) => if ProductCreate in faults.calls then Some(ServerError(Remote(faults.calls[ProductCreate]))) else None
  }

  /** A public caller is never refused on quota, however many products match its owner tag. */
  lemma PublicNeverOverQuota(req: CreateRequest, customers: map<string, Customer>, order: seq<nat>,
                             products: map<nat, Product>, faults: Faults)
    requires req.user.Some?
    requires TierOf(Lookup(customers, req.user.value)) == Public
    ensures !(CreateRefusal(req, customers, order, products, faults).Some?
              && CreateRefusal(req, customers, order, products, faults).value.status == 403)
  {
  }

  /**
   * An absent `size` or `baths` after the quota check answers the generic 500: the
   * `TypeError` raised while the request body is built has no remote payload.
   */
  lemma MissingAttributeIsGeneric500(req: CreateRequest, customers: map<string, Customer>, order: seq<nat>,
                                     products: map<nat, Product>, faults: Faults)
    requires HasRequired(req.title, req.price, req.user)
    requires CustomerSearch !in faults.calls && ProductIndex !in faults.calls
    requires !QuotaRejects(req, customers, order, products, faults)
    requires req.size.None? || req.baths.None?
    ensures CreateRefusal(req, customers, order, products, faults) == Some(Response(500, ErrorBody(GenericError)))
  {
  }

  // ---------------------------------------------------------------- update and delete

  /** The update or delete handler fetched product `id` and the caller fails the ownership test. */
  predicate NotOwner(id: nat, user: Option<string>, products: map<nat, Product>, faults: Faults) {
    && Truthy(user)
    && ProductFetch !in faults.calls
    && id in products
    && !Owns(products[id].tags, user.value)
  }

  /** The update handler's PUT of the new fields goes through. */
  predicate UpdateSaved(id: nat, req: UpdateRequest, products: map<nat, Product>, faults: Faults) {
    && HasRequired(req.title, req.price, req.user)
    && ProductFetch !in faults.calls
    && id in products
    && Owns(products[id].tags, req.user.value)
    && ProductSave !in faults.calls
  }

  /**
   * What the update handler answers when it stops before changing anything: a missing
   * field, a failed or unknown product fetch, a caller who does not own the product, or a
   * failed PUT.
   */
  function UpdateRefusal(id: nat, req: UpdateRequest, products: map<nat, Product>, faults: Faults): (refusal: Option<Response>)
    ensures !HasRequired(req.title, req.price, req.user) <==>
              refusal == Some(Response(400, ErrorBody(MissingFieldsUpdate)))
    ensures HasRequired(req.title, req.price, req.user) && ProductFetch !in faults.calls && id !in products ==>
              refusal == Some(ServerError(Remote(ApiError(NotFound))))
    ensures (refusal.Some? && refusal.value.status == 403) <==>
              HasRequired(req.title, req.price, req.user) && NotOwner(id, req.user, products, faults)
    ensures refusal.Some? && refusal.value.status == 403 ==> refusal.value.body == ErrorBody(NotOwnerUpdate)
    ensures refusal.Some? ==> refusal.value.status in {400, 403, 500}
    ensures refusal.None? <==> UpdateSaved(id, req, products, faults)
    ensures HasRequired(req.title, req.price, req.user) && ProductFetch in faults.calls ==>
              refusal == Some(ServerError(Remote(faults.calls[ProductFetch])))
    ensures HasRequired(req.title, req.price, req.user) && ProductFetch !in faults.calls && id in products
            && Owns(products[id].tags, req.user.value) && ProductSave in faults.calls ==>
              refusal == Some(ServerError(Remote(faults.calls[ProductSave])))
  {
    if !HasRequired(req.title, req.price, req.user) then Some(Response(400, ErrorBody(MissingFieldsUpdate)))
    else if ProductFetch in faults.calls then Some(ServerError(Remote(faults.calls[ProductFetch])))
    else if id !in products then Some(ServerError(Remote(ApiError(NotFound))))
    else if !Owns(products[id].tags, req.user.value) then Some(Response(403, ErrorBody(NotOwnerUpdate)))
    else if ProductSave in faults.calls then Some(ServerError(Remote(faults.calls[ProductSave])))
    else None
  }

  /** The delete handler's DELETE of product `id` goes through. */
  predicate RemoveGoesAhead(id: nat, user: Option<string>, products: map<nat, Product>, faults: Faults) {
    && Truthy(user)
    && ProductFetch !in faults.calls
    && id in products
    && Owns(products[id].tags, user.value)
    && ProductDelete !in faults.calls
  }

  /**
   * What the delete handler answers when it does not delete: no caller id, a failed or
   * unknown product fetch, a caller who does not own the product, or a failed DELETE.
   */
  function RemoveRefusal(id: nat, user: Option<string>, products: map<nat, Product>, faults: Faults): (refusal: Option<Response>)
    ensures !Truthy(user) <==> refusal == Some(Response(400, ErrorBody(MissingUserDelete)))
    ensures Truthy(user) && ProductFetch !in faults.calls && id !in products ==>
              refusal == Some(ServerError(Remote(ApiError(NotFound))))
    ensures (refusal.Some? && refusal.value.status == 403) <==> NotOwner(id, user, products, faults)
    ensures refusal.Some? && refusal.value.status == 403 ==> refusal.value.body == ErrorBody(NotOwnerDelete)
    ensures refusal.Some? ==> refusal.value.status in {400, 403, 500}
    ensures refusal.None? <==> RemoveGoesAhead(id, user, products, faults)
    ensures Truthy(user) && ProductFetch in faults.calls ==>
              refusal == Some(ServerError(Remote(faults.calls[ProductFetch])))
    ensures Truthy(user) && ProductFetch !in faults.calls && id in products
            && Owns(products[id].tags, user.value) && ProductDelete in faults.calls ==>
              refusal == Some(ServerError(Remote(faults.calls[ProductDelete])))
  {
    if !Truthy(user) then Some(Response(400, ErrorBody(MissingUserDelete)))
    else if ProductFetch in faults.calls then Some(ServerError(Remote(faults.calls[ProductFetch])))
    else if id !in products then Some(ServerError(Remote(ApiError(NotFound))))
    else if !Owns(products[id].tags, user.value) then Some(Response(403, ErrorBody(NotOwnerDelete)))
    else if ProductDelete in faults.calls then Some(ServerError(Remote(faults.calls[ProductDelete])))
    else None
  }

  /** The fields the update handler writes, applied to the product it fetched. */
  function EditOf(p: Product, req: UpdateRequest): Product
    requires req.title.Some? && req.price.Some? && req.user.Some?
  {
    Edited(p, req.title.value, req.bodyHtml, req.price.value, req.user.value)
  }

  // ---------------------------------------------------------------- the catalog

  class Catalog {
    /** The remote products by id. */
    var products: map<nat, Product>
    /** The order in which the remote lists its products. */
    var order: seq<nat>
    /** The identity store: customer records by email. */
    var customers: map<string, Customer>
    /** The id the remote gives the next product it creates. */
    var nextId: nat
    /** The id the remote gives the next image it stores. */
    var nextImageId: nat

    ghost predicate Valid()
      reads this
    {
      WellFormed(products, order, nextId, nextImageId)
    }

    /** Product `pid` of `before` now carries `images`, and nothing else differs from `before`. */
    ghost predicate Carries(before: map<nat, Product>, pid: nat, images: seq<Image>)
      reads this
    {
      pid in before && products == WithImages(before, pid, images)
    }

    /**
     * The upload group has dealt with `files[..i]`: the product carries `before`'s images and
     * those of the successful uploads so far, and the image ids handed out since `base` are theirs.
     */
    ghost predicate Uploaded(before: map<nat, Product>, pid: nat, files: seq<string>, fails: map<nat, Failure>,
                             i: nat, base: nat)
      reads this
    {
      && pid in before && i <= |files|
      && Carries(before, pid, before[pid].images + Attached(files, fails, i, base))
      && nextImageId == base + |Attached(files, fails, i, base)|
    }

    /** An empty catalog in front of the given identity store. */
    constructor (customers: map<string, Customer>)
      ensures Valid()
      ensures this.customers == customers && products == map[] && order == []
    {
      this.customers := customers;
      products := map[];
      order := [];
      nextId := 0;
      nextImageId := 0;
    }

    /**
     * `uploadImageToShopify`: attach `file` to a product, or fail; every failure is rethrown
     * as a plain `Error`, so the remote's own error payload never reaches the caller.
     */
    method UploadImage(productId: nat, index: nat, file: string, fails: map<nat, Failure>) returns (url: Outcome<string>)
      requires Valid() && productId in products
      modifies this
      ensures Valid()
      ensures order == old(order) && customers == old(customers) && nextId == old(nextId)
      ensures index in fails ==>
        url == Threw(Plain(UploadFailed)) && products == old(products) && nextImageId == old(nextImageId)
      ensures index !in fails ==>
        && url == Ok(file)
        && nextImageId == old(nextImageId) + 1
        && products == WithImages(old(products), productId, old(products)[productId].images + [Image(old(nextImageId), file)])
    {
      if index in fails {
        return Threw(Plain(UploadFailed));
      }
      var images := products[productId].images + [Image(nextImageId, file)];
      AppendFreshImage(products[productId].images, nextImageId, file);
      ReplaceWellFormed(products, order, nextId, nextImageId, productId, products[productId].(images := images), nextImageId + 1);
      products := WithImages(products, productId, images);
      nextImageId := nextImageId + 1;
      url := Ok(file);
    }

    /**
     * The upload of `files[i]` within the group, stated as the group's progress: before it
     * the product carries the images of `files[..i]`, after it those of `files[..i + 1]`.
     */
    method UploadNext(productId: nat, files: seq<string>, fails: map<nat, Failure>, i: nat,
                      ghost base: nat, ghost before: map<nat, Product>) returns (url: Outcome<string>)
      requires Valid() && i < |files|
      requires Uploaded(before, productId, files, fails, i, base)
      modifies this
      ensures Valid()
      ensures order == old(order) && customers == old(customers) && nextId == old(nextId)
      ensures Uploaded(before, productId, files, fails, i + 1, base)
      ensures url.Ok? <==> i !in fails
      ensures url.Ok? ==> url.value == files[i]
      ensures url.Threw? ==> url.error == Plain(UploadFailed)
    {
      ghost var start := before[productId].images;
      ghost var done := Attached(files, fails, i, base);
      url := UploadImage(productId, i, files[i], fails);
      if url.Ok? {
        ghost var image := Image(base + |done|, files[i]);
        assert (start + done) + [image] == start + (done + [image]);
        WithImagesTwice(before, productId, start + done, start + (done + [image]));
      }
    }

    /**
     * The upload group's loop over `files`, the product carrying `before`'s images when it
     * starts; `culprit` names the first file whose upload failed, if one did.
     */
    method UploadEach(productId: nat, files: seq<string>, fails: map<nat, Failure>, ghost before: map<nat, Product>)
      returns (done: seq<string>, failure: Option<Thrown>, ghost culprit: nat)
      requires Valid()
      requires Uploaded(before, productId, files, fails, 0, nextImageId)
      modifies this
      ensures Valid()
      ensures order == old(order) && customers == old(customers) && nextId == old(nextId)
      ensures Uploaded(before, productId, files, fails, |files|, old(nextImageId))
      ensures failure.None? ==> done == files && forall k :: 0 <= k < |files| ==> k !in fails
      ensures failure.Some? ==> culprit < |files| && culprit in fails && failure.value == Plain(UploadFailed)
    {
      ghost var base := nextImageId;
      done := [];
      failure := None;
      culprit := 0;
      var i := 0;
      while i < |files|
        invariant 0 <= i <= |files|
        invariant Valid()
        invariant order == old(order) && customers == old(customers) && nextId == old(nextId)
        invariant Uploaded(before, productId, files, fails, i, base)
        invariant failure.None? ==> done == files[..i] && forall k :: 0 <= k < i ==> k !in fails
        invariant failure.Some? ==> culprit < i && culprit in fails && failure.value == Plain(UploadFailed)
      {
        var url := UploadNext(productId, files, fails, i, base, before);
        if url.Ok? {
          assert files[..i + 1] == files[..i] + [files[i]];
          done := done + [url.value];
        } else if failure.None? {
          failure := Some(url.error);
          culprit := i;
        }
        i := i + 1;
      }
      assert files[..|files|] == files;
    }

    /** `Promise.all(files.map(upload))`: upload every file; the group fails if any upload does. */
    method UploadAll(productId: nat, files: seq<string>, fails: map<nat, Failure>) returns (urls: Outcome<seq<string>>)
      requires Valid() && productId in products
      modifies this
      ensures Valid()
      ensures order == old(order) && customers == old(customers) && nextId == old(nextId)
      ensures products == WithImages(old(products), productId,
                old(products)[productId].images + Attached(files, fails, |files|, old(nextImageId)))
      ensures nextImageId == old(nextImageId) + |Attached(files, fails, |files|, old(nextImageId))|
      ensures urls.Ok? <==> AllUploaded(files, fails)
      ensures urls.Ok? ==> urls.value == files
      ensures urls.Threw? ==> urls.error == Plain(UploadFailed)
    {
      assert products[productId].images + Attached(files, fails, 0, nextImageId) == products[productId].images;
      WithImagesSame(products, productId);
      var done, failure;
      ghost var culprit;
      done, failure, culprit := UploadEach(productId, files, fails, products);
      if failure.Some? {
        urls := Threw(failure.value);
      } else {
        urls := Ok(done);
      }
    }

    /** One call of the delete group: the remote drops `image` from the product, unless that call fails. */
    method DeleteImage(productId: nat, image: Image, fails: map<nat, Failure>) returns (failed: Option<Failure>)
      requires Valid() && productId in products
      modifies this
      ensures Valid()
      ensures order == old(order) && customers == old(customers)
      ensures nextId == old(nextId) && nextImageId == old(nextImageId)
      ensures image.id in fails ==> failed == Some(fails[image.id]) && products == old(products)
      ensures image.id !in fails ==>
        failed == None && products == WithImages(old(products), productId, Without(old(products)[productId].images, image.id))
    {
      if image.id in fails {
        return Some(fails[image.id]);
      }
      var current := products[productId].images;
      WithoutKeepsDistinct(current, image.id);
      var rest := Without(current, image.id);
      WithoutMembers(current, image.id);
      forall k | 0 <= k < |rest| ensures rest[k].id < nextImageId {
        assert rest[k] in current;
      }
      ReplaceWellFormed(products, order, nextId, nextImageId, productId, products[productId].(images := rest), nextImageId);
      products := WithImages(products, productId, rest);
      failed := None;
    }

    /**
     * The deletion of `snapshot[i]` within the group, stated as the group's progress: the
     * images before position `i` are settled, those from `i` on are untouched.
     */
    method DeleteNext(productId: nat, snapshot: seq<Image>, fails: map<nat, Failure>, i: nat,
                      ghost before: map<nat, Product>) returns (failed: Option<Failure>)
      requires Valid() && productId in before && i < |snapshot| && DistinctIds(snapshot)
      requires Carries(before, productId, Kept(snapshot, fails, i) + snapshot[i..])
      modifies this
      ensures Valid()
      ensures order == old(order) && customers == old(customers)
      ensures nextId == old(nextId) && nextImageId == old(nextImageId)
      ensures Carries(before, productId, Kept(snapshot, fails, i + 1) + snapshot[i + 1..])
      ensures failed.None? <==> snapshot[i].id !in fails
      ensures failed.Some? ==> failed.value == fails[snapshot[i].id]
    {
      ghost var current := Kept(snapshot, fails, i) + snapshot[i..];
      failed := DeleteImage(productId, snapshot[i], fails);
      if failed.Some? {
        KeepStep(snapshot, fails, i);
      } else {
        DetachStep(snapshot, fails, i);
        WithImagesTwice(before, productId, current, Without(current, snapshot[i].id));
      }
    }

    /**
     * The delete group's loop over the old images `snapshot`; `culprit` names the first old
     * image whose deletion failed, if one did.
     */
    method DeleteEach(productId: nat, snapshot: seq<Image>, fails: map<nat, Failure>, ghost before: map<nat, Product>)
      returns (failure: Option<Failure>, ghost culprit: nat)
      requires Valid() && productId in before && DistinctIds(snapshot)
      requires products == WithImages(before, productId, snapshot)
      modifies this
      ensures Valid()
      ensures order == old(order) && customers == old(customers)
      ensures nextId == old(nextId) && nextImageId == old(nextImageId)
      ensures products == WithImages(before, productId, Kept(snapshot, fails, |snapshot|))
      ensures failure.None? ==> AllDeleted(snapshot, fails)
      ensures failure.Some? ==>
        culprit < |snapshot| && snapshot[culprit].id in fails && failure.value == fails[snapshot[culprit].id]
    {
      assert Kept(snapshot, fails, 0) + snapshot[0..] == snapshot;
      culprit := 0;
      failure := None;
      var i := 0;
      while i < |snapshot|
        invariant 0 <= i <= |snapshot|
        invariant Valid()
        invariant order == old(order) && customers == old(customers)
        invariant nextId == old(nextId) && nextImageId == old(nextImageId)
        invariant Carries(before, productId, Kept(snapshot, fails, i) + snapshot[i..])
        invariant failure.None? ==> forall k :: 0 <= k < i ==> snapshot[k].id !in fails
        invariant failure.Some? ==> culprit < i && snapshot[culprit].id in fails && failure.value == fails[snapshot[culprit].id]
      {
        var failed := DeleteNext(productId, snapshot, fails, i, before);
        if failed.Some? && failure.None? {
          failure := failed;
          culprit := i;
        }
        i := i + 1;
      }
      assert Kept(snapshot, fails, |snapshot|) + snapshot[|snapshot|..] == Kept(snapshot, fails, |snapshot|);
    }

    /**
     * `Promise.all(product.images.map(delete))`: delete every old image. The images whose
     * deletion fails stay; the group fails with one of the failing deletions' errors.
     */
    method DeleteImages(productId: nat, fails: map<nat, Failure>) returns (failure: Option<Failure>)
      requires Valid() && productId in products
      modifies this
      ensures Valid()
      ensures order == old(order) && customers == old(customers)
      ensures nextId == old(nextId) && nextImageId == old(nextImageId)
      ensures products == WithImages(old(products), productId,
                Kept(old(products)[productId].images, fails, |old(products)[productId].images|))
      ensures failure.None? <==> AllDeleted(old(products)[productId].images, fails)
      ensures failure.Some? ==>
        exists k :: 0 <= k < |old(products)[productId].images|
          && old(products)[productId].images[k].id in fails
          && failure.value == fails[old(products)[productId].images[k].id]
    {
      var snapshot := products[productId].images;
      assert WellFormedImages(snapshot, nextImageId);
      WithImagesSame(products, productId);
      ghost var culprit;
      failure, culprit := DeleteEach(productId, snapshot, fails, products);
    }

    /** The remote's product creation: a new product under the next fresh id, listed last. */
    method Insert(p: Product) returns (id: nat)
      requires Valid()
      requires p.images == []
      modifies this
      ensures Valid()
      ensures customers == old(customers) && nextImageId == old(nextImageId)
      ensures id == old(nextId) && id !in old(products) && id !in old(order)
      ensures nextId == old(nextId) + 1
      ensures products == old(products)[id := p] && order == old(order) + [id]
    {
      InsertWellFormed(products, order, nextId, nextImageId, p);
      id := nextId;
      products := products[id := p];
      order := order + [id];
      nextId := nextId + 1;
    }

    /** The remote's product update: product `id` takes the fields of `p`, keeping its images. */
    method Save(id: nat, p: Product)
      requires Valid() && id in products
      requires p.images == products[id].images
      modifies this
      ensures Valid()
      ensures order == old(order) && customers == old(customers)
      ensures nextId == old(nextId) && nextImageId == old(nextImageId)
      ensures products == old(products)[id := p]
    {
      ReplaceWellFormed(products, order, nextId, nextImageId, id, p, nextImageId);
      products := products[id := p];
    }

    /**
     * What the create handler does once the product body is built: create the product, then
     * upload the request's files to it and answer 201 with the images, or 500 when an upload fails.
     */
    method Publish(listing: Product, files: seq<string>, uploads: map<nat, Failure>) returns (r: Response)
      requires Valid() && listing.images == []
      modifies this
      ensures Valid() && customers == old(customers)
      ensures old(nextId) !in old(products) && nextId == old(nextId) + 1
      ensures order == old(order) + [old(nextId)]
      ensures products == old(products)[old(nextId) := listing.(images := Attached(files, uploads, |files|, old(nextImageId)))]
      ensures nextImageId == old(nextImageId) + |Attached(files, uploads, |files|, old(nextImageId))|
      ensures AllUploaded(files, uploads) ==>
        && r == Response(201, ProductCreated(CreatedMessage, old(nextId), Shape(files)))
        && Srcs(products[old(nextId)].images) == files
      ensures !AllUploaded(files, uploads) ==> r == Response(500, ErrorBody(GenericError))
    {
      var id := Insert(listing);
      ghost var added := Attached(files, uploads, |files|, old(nextImageId));
      WithImagesOfNew(old(products), id, listing, added);
      if |files| > 0 {
        var uploaded := UploadAll(id, files, uploads);
        assert [] + added == added;
        if uploaded.Threw? {
          r := ServerError(uploaded.error);
        } else {
          r := Response(201, ProductCreated(CreatedMessage, id, Shape(uploaded.value)));
        }
      } else {
        assert listing.(images := added) == listing;
        r := Response(201, ProductCreated(CreatedMessage, id, []));
      }
      if AllUploaded(files, uploads) {
        AttachedAll(files, uploads, |files|, old(nextImageId));
        assert files[..|files|] == files;
      }
    }

    /** `POST /create-product`. */
    method Create(req: CreateRequest, files: seq<string>, faults: Faults) returns (r: Response)
      requires Valid()
      modifies this
      ensures Valid() && customers == old(customers)
      ensures CreateRefusal(req, old(customers), old(order), old(products), faults).Some? ==>
        && r == CreateRefusal(req, old(customers), old(order), old(products), faults).value
        && products == old(products) && order == old(order)
        && nextId == old(nextId) && nextImageId == old(nextImageId)
      ensures CreateGoesAhead(req, old(customers), old(order), old(products), faults) ==>
        && old(nextId) !in old(products)
        && nextId == old(nextId) + 1
        && order == old(order) + [old(nextId)]
        && products == old(products)[old(nextId) := NewListing(req, req.user.value).value.(
             images := Attached(files, faults.uploads, |files|, old(nextImageId)))]
        && nextImageId == old(nextImageId) + |Attached(files, faults.uploads, |files|, old(nextImageId))|
        && Owns(products[old(nextId)].tags, req.user.value)
        && OwnedIds(order, products, req.user.value) == OwnedIds(old(order), old(products), req.user.value) + [old(nextId)]
        && forall v :: OwnedIds(order, products, v) ==
             OwnedIds(old(order), old(products), v) + (if Owns(products[old(nextId)].tags, v) then [old(nextId)] else [])
      ensures CreateGoesAhead(req, old(customers), old(order), old(products), faults) && AllUploaded(files, faults.uploads) ==>
        && r == Response(201, ProductCreated(CreatedMessage, old(nextId), Shape(files)))
        && Srcs(products[old(nextId)].images) == files
      ensures CreateGoesAhead(req, old(customers), old(order), old(products), faults) && !AllUploaded(files, faults.uploads) ==>
        r == Response(500, ErrorBody(GenericError))
    {
      var refusal := CreateRefusal(req, customers, order, products, faults);
      if refusal.Some? {
        return refusal.value;
      }
      var user := req.user.value;
      var listing := NewListing(req, user).value;
      r := Publish(listing, files, faults.uploads);
      ghost var created := listing.(images := Attached(files, faults.uploads, |files|, old(nextImageId)));
      forall v ensures OwnedIds(order, products, v) ==
                       OwnedIds(old(order), old(products), v) + (if Owns(created.tags, v) then [old(nextId)] else [])
      {
        OwnedIdsAfterCreate(old(order), old(products), old(nextId), created, v);
      }
    }

    /**
     * The update handler's image replacement when the request carries files: delete every old
     * image of product `id`, then upload the files, answering as the handler does.
     */
    method Reimage(id: nat, files: seq<string>, deletes: map<nat, Failure>, uploads: map<nat, Failure>) returns (r: Response)
      requires Valid() && id in products
      modifies this
      ensures Valid()
      ensures order == old(order) && customers == old(customers) && nextId == old(nextId)
      ensures !AllDeleted(old(products)[id].images, deletes) ==>
        && products == WithImages(old(products), id, Kept(old(products)[id].images, deletes, |old(products)[id].images|))
        && nextImageId == old(nextImageId)
        && exists k :: 0 <= k < |old(products)[id].images|
             && old(products)[id].images[k].id in deletes
             && r == ServerError(Remote(deletes[old(products)[id].images[k].id]))
      ensures AllDeleted(old(products)[id].images, deletes) ==>
        && products == WithImages(old(products), id, Attached(files, uploads, |files|, old(nextImageId)))
        && nextImageId == old(nextImageId) + |Attached(files, uploads, |files|, old(nextImageId))|
        && (AllUploaded(files, uploads) ==> r == Response(200, ProductUpdated(UpdatedMessage, id, Shape(files))))
        && (!AllUploaded(files, uploads) ==> r == Response(500, ErrorBody(GenericError)))
    {
      var images := products[id].images;
      if |images| > 0 {
        var failed := DeleteImages(id, deletes);
        if failed.Some? {
          return ServerError(Remote(failed.value));
        }
        KeptNothingWhenAllDeleted(images, deletes, |images|);
      } else {
        WithImagesSame(old(products), id);
      }
      ghost var added := Attached(files, uploads, |files|, old(nextImageId));
      var uploaded := UploadAll(id, files, uploads);
      assert [] + added == added;
      WithImagesTwice(old(products), id, [], added);
      if uploaded.Threw? {
        return ServerError(uploaded.error);
      }
      r := Response(200, ProductUpdated(UpdatedMessage, id, Shape(uploaded.value)));
    }

    /** `PUT /update-product/:product_id`. */
    method Update(id: nat, req: UpdateRequest, files: seq<string>, faults: Faults) returns (r: Response)
      requires Valid()
      modifies this
      ensures Valid()
      ensures order == old(order) && customers == old(customers) && nextId == old(nextId)
      ensures UpdateRefusal(id, req, old(products), faults).Some? ==>
        r == UpdateRefusal(id, req, old(products), faults).value && products == old(products) && nextImageId == old(nextImageId)
      ensures UpdateSaved(id, req, old(products), faults) ==> Owns(products[id].tags, req.user.value)
      ensures UpdateSaved(id, req, old(products), faults) && |files| == 0 ==>
        && products == old(products)[id := EditOf(old(products)[id], req)]
        && nextImageId == old(nextImageId)
        && r == Response(200, ProductUpdated(UpdatedMessage, id, []))
      ensures UpdateSaved(id, req, old(products), faults) && |files| > 0
              && !AllDeleted(old(products)[id].images, faults.imageDeletes) ==>
        && products == WithImages(old(products)[id := EditOf(old(products)[id], req)], id,
                                  Kept(old(products)[id].images, faults.imageDeletes, |old(products)[id].images|))
        && nextImageId == old(nextImageId)
        && exists k :: 0 <= k < |old(products)[id].images|
             && old(products)[id].images[k].id in faults.imageDeletes
             && r == ServerError(Remote(faults.imageDeletes[old(products)[id].images[k].id]))
      ensures UpdateSaved(id, req, old(products), faults) && |files| > 0
              && AllDeleted(old(products)[id].images, faults.imageDeletes) ==>
        && products == WithImages(old(products)[id := EditOf(old(products)[id], req)], id,
                                  Attached(files, faults.uploads, |files|, old(nextImageId)))
        && nextImageId == old(nextImageId) + |Attached(files, faults.uploads, |files|, old(nextImageId))|
        && (AllUploaded(files, faults.uploads) ==> r == Response(200, ProductUpdated(UpdatedMessage, id, Shape(files))))
        && (!AllUploaded(files, faults.uploads) ==> r == Response(500, ErrorBody(GenericError)))
    {
      var refusal := UpdateRefusal(id, req, products, faults);
      if refusal.Some? {
        return refusal.value;
      }
      var product := products[id];
      var edited := EditOf(product, req);
      EditedIsOwned(product, req.title.value, req.bodyHtml, req.price.value, req.user.value);
      Save(id, edited);
      if |files| == 0 {
        return Response(200, ProductUpdated(UpdatedMessage, id, []));
      }
      r := Reimage(id, files, faults.imageDeletes, faults.uploads);
    }

    /** `GET /products/:storefront_user_id`: the caller's products, each with its metafields. */
    method ListByUser(user: string, faults: Faults) returns (r: Response)
      ensures ProductIndex in faults.calls ==> r == ServerError(Remote(faults.calls[ProductIndex]))
      ensures ProductIndex !in faults.calls ==>
        && r.status == 200
        && r.body.ProductList?
        && |r.body.products| == |OwnedIds(order, products, user)|
        && forall k :: 0 <= k < |r.body.products| ==>
             r.body.products[k] == View(OwnedIds(order, products, user)[k],
                                        products[OwnedIds(order, products, user)[k]], faults.metafields)
    {
      if ProductIndex in faults.calls {
        return ServerError(Remote(faults.calls[ProductIndex]));
      }
      var owned := OwnedIds(order, products, user);
      var listed: seq<Listed> := [];
      var i := 0;
      while i < |owned|
        invariant 0 <= i <= |owned|
        invariant |listed| == i
        invariant forall k :: 0 <= k < i ==> owned[k] in products && listed[k] == View(owned[k], products[owned[k]], faults.metafields)
      {
        var pid := owned[i];
        assert pid in owned;
        var p := products[pid];
        var metafields := if pid in faults.metafields then [] else p.metafields;
        listed := listed + [Listed(pid, p.title, p.price, p.tags, p.images, metafields)];
        i := i + 1;
      }
      r := Response(200, ProductList(listed));
    }

    /** `DELETE /remove-product/:product_id`. */
    method Remove(id: nat, user: Option<string>, faults: Faults) returns (r: Response)
      requires Valid()
      modifies this
      ensures Valid()
      ensures customers == old(customers) && nextId == old(nextId) && nextImageId == old(nextImageId)
      ensures RemoveRefusal(id, user, old(products), faults).Some? ==>
        r == RemoveRefusal(id, user, old(products), faults).value && products == old(products) && order == old(order)
      ensures RemoveGoesAhead(id, user, old(products), faults) ==>
        && r == Response(200, ProductRemoved(RemovedMessage, id))
        && products == old(products) - {id}
        && order == Erase(old(order), id)
        && forall v :: OwnedIds(order, products, v) == Erase(OwnedIds(old(order), old(products), v), id)
    {
      var refusal := RemoveRefusal(id, user, products, faults);
      if refusal.Some? {
        return refusal.value;
      }
      RemoveWellFormed(products, order, nextId, nextImageId, id);
      products := products - {id};
      order := Erase(order, id);
      forall v ensures OwnedIds(order, products, v) == Erase(OwnedIds(old(order), old(products), v), id) {
        OwnedIdsAfterRemove(old(order), old(products), id, v);
      }
      r := Response(200, ProductRemoved(RemovedMessage, id));
    }
  }
}
