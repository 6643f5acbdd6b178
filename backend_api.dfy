/**
 * The two endpoints of the watch-list API (backend_api.py) that the browser
 * extension calls: `POST /api/save-products` replaces a user's product list,
 * `GET /api/get-products` reads it back. Both first compare the token sent
 * with the one in `user:{telegram_id}` and answer 403 when they differ.
 * The endpoints share the bot's Redis keyspace.
 */
module BackendApi {
  import opened Wrappers
  import opened PyBuiltins
  import opened JsonValue
  import opened Helpers
  import opened RedisStore
  import opened Notifications
  import opened PriceChecking

  /** The `Product` request model, fields in declaration order. */
  datatype Product = Product(
    title: string,
    price: real,
    targetPrice: real,
    imageUrl: string,
    productUrl: string,
    marketplace: string)

  /** The `HTTPException` the endpoints raise. */
  datatype HttpError = HttpError(status: int, detail: string)

  const Forbidden: HttpError := HttpError(403, "Invalid token")

  /** `product.dict()`: the fields under their declared, camel-case names. */
  function ProductDict(p: Product): (r: Json)
    ensures r.JObject? && |r.fields| == 6
  {
    JObject([
      ("title", JStr(p.title)),
      ("price", JNum(p.price)),
      ("targetPrice", JNum(p.targetPrice)),
      ("imageUrl", JStr(p.imageUrl)),
      ("productUrl", JStr(p.productUrl)),
      ("marketplace", JStr(p.marketplace))])
  }

  /** The dicts of a request's products, in request order: what
      `save_products` pushes onto `products:{id}`. */
  function ProductDicts(products: seq<Product>): (r: seq<Json>)
    ensures |r| == |products|
    ensures forall i :: 0 <= i < |products| ==> r[i] == ProductDict(products[i])
  {
    seq(|products|, i requires 0 <= i < |products| => ProductDict(products[i]))
  }

  /** The declared names of the six `Product` fields, in declaration order. */
  const FieldNames: seq<string> := ["title", "price", "targetPrice", "imageUrl", "productUrl", "marketplace"]

  /** The names `normalize_keys` gives them, which the price checker reads. */
  const SnakeNames: seq<string> := ["title", "price", "target_price", "image_url", "product_url", "marketplace"]

  /** Reads a JSON object as a `Product`, its six fields under `names`:
      with `FieldNames` this is validation against the `Product` model, with
      `SnakeNames` it reads a record the way the price checker names the
      fields. `None` when a field is missing or of the wrong kind. */
  function ReadProduct(j: Json, names: seq<string>): (r: Option<Product>)
    requires |names| == 6
    ensures r.Some? ==> j.JObject? && Subscript(j, names[4]) == Success(JStr(r.value.productUrl))
  {
    match (Subscript(j, names[0]), Subscript(j, names[1]), Subscript(j, names[2]),
           Subscript(j, names[3]), Subscript(j, names[4]), Subscript(j, names[5]))
    case (Success(JStr(title)), Success(JNum(price)), Success(JNum(target)),
          Success(JStr(image)), Success(JStr(url)), Success(JStr(market))) =>
      Some(Product(title, price, target, image, url, market))
    case _ => None
  }

  /** A key that no earlier pair has is found with its own value. */
  lemma {:induction false} LookupAt(fields: seq<(string, Json)>, j: nat)
    requires j < |fields|
    requires forall i :: 0 <= i < j ==> fields[i].0 != fields[j].0
    ensures Lookup(fields, fields[j].0) == Some(fields[j].1)
    decreases j
  {
    if j > 0 {
      assert fields[1..][j - 1] == fields[j];
      LookupAt(fields[1..], j - 1);
    }
  }

  /** In a dict whose keys are the distinct `names`, field `j` is found under
      its name. */
  lemma NamedLookup(d: Json, names: seq<string>, j: nat)
    requires d.JObject? && j < |d.fields| == |names|
    requires forall i :: 0 <= i < |names| ==> d.fields[i].0 == names[i]
    requires forall i, k :: 0 <= i < k < |names| ==> names[i] != names[k]
    ensures Subscript(d, names[j]) == Success(d.fields[j].1)
  {
    LookupAt(d.fields, j);
  }

  /** The six declared field names differ from one another. */
  lemma DistinctFieldNames(names: seq<string>)
    requires names == FieldNames
    ensures forall i, k :: 0 <= i < k < 6 ==> names[i] != names[k]
  {
    assert |names[0]| == 5 && |names[1]| == 5 && |names[2]| == 11;
    assert |names[3]| == 8 && |names[4]| == 10 && |names[5]| == 11;
    assert names[0][0] != names[1][0];
    assert names[2][0] != names[5][0];
  }

  /** Field `j` of the product dict is found under its declared name. */
  lemma ProductDictField(p: Product, names: seq<string>, j: nat)
    requires names == FieldNames
    requires j < 6
    ensures Subscript(ProductDict(p), names[j]) == Success(ProductDict(p).fields[j].1)
  {
    DistinctFieldNames(names);
    NamedLookup(ProductDict(p), names, j);
  }

  /** Every field of the product is found in its dict under its declared
      name. */
  lemma ProductDictFields(p: Product)
    ensures Subscript(ProductDict(p), "title") == Success(JStr(p.title))
    ensures Subscript(ProductDict(p), "price") == Success(JNum(p.price))
    ensures Subscript(ProductDict(p), "targetPrice") == Success(JNum(p.targetPrice))
    ensures Subscript(ProductDict(p), "imageUrl") == Success(JStr(p.imageUrl))
    ensures Subscript(ProductDict(p), "productUrl") == Success(JStr(p.productUrl))
    ensures Subscript(ProductDict(p), "marketplace") == Success(JStr(p.marketplace))
  {
    var names := FieldNames;
    ProductDictField(p, names, 0);
    ProductDictField(p, names, 1);
    ProductDictField(p, names, 2);
    ProductDictField(p, names, 3);
    ProductDictField(p, names, 4);
    ProductDictField(p, names, 5);
  }

  /** A product's dict validates back into the same product. */
  lemma ProductDictRoundTrip(p: Product)
    ensures ReadProduct(ProductDict(p), FieldNames) == Some(p)
  {
    ProductDictFields(p);
  }

  /** `save_products`: 403 and nothing written unless the token matches the
      stored one (a user never registered has none); otherwise the list is
      replaced by the products' dicts, in order. */
  function AfterApiSave(ks: Keyspace, id: int, token: string, products: seq<Product>): (r: Result<Keyspace, HttpError>)
    ensures r.Failure? <==> TokenOf(ks, id) != Some(token)
    ensures r.Failure? ==> r.error == Forbidden
    ensures r.Success? ==> ProductsOf(r.value, id) == ProductDicts(products)
    ensures r.Success? ==> r.value.users == ks.users && r.value.parsed == ks.parsed
    ensures r.Success? ==> forall other :: other != id ==> ProductsOf(r.value, other) == ProductsOf(ks, other)
  {
    if TokenOf(ks, id) != Some(token) then Failure(Forbidden)
    else Success(AfterSaveProducts(ks, id, ProductDicts(products)))
  }

  /** `get_products`: 403 unless the token matches; otherwise the stored list,
      empty for a user without one. */
  function ApiGet(ks: Keyspace, id: int, token: string): (r: Result<seq<Json>, HttpError>)
    ensures r.Failure? <==> TokenOf(ks, id) != Some(token)
    ensures r.Failure? ==> r.error == Forbidden
    ensures r.Success? ==> r.value == ProductsOf(ks, id)
  {
    if TokenOf(ks, id) != Some(token) then Failure(Forbidden) else Success(ProductsOf(ks, id))
  }

  /** Saving and then reading with the same valid token gives back the dicts
      of the products, in the same order, and each validates back into the
      product that was sent. */
  lemma SaveThenGet(ks: Keyspace, id: int, token: string, products: seq<Product>)
    requires TokenOf(ks, id) == Some(token)
    ensures AfterApiSave(ks, id, token, products).Success?
    ensures var after := AfterApiSave(ks, id, token, products).value;
      && ApiGet(after, id, token) == Success(ProductDicts(products))
      && forall i :: 0 <= i < |products| ==> ReadProduct(ApiGet(after, id, token).value[i], FieldNames) == Some(products[i])
  {
    var after := AfterApiSave(ks, id, token, products).value;
    assert TokenOf(after, id) == TokenOf(ks, id);
    forall i | 0 <= i < |products|
      ensures ReadProduct(ApiGet(after, id, token).value[i], FieldNames) == Some(products[i])
    {
      ProductDictRoundTrip(products[i]);
    }
  }

  /** A save never touches the token: whatever it did, the same token is
      still accepted afterwards. */
  lemma SaveKeepsToken(ks: Keyspace, id: int, token: string, products: seq<Product>, other: int)
    ensures var r := AfterApiSave(ks, id, token, products);
      r.Success? ==> TokenOf(r.value, other) == TokenOf(ks, other)
  {
  }

  // ---------------------------------------------------------------------------
  // What the price checker makes of the saved records
  // ---------------------------------------------------------------------------

  /** A product dict has no `product_url` key, so the checker raises
      `KeyError('product_url')` on it before it even fetches the page. */
  lemma CheckerRejectsProductDict(id: int, p: Product, priceOf: string -> Option<real>, ks: Keyspace)
    ensures Decide(id, ProductDict(p), priceOf, ks) == Raise(KeyError("product_url"))
  {
    var f := ProductDict(p).fields;
    assert Lookup(f, "product_url") == None by {
      forall i | 0 <= i < |f| ensures f[i].0 != "product_url" {
        assert f[i].0 in {"title", "price", "targetPrice", "imageUrl", "productUrl", "marketplace"};
        assert "product_url"[7] == '_';
        assert "productUrl"[7] == 'U';
      }
    }
  }

  /** After a successful save, the checker raises `KeyError('product_url')`
      on every product of that user's list. */
  lemma SavedProductsRaise(ks: Keyspace, id: int, token: string, products: seq<Product>,
                           priceOf: string -> Option<real>)
    requires TokenOf(ks, id) == Some(token)
    ensures var after := AfterApiSave(ks, id, token, products).value;
      forall i :: 0 <= i < |ProductsOf(after, id)| ==>
        Decide(id, ProductsOf(after, id)[i], priceOf, after) == Raise(KeyError("product_url"))
  {
    var after := AfterApiSave(ks, id, token, products).value;
    forall i | 0 <= i < |ProductsOf(after, id)|
      ensures Decide(id, ProductsOf(after, id)[i], priceOf, after) == Raise(KeyError("product_url"))
    {
      CheckerRejectsProductDict(id, products[i], priceOf, after);
    }
  }

  /** Checks that all raise the same exception change nothing and leave that
      exception behind, unless one was pending already. */
  lemma {:induction false} CheckProductsAllRaise(t: Trace, id: int, items: seq<Json>,
                                                 priceOf: string -> Option<real>, deliver: Alert -> bool, e: Exception)
    requires forall i :: 0 <= i < |items| ==> Decide(id, items[i], priceOf, t.db) == Raise(e)
    ensures CheckProducts(t, id, items, priceOf, deliver)
         == (if items == [] then t else t.(error := FirstError(t.error, Some(e))))
    decreases |items|
  {
    if items != [] {
      var prefix := items[..|items| - 1];
      CheckProductsAllRaise(t, id, prefix, priceOf, deliver, e);
    }
  }

  /** The user's checks after a successful save: no alert is sent, nothing is
      marked, and a non-empty list ends in `KeyError('product_url')`. */
  lemma SavedProductsNeverAlert(ks: Keyspace, id: int, token: string, products: seq<Product>,
                                sent: seq<Alert>, priceOf: string -> Option<real>, deliver: Alert -> bool)
    requires TokenOf(ks, id) == Some(token)
    ensures var after := AfterApiSave(ks, id, token, products).value;
      CheckProducts(Trace(after, sent, None), id, ProductsOf(after, id), priceOf, deliver)
      == Trace(after, sent, if products == [] then None else Some(KeyError("product_url")))
  {
    var after := AfterApiSave(ks, id, token, products).value;
    SavedProductsRaise(ks, id, token, products, priceOf);
    CheckProductsAllRaise(Trace(after, sent, None), id, ProductsOf(after, id), priceOf, deliver, KeyError("product_url"));
  }

  // ---------------------------------------------------------------------------
  // The save with the keys renamed by `normalize_keys`
  // ---------------------------------------------------------------------------

  /** A product's dict with the keys renamed by `normalize_keys`, so that the
      price checker finds `product_url`, `target_price` and `title`. */
  function NormalizedRecord(p: Product): (r: Json)
    ensures r.JObject?
  {
    NormalizeKeys(ProductDict(p))
  }

  /** The normalized records of a request's products, in request order. */
  function NormalizedRecords(products: seq<Product>): (r: seq<Json>)
    ensures |r| == |products|
    ensures forall i :: 0 <= i < |products| ==> r[i] == NormalizedRecord(products[i])
  {
    seq(|products|, i requires 0 <= i < |products| => NormalizedRecord(products[i]))
  }

  /** The last pair whose key renames to `key` is the one `normalize_keys`
      keeps. */
  lemma {:induction false} LastRenamedAt(fields: seq<(string, Json)>, j: nat, key: string)
    requires j < |fields| && ToSnakeCase(fields[j].0) == key
    requires forall i :: j < i < |fields| ==> ToSnakeCase(fields[i].0) != key
    ensures LastRenamed(fields, key) == Some(fields[j].1)
    decreases |fields|
  {
    if j < |fields| - 1 {
      LastRenamedAt(fields[..|fields| - 1], j, key);
    }
  }

  /** A key with one capital renames to the snake-case `name` spelled out
      from its parts. */
  lemma CamelKey(key: string, a: string, c: char, b: string, name: string)
    requires a != [] && NoUpper(a) && NoUpper(b) && IsUpper(c)
    requires key == a + [c] + b && name == a + "_" + [Lower(c)] + b
    ensures ToSnakeCase(key) == name
  {
    ToSnakeCaseOneCapital(a, c, b);
  }

  /** The names `normalize_keys` gives the six keys of a product dict. */
  lemma KeyNames(f: seq<(string, Json)>, names: seq<string>)
    requires |f| == 6 && |names| == 6
    requires f[0].0 == "title" && f[1].0 == "price" && f[2].0 == "targetPrice"
    requires f[3].0 == "imageUrl" && f[4].0 == "productUrl" && f[5].0 == "marketplace"
    requires names == SnakeNames
    ensures forall i :: 0 <= i < 6 ==> ToSnakeCase(f[i].0) == names[i]
  {
    forall i | 0 <= i < 6 ensures ToSnakeCase(f[i].0) == names[i] {
      if i == 2 {
        CamelKey(f[i].0, "target", 'P', "rice", names[i]);
      } else if i == 3 {
        CamelKey(f[i].0, "image", 'U', "rl", names[i]);
      } else if i == 4 {
        CamelKey(f[i].0, "product", 'U', "rl", names[i]);
      } else {
        ToSnakeCaseKeepsSnake(f[i].0);
      }
    }
  }

  /** The six renamed keys differ from one another. */
  lemma DistinctNames(names: seq<string>)
    requires names == SnakeNames
    ensures forall i, k :: 0 <= i < k < 6 ==> names[i] != names[k]
  {
    assert |names[0]| == 5 && |names[1]| == 5 && |names[2]| == 12;
    assert |names[3]| == 9 && |names[4]| == 11 && |names[5]| == 11;
    assert names[0][0] != names[1][0];
    assert names[4][0] != names[5][0];
  }

  /** In a dict of scalars whose keys rename to distinct names, each value is
      found under its key's new name after `normalize_keys`. */
  lemma RenamedLookup(d: Json, names: seq<string>, j: nat)
    requires d.JObject? && j < |d.fields| == |names|
    requires forall i :: 0 <= i < |names| ==> ToSnakeCase(d.fields[i].0) == names[i]
    requires forall i, k :: 0 <= i < k < |names| ==> names[i] != names[k]
    requires !d.fields[j].1.JList? && !d.fields[j].1.JObject?
    ensures Subscript(NormalizeKeys(d), names[j]) == Success(d.fields[j].1)
  {
    LastRenamedAt(d.fields, j, names[j]);
    NormalizeKeysLookup(d, names[j]);
  }

  /** Field `j` of the product dict is found under its renamed key. */
  lemma NormalizedRecordField(p: Product, names: seq<string>, j: nat)
    requires names == SnakeNames
    requires j < 6
    ensures Subscript(NormalizedRecord(p), names[j]) == Success(ProductDict(p).fields[j].1)
  {
    var d := ProductDict(p);
    KeyNames(d.fields, names);
    DistinctNames(names);
    if j == 0 { RenamedLookup(d, names, 0); }
    else if j == 1 { RenamedLookup(d, names, 1); }
    else if j == 2 { RenamedLookup(d, names, 2); }
    else if j == 3 { RenamedLookup(d, names, 3); }
    else if j == 4 { RenamedLookup(d, names, 4); }
    else { RenamedLookup(d, names, 5); }
  }

  /** Every field of the product is found in its normalized record under its
      snake-case name. */
  lemma NormalizedRecordFields(p: Product)
    ensures Subscript(NormalizedRecord(p), "title") == Success(JStr(p.title))
    ensures Subscript(NormalizedRecord(p), "price") == Success(JNum(p.price))
    ensures Subscript(NormalizedRecord(p), "target_price") == Success(JNum(p.targetPrice))
    ensures Subscript(NormalizedRecord(p), "image_url") == Success(JStr(p.imageUrl))
    ensures Subscript(NormalizedRecord(p), "product_url") == Success(JStr(p.productUrl))
    ensures Subscript(NormalizedRecord(p), "marketplace") == Success(JStr(p.marketplace))
  {
    var names := SnakeNames;
    NormalizedRecordField(p, names, 0);
    NormalizedRecordField(p, names, 1);
    NormalizedRecordField(p, names, 2);
    NormalizedRecordField(p, names, 3);
    NormalizedRecordField(p, names, 4);
    NormalizedRecordField(p, names, 5);
  }

  /** A normalized record reads back as the submitted product. */
  lemma NormalizedRecordRoundTrip(p: Product)
    ensures ReadProduct(NormalizedRecord(p), SnakeNames) == Some(p)
  {
    NormalizedRecordFields(p);
  }

  /** `save_products` with `normalize_keys` applied to each dict before it is
      pushed: the same token check, the normalized records stored in order. */
  function AfterApiSaveNormalized(ks: Keyspace, id: int, token: string, products: seq<Product>)
    : (r: Result<Keyspace, HttpError>)
    ensures r.Failure? <==> TokenOf(ks, id) != Some(token)
    ensures r.Failure? ==> r.error == Forbidden
    ensures r.Success? ==> ProductsOf(r.value, id) == NormalizedRecords(products)
    ensures r.Success? ==> r.value.users == ks.users && r.value.parsed == ks.parsed
    ensures r.Success? ==> forall other :: other != id ==> ProductsOf(r.value, other) == ProductsOf(ks, other)
  {
    if TokenOf(ks, id) != Some(token) then Failure(Forbidden)
    else Success(AfterSaveProducts(ks, id, NormalizedRecords(products)))
  }

  /** With the keys renamed, saving and then reading gives back records that
      read as the same products in the same order. */
  lemma SaveThenGetNormalized(ks: Keyspace, id: int, token: string, products: seq<Product>)
    requires TokenOf(ks, id) == Some(token)
    ensures AfterApiSaveNormalized(ks, id, token, products).Success?
    ensures var after := AfterApiSaveNormalized(ks, id, token, products).value;
      && ApiGet(after, id, token).Success?
      && |ApiGet(after, id, token).value| == |products|
      && forall i :: 0 <= i < |products| ==> ReadProduct(ApiGet(after, id, token).value[i], SnakeNames) == Some(products[i])
  {
    var after := AfterApiSaveNormalized(ks, id, token, products).value;
    assert TokenOf(after, id) == TokenOf(ks, id);
    forall i | 0 <= i < |products|
      ensures ReadProduct(ApiGet(after, id, token).value[i], SnakeNames) == Some(products[i])
    {
      NormalizedRecordRoundTrip(products[i]);
    }
  }

  /** A normalized record alerts once its price reaches the target it was
      saved with. */
  lemma CheckerReadsNormalizedRecord(id: int, p: Product, priceOf: string -> Option<real>, ks: Keyspace, price: real)
    requires priceOf(p.productUrl) == Some(price) && price != 0.0 && price <= p.targetPrice
    requires !IsParsed(ks, id, p.productUrl)
    ensures Decide(id, NormalizedRecord(p), priceOf, ks)
         == Notify(Alert(id, JStr(p.title), price, JNum(p.targetPrice), p.productUrl))
  {
    NormalizedRecordFields(p);
    DecideNotifies(id, NormalizedRecord(p), priceOf, ks, p.productUrl, price, JNum(p.targetPrice), JStr(p.title));
  }

  /** After a save with the keys renamed, each saved product whose fetched
      price has reached its target, and whose URL is not marked yet, alerts
      with its own title, price, target and URL. */
  lemma NormalizedSaveAlerts(ks: Keyspace, id: int, token: string, products: seq<Product>,
                             priceOf: string -> Option<real>, i: nat, price: real)
    requires TokenOf(ks, id) == Some(token) && i < |products|
    requires priceOf(products[i].productUrl) == Some(price) && price != 0.0 && price <= products[i].targetPrice
    requires !IsParsed(ks, id, products[i].productUrl)
    ensures var after := AfterApiSaveNormalized(ks, id, token, products).value;
      Decide(id, ProductsOf(after, id)[i], priceOf, after)
      == Notify(Alert(id, JStr(products[i].title), price, JNum(products[i].targetPrice), products[i].productUrl))
  {
    var after := AfterApiSaveNormalized(ks, id, token, products).value;
    assert ParsedOf(after, id) == ParsedOf(ks, id);
    CheckerReadsNormalizedRecord(id, products[i], priceOf, after, price);
  }

  // ---------------------------------------------------------------------------
  // The endpoints
  // ---------------------------------------------------------------------------

  class Api {
    const store: RedisClient

    constructor (store: RedisClient)
      ensures this.store == store
    {
      this.store := store;
    }

    /** `POST /api/save-products` */
    method SaveProducts(id: int, token: string, products: seq<Product>) returns (error: Option<HttpError>)
      modifies store
      ensures var r := AfterApiSave(old(store.State()), id, token, products);
        && (r.Failure? ==> error == Some(r.error) && store.State() == old(store.State()))
        && (r.Success? ==> error == None && store.State() == r.value)
    {
      var records := [];
      for i := 0 to |products|
        invariant records == ProductDicts(products[..i])
      {
        records := records + [ProductDict(products[i])];
      }
      assert products[..|products|] == products;
      var stored := store.GetUserToken(id);
      if stored != Some(token) {
        return Some(Forbidden);
      }
      store.SaveProducts(id, records);
      error := None;
    }

    /** `GET /api/get-products` */
    method GetProducts(id: int, token: string) returns (r: Result<seq<Json>, HttpError>)
      ensures r == ApiGet(store.State(), id, token)
    {
      var stored := store.GetUserToken(id);
      if stored != Some(token) {
        return Failure(Forbidden);
      }
      var items := store.GetProducts(id);
      r := Success(items);
    }
  }
}
