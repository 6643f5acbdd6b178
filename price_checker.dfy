/**
 * `PriceChecker` (bot/services/price_checker.py): for one stored product of a
 * user, fetch the current price and, when it has reached the target and the
 * product's URL is not yet in the user's `parsed` set, send one alert and add
 * the URL to the set. One monitoring cycle does this for every product of
 * every user the store lists.
 *
 * The price fetch is the function `priceOf` (what `get_price` returns for a
 * URL during the cycle) and the chat platform's answer is `deliver`.
 * A product is the decoded JSON record stored in `products:{id}`.
 */
module PriceChecking {
  import opened Wrappers
  import opened PyBuiltins
  import opened JsonValue
  import opened RedisStore
  import opened Notifications

  /** What `check_price_for_product` does for one product. */
  datatype Verdict = Quiet | Notify(alert: Alert) | Raise(error: Exception)

  /** `get_price(product['product_url'])`: a URL that is not a string makes
      the request fail, which `get_price` turns into `None`. */
  function FetchedPrice(url: Json, priceOf: string -> Option<real>): (r: Option<real>)
    ensures r.Some? ==> url.JStr? && priceOf(url.str) == r
  {
    if url.JStr? then priceOf(url.str) else None
  }

  /** The decision of `check_price_for_product`, in the order the source reads
      the record: the URL, the price (`None` and `0.0` are falsy), the target,
      the `parsed` set, the title. */
  function Decide(id: int, product: Json, priceOf: string -> Option<real>, ks: Keyspace): (v: Verdict)
    ensures v.Notify? ==>
      && v.alert.userId == id
      && Subscript(product, "product_url") == Success(JStr(v.alert.productUrl))
      && priceOf(v.alert.productUrl) == Some(v.alert.currentPrice)
      && v.alert.currentPrice != 0.0
      && Subscript(product, "target_price") == Success(v.alert.targetPrice)
      && NumericValue(v.alert.targetPrice).Some?
      && v.alert.currentPrice <= NumericValue(v.alert.targetPrice).value
      && !IsParsed(ks, id, v.alert.productUrl)
      && Subscript(product, "title") == Success(v.alert.productTitle)
    ensures Subscript(product, "product_url").Failure? ==> v == Raise(Subscript(product, "product_url").error)
    ensures (Subscript(product, "product_url").Success? &&
             FetchedPrice(Subscript(product, "product_url").value, priceOf) in {None, Some(0.0)}) ==> v == Quiet
  {
    match Subscript(product, "product_url")
    case Failure(e) => Raise(e)
    case Success(url) =>
      var price := FetchedPrice(url, priceOf);
      if price.None? || price.value == 0.0 then Quiet
      else
        match Subscript(product, "target_price")
        case Failure(e) => Raise(e)
        case Success(target) =>
          match NumericValue(target)
          case None => Raise(TypeError)
          case Some(bound) =>
            if !(price.value <= bound) then Quiet
            else if IsParsed(ks, id, url.str) then Quiet
            else
              match Subscript(product, "title")
              case Failure(e) => Raise(e)
              case Success(title) => Notify(Alert(id, title, price.value, target, url.str))
  }

  /** A record whose price has reached its target, equality included, and
      whose URL is not yet parsed gets exactly this alert. */
  lemma DecideNotifies(id: int, product: Json, priceOf: string -> Option<real>, ks: Keyspace,
                       url: string, price: real, target: Json, title: Json)
    requires Subscript(product, "product_url") == Success(JStr(url))
    requires priceOf(url) == Some(price) && price != 0.0
    requires Subscript(product, "target_price") == Success(target)
    requires NumericValue(target).Some? && price <= NumericValue(target).value
    requires !IsParsed(ks, id, url)
    requires Subscript(product, "title") == Success(title)
    ensures Decide(id, product, priceOf, ks) == Notify(Alert(id, title, price, target, url))
  {
  }

  /** A price above the target never alerts, whatever the `parsed` set holds. */
  lemma DecideAboveTarget(id: int, product: Json, priceOf: string -> Option<real>, ks: Keyspace,
                          url: string, price: real, target: Json)
    requires Subscript(product, "product_url") == Success(JStr(url))
    requires priceOf(url) == Some(price)
    requires Subscript(product, "target_price") == Success(target)
    requires NumericValue(target).Some? && price > NumericValue(target).value
    ensures Decide(id, product, priceOf, ks) == Quiet
  {
  }

  /** The decision reads the store only through the user's `parsed` set, and
      a larger set can only silence it. */
  lemma DecideQuietStays(id: int, product: Json, priceOf: string -> Option<real>, ks: Keyspace, later: Keyspace)
    requires ParsedOf(ks, id) <= ParsedOf(later, id)
    requires Decide(id, product, priceOf, ks) == Quiet
    ensures Decide(id, product, priceOf, later) == Quiet
  {
    match Subscript(product, "product_url")
    case Failure(_) =>
    case Success(url) =>
      if url.JStr? && IsParsed(ks, id, url.str) {
        assert IsParsed(later, id, url.str);
      }
  }

  /** The store and the delivered alerts as a cycle goes on, with the first
      exception raised so far. */
  datatype Trace = Trace(db: Keyspace, sent: seq<Alert>, error: Option<Exception>)

  /** `parsed` sets only grow. */
  ghost predicate ParsedGrows(before: Keyspace, after: Keyspace) {
    forall id :: ParsedOf(before, id) <= ParsedOf(after, id)
  }

  /** The first exception of the two. */
  function FirstError(first: Option<Exception>, next: Option<Exception>): (r: Option<Exception>)
    ensures first.Some? ==> r == first
    ensures first.None? ==> r == next
  {
    if first.Some? then first else next
  }

  /** The exception a check ends with: the one the decision raised, or the
      refusal of the chat platform to deliver the alert. */
  function VerdictError(v: Verdict, deliver: Alert -> bool): (r: Option<Exception>)
    ensures r.None? <==> v.Quiet? || (v.Notify? && deliver(v.alert))
  {
    match v
    case Quiet => None
    case Raise(e) => Some(e)
    case Notify(a) => if deliver(a) then None else Some(DeliveryError)
  }

  /** `check_price_for_product(id, product)` on the store `ks`: the alert is
      sent before the URL is marked, so a refused delivery marks nothing. */
  function CheckProduct(t: Trace, id: int, product: Json, priceOf: string -> Option<real>,
                        deliver: Alert -> bool): (r: Trace)
    ensures r.db.users == t.db.users && r.db.products == t.db.products
    ensures ParsedGrows(t.db, r.db)
    ensures t.error.Some? ==> r.error == t.error
    ensures Decide(id, product, priceOf, t.db).Notify? && deliver(Decide(id, product, priceOf, t.db).alert) ==>
      var a := Decide(id, product, priceOf, t.db).alert;
      r.db == AfterMarkParsed(t.db, id, a.productUrl) && r.sent == t.sent + [a]
    ensures !(Decide(id, product, priceOf, t.db).Notify? && deliver(Decide(id, product, priceOf, t.db).alert)) ==>
      r.db == t.db && r.sent == t.sent
    ensures t.error.None? ==> r.error == VerdictError(Decide(id, product, priceOf, t.db), deliver)
  {
    match Decide(id, product, priceOf, t.db)
    case Quiet => t
    case Raise(e) => t.(error := FirstError(t.error, Some(e)))
    case Notify(a) =>
      if deliver(a) then Trace(AfterMarkParsed(t.db, id, a.productUrl), t.sent + [a], t.error)
      else t.(error := FirstError(t.error, Some(DeliveryError)))
  }

  /** `gather` over the checks of one user's products, taken in list order:
      every check runs, and the first exception is the one that escapes. */
  function CheckProducts(t: Trace, id: int, products: seq<Json>, priceOf: string -> Option<real>,
                         deliver: Alert -> bool): (r: Trace)
    ensures r.db.users == t.db.users && r.db.products == t.db.products
    ensures ParsedGrows(t.db, r.db)
    ensures t.sent <= r.sent
    ensures t.error.Some? ==> r.error == t.error
    decreases |products|
  {
    if products == [] then t
    else
      var before := CheckProducts(t, id, products[..|products| - 1], priceOf, deliver);
      CheckProduct(before, id, products[|products| - 1], priceOf, deliver)
  }

  /** The `for user_id in users` loop of one cycle: the products are read from
      the store when the user's turn comes, and an exception ends the cycle
      after that user's checks. */
  function CheckUsers(t: Trace, users: seq<int>, priceOf: string -> Option<real>,
                      deliver: Alert -> bool): (r: Trace)
    ensures r.db.users == t.db.users && r.db.products == t.db.products
    ensures ParsedGrows(t.db, r.db)
    ensures t.sent <= r.sent
    ensures t.error.Some? ==> r.error == t.error
    decreases |users|
  {
    if users == [] then t
    else
      var before := CheckUsers(t, users[..|users| - 1], priceOf, deliver);
      if before.error.Some? then before
      else
        var id := users[|users| - 1];
        CheckProducts(before, id, ProductsOf(before.db, id), priceOf, deliver)
  }

  /** Once a user's checks raised, the later users are not checked. */
  lemma {:induction false} CheckUsersStops(t: Trace, users: seq<int>, n: nat,
                                           priceOf: string -> Option<real>, deliver: Alert -> bool)
    requires n <= |users|
    requires CheckUsers(t, users[..n], priceOf, deliver).error.Some?
    ensures CheckUsers(t, users, priceOf, deliver) == CheckUsers(t, users[..n], priceOf, deliver)
    decreases |users| - n
  {
    if n < |users| {
      assert users[..n + 1][..n] == users[..n];
      CheckUsersStops(t, users, n + 1, priceOf, deliver);
    } else {
      assert users[..n] == users;
    }
  }

  /** One pass of the `while True` loop of `start_monitoring`, from the store
      `ks` and the alerts delivered before it; `listed` is what
      `get_all_users` returned. */
  function Cycle(ks: Keyspace, sent: seq<Alert>, listed: Result<seq<int>, Exception>,
                 priceOf: string -> Option<real>, deliver: Alert -> bool): (r: Trace)
    ensures r.db.users == ks.users && r.db.products == ks.products
    ensures ParsedGrows(ks, r.db)
    ensures sent <= r.sent
    ensures listed.Failure? ==> r == Trace(ks, sent, Some(listed.error))
  {
    match listed
    case Failure(e) => Trace(ks, sent, Some(e))
    case Success(users) => CheckUsers(Trace(ks, sent, None), users, priceOf, deliver)
  }

  // ---------------------------------------------------------------------------
  // At most one alert per (user, URL)
  // ---------------------------------------------------------------------------

  /** Every delivered alert has its URL in its user's `parsed` set, and no two
      delivered alerts are for the same user and URL. */
  predicate AlertsOnce(ks: Keyspace, sent: seq<Alert>) {
    && (forall i :: 0 <= i < |sent| ==> IsParsed(ks, sent[i].userId, sent[i].productUrl))
    && (forall i, j :: 0 <= i < j < |sent| ==>
          sent[i].userId != sent[j].userId || sent[i].productUrl != sent[j].productUrl)
  }

  lemma CheckProductKeepsAlertsOnce(t: Trace, id: int, product: Json, priceOf: string -> Option<real>,
                                    deliver: Alert -> bool)
    requires AlertsOnce(t.db, t.sent)
    ensures var r := CheckProduct(t, id, product, priceOf, deliver); AlertsOnce(r.db, r.sent)
  {
    var r := CheckProduct(t, id, product, priceOf, deliver);
    var v := Decide(id, product, priceOf, t.db);
    if v.Notify? && deliver(v.alert) {
      var a := v.alert;
      assert r.sent == t.sent + [a];
      forall i | 0 <= i < |t.sent|
        ensures t.sent[i].userId != a.userId || t.sent[i].productUrl != a.productUrl
      {
        assert IsParsed(t.db, t.sent[i].userId, t.sent[i].productUrl);
      }
      forall i | 0 <= i < |r.sent| ensures IsParsed(r.db, r.sent[i].userId, r.sent[i].productUrl) {
        if i < |t.sent| {
          assert r.sent[i] == t.sent[i];
          assert IsParsed(t.db, t.sent[i].userId, t.sent[i].productUrl);
        }
      }
    } else {
      forall i | 0 <= i < |r.sent| ensures IsParsed(r.db, r.sent[i].userId, r.sent[i].productUrl) {
        assert r.sent[i] == t.sent[i];
      }
    }
  }

  lemma {:induction false} CheckProductsKeepsAlertsOnce(t: Trace, id: int, products: seq<Json>,
                                                        priceOf: string -> Option<real>, deliver: Alert -> bool)
    requires AlertsOnce(t.db, t.sent)
    ensures var r := CheckProducts(t, id, products, priceOf, deliver); AlertsOnce(r.db, r.sent)
    decreases |products|
  {
    if products != [] {
      var init := products[..|products| - 1];
      CheckProductsKeepsAlertsOnce(t, id, init, priceOf, deliver);
      CheckProductKeepsAlertsOnce(CheckProducts(t, id, init, priceOf, deliver), id,
                                  products[|products| - 1], priceOf, deliver);
    }
  }

  lemma {:induction false} CheckUsersKeepsAlertsOnce(t: Trace, users: seq<int>,
                                                     priceOf: string -> Option<real>, deliver: Alert -> bool)
    requires AlertsOnce(t.db, t.sent)
    ensures var r := CheckUsers(t, users, priceOf, deliver); AlertsOnce(r.db, r.sent)
    decreases |users|
  {
    if users != [] {
      var init := users[..|users| - 1];
      CheckUsersKeepsAlertsOnce(t, init, priceOf, deliver);
      var before := CheckUsers(t, init, priceOf, deliver);
      if before.error.None? {
        var id := users[|users| - 1];
        CheckProductsKeepsAlertsOnce(before, id, ProductsOf(before.db, id), priceOf, deliver);
      }
    }
  }

  /** However many cycles run one after the other, no user is alerted twice
      about the same URL: each cycle keeps the invariant, which holds of an
      empty alert log. */
  lemma CycleKeepsAlertsOnce(ks: Keyspace, sent: seq<Alert>, listed: Result<seq<int>, Exception>,
                             priceOf: string -> Option<real>, deliver: Alert -> bool)
    requires AlertsOnce(ks, sent)
    ensures var r := Cycle(ks, sent, listed, priceOf, deliver); AlertsOnce(r.db, r.sent)
  {
    if listed.Success? {
      CheckUsersKeepsAlertsOnce(Trace(ks, sent, None), listed.value, priceOf, deliver);
    }
  }

  // ---------------------------------------------------------------------------
  // A clean cycle leaves nothing to alert
  // ---------------------------------------------------------------------------

  /** After a check that raised nothing, checking the same product again with
      the same prices stays quiet. */
  lemma CheckProductSettles(t: Trace, id: int, product: Json, priceOf: string -> Option<real>,
                            deliver: Alert -> bool)
    requires t.error.None?
    requires CheckProduct(t, id, product, priceOf, deliver).error.None?
    ensures Decide(id, product, priceOf, CheckProduct(t, id, product, priceOf, deliver).db) == Quiet
  {
    var r := CheckProduct(t, id, product, priceOf, deliver);
    var v := Decide(id, product, priceOf, t.db);
    if v.Notify? {
      assert IsParsed(r.db, id, v.alert.productUrl);
    }
  }

  lemma {:induction false} CheckProductsSettles(t: Trace, id: int, products: seq<Json>,
                                                priceOf: string -> Option<real>, deliver: Alert -> bool)
    requires t.error.None?
    requires CheckProducts(t, id, products, priceOf, deliver).error.None?
    ensures var r := CheckProducts(t, id, products, priceOf, deliver);
      forall k :: 0 <= k < |products| ==> Decide(id, products[k], priceOf, r.db) == Quiet
    decreases |products|
  {
    if products != [] {
      var init := products[..|products| - 1];
      var last := products[|products| - 1];
      var before := CheckProducts(t, id, init, priceOf, deliver);
      var r := CheckProduct(before, id, last, priceOf, deliver);
      CheckProductsSettles(t, id, init, priceOf, deliver);
      CheckProductSettles(before, id, last, priceOf, deliver);
      forall k | 0 <= k < |products| ensures Decide(id, products[k], priceOf, r.db) == Quiet {
        if k < |init| {
          assert products[k] == init[k];
          DecideQuietStays(id, init[k], priceOf, before.db, r.db);
        }
      }
    }
  }

  /** After a cycle that raised nothing, no product of a listed user is due
      an alert any more: every one was checked, and each whose price reached
      its target has its URL in the `parsed` set. */
  lemma {:induction false} CheckUsersSettles(t: Trace, users: seq<int>,
                                             priceOf: string -> Option<real>, deliver: Alert -> bool)
    requires t.error.None?
    requires CheckUsers(t, users, priceOf, deliver).error.None?
    ensures var r := CheckUsers(t, users, priceOf, deliver);
      forall i, k :: 0 <= i < |users| && 0 <= k < |ProductsOf(t.db, users[i])| ==>
        Decide(users[i], ProductsOf(t.db, users[i])[k], priceOf, r.db) == Quiet
    decreases |users|
  {
    if users != [] {
      var init := users[..|users| - 1];
      var id := users[|users| - 1];
      var before := CheckUsers(t, init, priceOf, deliver);
      assert before.error.None?;
      var r := CheckProducts(before, id, ProductsOf(before.db, id), priceOf, deliver);
      CheckUsersSettles(t, init, priceOf, deliver);
      CheckProductsSettles(before, id, ProductsOf(before.db, id), priceOf, deliver);
      assert ProductsOf(before.db, id) == ProductsOf(t.db, id);
      forall i, k | 0 <= i < |users| && 0 <= k < |ProductsOf(t.db, users[i])|
        ensures Decide(users[i], ProductsOf(t.db, users[i])[k], priceOf, r.db) == Quiet
      {
        if i < |init| {
          assert users[i] == init[i];
          DecideQuietStays(users[i], ProductsOf(t.db, users[i])[k], priceOf, before.db, r.db);
        }
      }
    }
  }

  /** A cycle over a covering scan that ends without an exception leaves every
      product of every stored user quiet. */
  lemma CycleSettlesStoredUsers(ks: Keyspace, sent: seq<Alert>, scan: string -> ScanReply, fuel: nat,
                                priceOf: string -> Option<real>, deliver: Alert -> bool)
    requires ScanCovers(ks, scan, fuel)
    requires Cycle(ks, sent, UserIds(ScanKeys(scan, "0", fuel)), priceOf, deliver).error.None?
    ensures var r := Cycle(ks, sent, UserIds(ScanKeys(scan, "0", fuel)), priceOf, deliver);
      forall id, k :: id in ks.users && 0 <= k < |ProductsOf(ks, id)| ==>
        Decide(id, ProductsOf(ks, id)[k], priceOf, r.db) == Quiet
  {
    var listed := UserIds(ScanKeys(scan, "0", fuel));
    var users := listed.value;
    var r := Cycle(ks, sent, listed, priceOf, deliver);
    CheckUsersSettles(Trace(ks, sent, None), users, priceOf, deliver);
    ListedCoversStored(ks, scan, fuel);
    forall id, k | id in ks.users && 0 <= k < |ProductsOf(ks, id)|
      ensures Decide(id, ProductsOf(ks, id)[k], priceOf, r.db) == Quiet
    {
      var i :| 0 <= i < |users| && users[i] == id;
    }
  }

  // ---------------------------------------------------------------------------
  // The checker
  // ---------------------------------------------------------------------------

  class PriceChecker {
    const store: RedisClient
    const notifier: NotificationService

    constructor (store: RedisClient, notifier: NotificationService)
      ensures this.store == store && this.notifier == notifier
    {
      this.store := store;
      this.notifier := notifier;
    }

    /** `check_price_for_product(user_id, product)`, with the exception it
        raises as the result. */
    method CheckPriceForProduct(id: int, product: Json, priceOf: string -> Option<real>, deliver: Alert -> bool)
      returns (error: Option<Exception>)
      modifies store, notifier
      ensures var r := CheckProduct(Trace(old(store.State()), old(notifier.sent), None), id, product, priceOf, deliver);
        store.State() == r.db && notifier.sent == r.sent && error == r.error
    {
      var url := Subscript(product, "product_url");
      if url.Failure? {
        return Some(url.error);
      }
      var price := FetchedPrice(url.value, priceOf);
      if price.None? || price.value == 0.0 {
        return None;
      }
      var target := Subscript(product, "target_price");
      if target.Failure? {
        return Some(target.error);
      }
      var bound := NumericValue(target.value);
      if bound.None? {
        return Some(TypeError);
      }
      if !(price.value <= bound.value) {
        return None;
      }
      var seen := store.IsAlreadyParsed(id, url.value.str);
      if seen {
        return None;
      }
      var title := Subscript(product, "title");
      if title.Failure? {
        return Some(title.error);
      }
      var alert := Alert(id, title.value, price.value, target.value, url.value.str);
      error := notifier.SendPriceAlert(alert, deliver);
      if error.None? {
        store.MarkAsParsed(id, url.value.str);
      }
    }

    /** The checks of one user's products, all run, the first exception kept. */
    method CheckUserProducts(id: int, products: seq<Json>, priceOf: string -> Option<real>, deliver: Alert -> bool)
      returns (error: Option<Exception>)
      modifies store, notifier
      ensures var r := CheckProducts(Trace(old(store.State()), old(notifier.sent), None), id, products, priceOf, deliver);
        store.State() == r.db && notifier.sent == r.sent && error == r.error
    {
      error := None;
      for j := 0 to |products|
        invariant Trace(store.State(), notifier.sent, error)
               == CheckProducts(Trace(old(store.State()), old(notifier.sent), None), id, products[..j], priceOf, deliver)
      {
        var e := CheckPriceForProduct(id, products[j], priceOf, deliver);
        error := FirstError(error, e);
        assert products[..j + 1][..j] == products[..j];
      }
      assert products[..|products|] == products;
    }

    /** One pass of `start_monitoring`'s loop: list the users, then check each
        user's products; an exception ends the pass. */
    method RunCycle(scan: string -> ScanReply, ghost fuel: nat, priceOf: string -> Option<real>, deliver: Alert -> bool)
      returns (error: Option<Exception>)
      requires ScanEnds(scan, "0", fuel)
      modifies store, notifier
      ensures var r := Cycle(old(store.State()), old(notifier.sent), UserIds(ScanKeys(scan, "0", fuel)), priceOf, deliver);
        store.State() == r.db && notifier.sent == r.sent && error == r.error
    {
      var listed := store.GetAllUsers(scan, fuel);
      if listed.Failure? {
        return Some(listed.error);
      }
      var users := listed.value;
      ghost var start := Trace(store.State(), notifier.sent, None);
      error := None;
      for i := 0 to |users|
        invariant error.None?
        invariant Trace(store.State(), notifier.sent, None) == CheckUsers(start, users[..i], priceOf, deliver)
      {
        ghost var before := Trace(store.State(), notifier.sent, None);
        assert users[..i + 1][..i] == users[..i];
        assert CheckUsers(start, users[..i + 1], priceOf, deliver)
            == CheckProducts(before, users[i], ProductsOf(before.db, users[i]), priceOf, deliver);
        var products := store.GetProducts(users[i]);
        error := CheckUserProducts(users[i], products, priceOf, deliver);
        if error.Some? {
          CheckUsersStops(start, users, i + 1, priceOf, deliver);
          return;
        }
      }
      assert users[..|users|] == users;
    }
  }

  // ---------------------------------------------------------------------------
  // The scenario of two watched products
  // ---------------------------------------------------------------------------

  /** A stored record with the keys the checker reads, and the price seen
      when the product was saved. */
  function Record(title: string, seen: real, target: real, url: string): Json {
    JObject([("title", JStr(title)), ("current_price", JNum(seen)),
             ("target_price", JNum(target)), ("product_url", JStr(url))])
  }

  lemma RecordFields(title: string, seen: real, target: real, url: string)
    ensures Subscript(Record(title, seen, target, url), "title") == Success(JStr(title))
    ensures Subscript(Record(title, seen, target, url), "target_price") == Success(JNum(target))
    ensures Subscript(Record(title, seen, target, url), "product_url") == Success(JStr(url))
  {
    var f := Record(title, seen, target, url).fields;
    var kt, kc, kp, ku := "title", "current_price", "target_price", "product_url";
    assert |kt| == 5 && |kc| == 13 && |kp| == 12 && |ku| == 11;
    assert f == [(kt, JStr(title)), (kc, JNum(seen)), (kp, JNum(target)), (ku, JStr(url))];
    assert f[0] == (kt, JStr(title)) && Lookup(f, kt) == Some(JStr(title));
    var f1 := f[1..];
    var f2 := f1[1..];
    var f3 := f2[1..];
    assert f3 == [(ku, JStr(url))];
    assert Lookup(f3, ku) == Some(JStr(url));
    assert Lookup(f2, kp) == Some(JNum(target)) && Lookup(f2, ku) == Lookup(f3, ku);
    assert Lookup(f1, kp) == Lookup(f2, kp) && Lookup(f1, ku) == Lookup(f2, ku);
    assert Lookup(f, kp) == Lookup(f1, kp) && Lookup(f, ku) == Lookup(f1, ku);
  }

  /** Two products checked in turn, the first fetched at or below its target
      and the second above: one alert, for the first, and only its URL is
      marked. */
  lemma OneOfTwoAlerts(ks: Keyspace, id: int, priceOf: string -> Option<real>, deliver: Alert -> bool,
                       p1: Json, url1: string, price1: real, target1: real, title1: Json,
                       p2: Json, url2: string, price2: real, target2: real)
    requires Subscript(p1, "product_url") == Success(JStr(url1))
    requires Subscript(p1, "target_price") == Success(JNum(target1))
    requires Subscript(p1, "title") == Success(title1)
    requires priceOf(url1) == Some(price1) && price1 != 0.0 && price1 <= target1
    requires !IsParsed(ks, id, url1)
    requires Subscript(p2, "product_url") == Success(JStr(url2))
    requires Subscript(p2, "target_price") == Success(JNum(target2))
    requires priceOf(url2) == Some(price2) && price2 > target2
    requires deliver(Alert(id, title1, price1, JNum(target1), url1))
    ensures var r := CheckProducts(Trace(ks, [], None), id, [p1, p2], priceOf, deliver);
      && r.sent == [Alert(id, title1, price1, JNum(target1), url1)]
      && ParsedOf(r.db, id) == ParsedOf(ks, id) + {url1}
      && r.error == None
  {
    var t0 := Trace(ks, [], None);
    DecideNotifies(id, p1, priceOf, ks, url1, price1, JNum(target1), title1);
    var t1 := CheckProduct(t0, id, p1, priceOf, deliver);
    assert [p1, p2][..1] == [p1];
    assert CheckProducts(t0, id, [p1], priceOf, deliver) == t1 by {
      assert [p1][..0] == [];
    }
    DecideAboveTarget(id, p2, priceOf, t1.db, url2, price2, JNum(target2));
  }

  /** Two stored records checked in turn for a user with nothing marked, the
      first fetched at or below its target and the second above. */
  lemma OneOfTwoRecords(ks: Keyspace, id: int, priceOf: string -> Option<real>, deliver: Alert -> bool,
                        title1: string, seen1: real, target1: real, url1: string, price1: real,
                        title2: string, seen2: real, target2: real, url2: string, price2: real)
    requires ParsedOf(ks, id) == {}
    requires priceOf(url1) == Some(price1) && price1 != 0.0 && price1 <= target1
    requires priceOf(url2) == Some(price2) && price2 > target2
    requires deliver(Alert(id, JStr(title1), price1, JNum(target1), url1))
    ensures var r := CheckProducts(Trace(ks, [], None), id,
                                   [Record(title1, seen1, target1, url1), Record(title2, seen2, target2, url2)],
                                   priceOf, deliver);
      && r.sent == [Alert(id, JStr(title1), price1, JNum(target1), url1)]
      && ParsedOf(r.db, id) == {url1}
      && r.error == None
  {
    RecordFields(title1, seen1, target1, url1);
    RecordFields(title2, seen2, target2, url2);
    OneOfTwoAlerts(ks, id, priceOf, deliver, Record(title1, seen1, target1, url1), url1, price1, target1, JStr(title1),
                   Record(title2, seen2, target2, url2), url2, price2, target2);
    assert {} + {url1} == {url1};
  }

  /** The two watched products of the monitoring scenario: `Product 1` fetched
      at 900 against 950, `Product 2` at 1900 against 1800. */
  lemma TwoProductsOneAlert(ks: Keyspace, priceOf: string -> Option<real>, deliver: Alert -> bool)
    requires ParsedOf(ks, 12345) == {}
    requires priceOf("https://test.com/product1") == Some(900.0)
    requires priceOf("https://test.com/product2") == Some(1900.0)
    requires forall a :: deliver(a)
    ensures var r := CheckProducts(Trace(ks, [], None), 12345,
                                   [Record("Product 1", 1000.0, 950.0, "https://test.com/product1"),
                                    Record("Product 2", 2000.0, 1800.0, "https://test.com/product2")],
                                   priceOf, deliver);
      && r.sent == [Alert(12345, JStr("Product 1"), 900.0, JNum(950.0), "https://test.com/product1")]
      && ParsedOf(r.db, 12345) == {"https://test.com/product1"}
      && r.error == None
  {
    var title1, title2 := "Product 1", "Product 2";
    var url1, url2 := "https://test.com/product1", "https://test.com/product2";
    OneOfTwoRecords(ks, 12345, priceOf, deliver, title1, 1000.0, 950.0, url1, 900.0,
                    title2, 2000.0, 1800.0, url2, 1900.0);
  }
}
