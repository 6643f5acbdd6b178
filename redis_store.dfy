/**
 * `RedisClient` (database/redis_client.py): the bot's view of the Redis
 * keyspace. Three families of keys belong to a user `id`:
 *   `user:{id}`      a hash with the fields `token` and `is_active`,
 *   `products:{id}`  a list of JSON-encoded product records,
 *   `parsed:{id}`    a set of product URLs an alert was already sent for.
 * `Keyspace` is the content of those keys as a value; `RedisClient` is the
 * adapter whose methods change it step by step as the Redis commands do.
 * A list element is kept as the decoded `Json` value, since `json.loads`
 * undoes `json.dumps` on the records stored here.
 */
module RedisStore {
  import opened Wrappers
  import opened PyBuiltins
  import opened JsonValue

  /** The keys of every user. A key whose hash, list or set is empty does not
      exist in Redis, so an absent entry and an empty container read alike. */
  datatype Keyspace = Keyspace(
    users: map<int, map<string, string>>,
    products: map<int, seq<Json>>,
    parsed: map<int, set<string>>)

  /** Redis never keeps a key holding an empty container. */
  predicate Valid(ks: Keyspace) {
    && (forall id :: id in ks.users ==> ks.users[id] != map[])
    && (forall id :: id in ks.products ==> ks.products[id] != [])
    && (forall id :: id in ks.parsed ==> ks.parsed[id] != {})
  }

  /** `HGETALL user:{id}` */
  function UserHash(ks: Keyspace, id: int): (h: map<string, string>)
    ensures id !in ks.users ==> h == map[]
  {
    if id in ks.users then ks.users[id] else map[]
  }

  /** `HGET user:{id} token`, `None` for a missing key or field. */
  function TokenOf(ks: Keyspace, id: int): (r: Option<string>)
    ensures r.Some? <==> "token" in UserHash(ks, id)
    ensures r.Some? ==> r.value == UserHash(ks, id)["token"]
  {
    var h := UserHash(ks, id);
    if "token" in h then Some(h["token"]) else None
  }

  /** `LRANGE products:{id} 0 -1`, the empty list for a missing key. */
  function ProductsOf(ks: Keyspace, id: int): (r: seq<Json>)
    ensures id !in ks.products ==> r == []
  {
    if id in ks.products then ks.products[id] else []
  }

  /** `SMEMBERS parsed:{id}` */
  function ParsedOf(ks: Keyspace, id: int): (r: set<string>)
    ensures id !in ks.parsed ==> r == {}
  {
    if id in ks.parsed then ks.parsed[id] else {}
  }

  /** `save_user`: `HSET user:{id} token t`, then `HSET user:{id} is_active 1`;
      other fields of the hash stay. */
  function AfterSaveUser(ks: Keyspace, id: int, token: string): (r: Keyspace)
    ensures TokenOf(r, id) == Some(token)
    ensures UserHash(r, id) == UserHash(ks, id)["token" := token]["is_active" := "1"]
    ensures forall other :: other != id ==> UserHash(r, other) == UserHash(ks, other)
    ensures r.products == ks.products && r.parsed == ks.parsed
    ensures Valid(ks) ==> Valid(r)
  {
    ks.(users := ks.users[id := UserHash(ks, id)["token" := token]["is_active" := "1"]])
  }

  /** `delete_user`: `DEL user:{id}`, then `DEL products:{id}`. */
  function AfterDeleteUser(ks: Keyspace, id: int): (r: Keyspace)
    ensures UserHash(r, id) == map[] && TokenOf(r, id) == None && ProductsOf(r, id) == []
    ensures forall other :: other != id ==>
      UserHash(r, other) == UserHash(ks, other) && ProductsOf(r, other) == ProductsOf(ks, other)
    ensures r.parsed == ks.parsed
    ensures Valid(ks) ==> Valid(r)
  {
    ks.(users := ks.users - {id}, products := ks.products - {id})
  }

  /** `save_products`: `DEL products:{id}`, then `RPUSH` of each product in
      order; an empty list leaves no key behind. */
  function AfterSaveProducts(ks: Keyspace, id: int, products: seq<Json>): (r: Keyspace)
    ensures ProductsOf(r, id) == products
    ensures forall other :: other != id ==> ProductsOf(r, other) == ProductsOf(ks, other)
    ensures r.users == ks.users && r.parsed == ks.parsed
    ensures Valid(ks) ==> Valid(r)
  {
    if products == [] then ks.(products := ks.products - {id})
    else ks.(products := ks.products[id := products])
  }

  /** `mark_as_parsed`: `SADD parsed:{id} url`. */
  function AfterMarkParsed(ks: Keyspace, id: int, url: string): (r: Keyspace)
    ensures ParsedOf(r, id) == ParsedOf(ks, id) + {url}
    ensures forall other :: other != id ==> ParsedOf(r, other) == ParsedOf(ks, other)
    ensures r.users == ks.users && r.products == ks.products
    ensures Valid(ks) ==> Valid(r)
  {
    ks.(parsed := ks.parsed[id := ParsedOf(ks, id) + {url}])
  }

  /** `is_already_parsed`: `SISMEMBER parsed:{id} url`. */
  predicate IsParsed(ks: Keyspace, id: int, url: string) {
    url in ParsedOf(ks, id)
  }

  /** In a keyspace Redis can hold, what the read commands return fixes the
      whole keyspace: no two such keyspaces read alike. */
  lemma ReadsDetermineKeyspace(a: Keyspace, b: Keyspace)
    requires Valid(a) && Valid(b)
    requires forall id :: UserHash(a, id) == UserHash(b, id)
    requires forall id :: ProductsOf(a, id) == ProductsOf(b, id)
    requires forall id :: ParsedOf(a, id) == ParsedOf(b, id)
    ensures a == b
  {
    assert a.users.Keys == b.users.Keys by {
      forall id ensures id in a.users <==> id in b.users {
        assert UserHash(a, id) == UserHash(b, id);
      }
    }
    assert a.products.Keys == b.products.Keys by {
      forall id ensures id in a.products <==> id in b.products {
        assert ProductsOf(a, id) == ProductsOf(b, id);
      }
    }
    assert a.parsed.Keys == b.parsed.Keys by {
      forall id ensures id in a.parsed <==> id in b.parsed {
        assert ParsedOf(a, id) == ParsedOf(b, id);
      }
    }
    assert a.users == b.users by {
      forall id | id in a.users ensures a.users[id] == b.users[id] {
        assert UserHash(a, id) == UserHash(b, id);
      }
    }
    assert a.products == b.products by {
      forall id | id in a.products ensures a.products[id] == b.products[id] {
        assert ProductsOf(a, id) == ProductsOf(b, id);
      }
    }
    assert a.parsed == b.parsed by {
      forall id | id in a.parsed ensures a.parsed[id] == b.parsed[id] {
        assert ParsedOf(a, id) == ParsedOf(b, id);
      }
    }
  }

  /** A saved token is read back, and the user is marked active. */
  lemma SaveUserThenRead(ks: Keyspace, id: int, token: string)
    ensures TokenOf(AfterSaveUser(ks, id, token), id) == Some(token)
    ensures "is_active" in UserHash(AfterSaveUser(ks, id, token), id)
    ensures UserHash(AfterSaveUser(ks, id, token), id)["is_active"] == "1"
    ensures ProductsOf(AfterSaveUser(ks, id, token), id) == ProductsOf(ks, id)
  {
    var h := UserHash(ks, id)["token" := token]["is_active" := "1"];
    assert "token" in h && h["token"] == token;
  }

  /** Saving a user twice with the same token is saving it once. */
  lemma SaveUserIdempotent(ks: Keyspace, id: int, token: string)
    ensures AfterSaveUser(AfterSaveUser(ks, id, token), id, token) == AfterSaveUser(ks, id, token)
  {
    var h := UserHash(ks, id)["token" := token]["is_active" := "1"];
    assert h["token" := token]["is_active" := "1"] == h;
  }

  /** After `delete_user` the user has no token and no products, but the URLs
      already alerted on are kept. */
  lemma DeleteUserForgets(ks: Keyspace, id: int)
    ensures TokenOf(AfterDeleteUser(ks, id), id) == None
    ensures ProductsOf(AfterDeleteUser(ks, id), id) == []
    ensures ParsedOf(AfterDeleteUser(ks, id), id) == ParsedOf(ks, id)
  {
  }

  /** `save_products` replaces the whole list, whatever was there before. */
  lemma SaveProductsReplaces(ks: Keyspace, id: int, first: seq<Json>, second: seq<Json>)
    ensures AfterSaveProducts(AfterSaveProducts(ks, id, first), id, second) == AfterSaveProducts(ks, id, second)
  {
    if second == [] {
      assert (ks.products[id := first] - {id}) == ks.products - {id};
      assert (ks.products - {id}) - {id} == ks.products - {id};
    } else {
      assert (ks.products - {id})[id := second] == ks.products[id := second];
      assert ks.products[id := first][id := second] == ks.products[id := second];
    }
  }

  /** Marking a URL makes it parsed, and marking it again changes nothing. */
  lemma MarkParsedIdempotent(ks: Keyspace, id: int, url: string)
    ensures IsParsed(AfterMarkParsed(ks, id, url), id, url)
    ensures AfterMarkParsed(AfterMarkParsed(ks, id, url), id, url) == AfterMarkParsed(ks, id, url)
  {
    var once := AfterMarkParsed(ks, id, url);
    assert ParsedOf(once, id) + {url} == ParsedOf(once, id);
    assert once.parsed[id := ParsedOf(once, id)] == once.parsed;
  }

  // ---------------------------------------------------------------------------
  // Key names and get_all_users
  // ---------------------------------------------------------------------------

  /** `f"user:{user_id}"` */
  function UserKey(id: int): string {
    "user:" + IntToDecimal(id)
  }

  /** `int(key.split(':')[1])`: `IndexError` without a `:`, `ValueError` when
      the second part is no integer. */
  function KeyUserId(key: string): (r: Result<int, Exception>)
    ensures r.Failure? ==> r.error == IndexError || r.error == ValueError
    ensures ':' !in key ==> r == Failure(IndexError)
  {
    var parts := Split(key, ':');
    if |parts| < 2 then Failure(IndexError)
    else
      match ParseInt(parts[1])
      case None => Failure(ValueError)
      case Some(n) => Success(n)
  }

  /** The id is read back from the key it was written into. */
  lemma KeyUserIdOfUserKey(id: int)
    ensures KeyUserId(UserKey(id)) == Success(id)
  {
    var digits := IntToDecimal(id);
    assert ':' !in "user";
    assert ':' !in digits by {
      forall k | 0 <= k < |digits| ensures digits[k] != ':' {
        assert digits[k] == '-' || IsDigit(digits[k]);
      }
    }
    assert UserKey(id) == "user" + [':'] + digits;
    SplitAtSeparator("user", ':', digits);
    SplitWithoutSeparator(digits, ':');
    ParseIntOfDecimal(id);
  }

  /** One reply of `SCAN cursor MATCH user:* COUNT 100`: the next cursor and a
      page of keys. */
  datatype ScanReply = ScanReply(cursor: string, keys: seq<string>)

  /** Starting at `cursor`, the server hands back the cursor `"0"` within
      `fuel` calls. */
  predicate ScanEnds(scan: string -> ScanReply, cursor: string, fuel: nat)
    decreases fuel
  {
    fuel > 0 && (scan(cursor).cursor == "0" || ScanEnds(scan, scan(cursor).cursor, fuel - 1))
  }

  /** Every key on the pages from `cursor` up to and including the page that
      comes with the cursor `"0"`, in page order. */
  function ScanKeys(scan: string -> ScanReply, cursor: string, fuel: nat): seq<string>
    requires ScanEnds(scan, cursor, fuel)
    decreases fuel
  {
    var reply := scan(cursor);
    reply.keys + if reply.cursor == "0" then [] else ScanKeys(scan, reply.cursor, fuel - 1)
  }

  /** One call of `SCAN`: its page, then the keys of the pages after it. */
  lemma ScanStep(scan: string -> ScanReply, cursor: string, fuel: nat) returns (rest: seq<string>)
    requires ScanEnds(scan, cursor, fuel)
    ensures scan(cursor).cursor != "0" ==> ScanEnds(scan, scan(cursor).cursor, fuel - 1)
    ensures rest == if scan(cursor).cursor == "0" then [] else ScanKeys(scan, scan(cursor).cursor, fuel - 1)
    ensures ScanKeys(scan, cursor, fuel) == scan(cursor).keys + rest
  {
    rest := if scan(cursor).cursor == "0" then [] else ScanKeys(scan, scan(cursor).cursor, fuel - 1);
  }

  /** The ids of `keys`, in order; the first malformed key's exception. */
  function UserIds(keys: seq<string>): (r: Result<seq<int>, Exception>)
    ensures r.Success? ==> |r.value| == |keys|
    decreases |keys|
  {
    if keys == [] then Success([])
    else
      var init := keys[..|keys| - 1];
      match UserIds(init)
      case Failure(e) => Failure(e)
      case Success(ids) =>
        match KeyUserId(keys[|keys| - 1])
        case Failure(e) => Failure(e)
        case Success(id) => Success(ids + [id])
  }

  lemma UserIdsSnoc(keys: seq<string>, key: string)
    ensures UserIds(keys + [key]) ==
      match UserIds(keys)
      case Failure(e) => Failure(e)
      case Success(ids) =>
        match KeyUserId(key)
        case Failure(e) => Failure(e)
        case Success(id) => Success(ids + [id])
  {
    assert (keys + [key])[..|keys|] == keys;
  }

  /** A successful listing holds, at each position, the id of the key there. */
  lemma {:induction false} UserIdsAt(keys: seq<string>)
    requires UserIds(keys).Success?
    ensures forall i :: 0 <= i < |keys| ==> KeyUserId(keys[i]) == Success(UserIds(keys).value[i])
    decreases |keys|
  {
    if keys != [] {
      var init := keys[..|keys| - 1];
      UserIdsAt(init);
      assert forall i :: 0 <= i < |init| ==> keys[i] == init[i];
    }
  }

  /** Once a key fails, later keys are not looked at. */
  lemma {:induction false} UserIdsFailureSticks(keys: seq<string>, more: seq<string>)
    requires UserIds(keys).Failure?
    ensures UserIds(keys + more) == UserIds(keys)
    decreases |more|
  {
    if more == [] {
      assert keys + more == keys;
    } else {
      var init := more[..|more| - 1];
      UserIdsFailureSticks(keys, init);
      assert keys + more == (keys + init) + [more[|more| - 1]];
      UserIdsSnoc(keys + init, more[|more| - 1]);
    }
  }

  /** The keys `user:{id}` of the ids, in order. */
  function UserKeys(ids: seq<int>): (keys: seq<string>)
    ensures |keys| == |ids|
    ensures forall i :: 0 <= i < |ids| ==> keys[i] == UserKey(ids[i])
  {
    seq(|ids|, i requires 0 <= i < |ids| => UserKey(ids[i]))
  }

  /** Keys that each parse give their ids, in order. */
  lemma {:induction false} UserIdsOfParsed(keys: seq<string>, ids: seq<int>)
    requires |keys| == |ids|
    requires forall i :: 0 <= i < |keys| ==> KeyUserId(keys[i]) == Success(ids[i])
    ensures UserIds(keys) == Success(ids)
    decreases |keys|
  {
    if keys != [] {
      var n := |keys| - 1;
      UserIdsOfParsed(keys[..n], ids[..n]);
      assert keys[..n] + [keys[n]] == keys;
      UserIdsSnoc(keys[..n], keys[n]);
      assert ids[..n] + [ids[n]] == ids;
    }
  }

  /** Well-formed keys give their ids. */
  lemma UserIdsOfUserKeys(ids: seq<int>)
    ensures UserIds(UserKeys(ids)) == Success(ids)
  {
    var keys := UserKeys(ids);
    forall i | 0 <= i < |keys| ensures KeyUserId(keys[i]) == Success(ids[i]) {
      KeyUserIdOfUserKey(ids[i]);
    }
    UserIdsOfParsed(keys, ids);
  }

  /** `SCAN` hands back every key present for the whole iteration: with the
      keyspace `ks` left alone while it runs, the key of every stored user is
      on one of the pages. */
  ghost predicate ScanCovers(ks: Keyspace, scan: string -> ScanReply, fuel: nat) {
    && ScanEnds(scan, "0", fuel)
    && forall id :: id in ks.users ==> UserKey(id) in ScanKeys(scan, "0", fuel)
  }

  /** A listing from a covering scan names every stored user. */
  lemma ListedCoversStored(ks: Keyspace, scan: string -> ScanReply, fuel: nat)
    requires ScanCovers(ks, scan, fuel)
    requires UserIds(ScanKeys(scan, "0", fuel)).Success?
    ensures forall id :: id in ks.users ==> id in UserIds(ScanKeys(scan, "0", fuel)).value
  {
    var keys := ScanKeys(scan, "0", fuel);
    var ids := UserIds(keys).value;
    UserIdsAt(keys);
    forall id | id in ks.users ensures id in ids {
      var i :| 0 <= i < |keys| && keys[i] == UserKey(id);
      KeyUserIdOfUserKey(id);
      assert ids[i] == id;
    }
  }

  /** With the pages of the test double, `get_all_users` lists 12345, then 67890. */
  lemma GetAllUsersTwoPages(scan: string -> ScanReply)
    requires scan("0") == ScanReply("1", [UserKey(12345)])
    requires scan("1") == ScanReply("0", [UserKey(67890)])
    ensures ScanEnds(scan, "0", 2)
    ensures UserIds(ScanKeys(scan, "0", 2)) == Success([12345, 67890])
  {
    var next, first, second := "1", 12345, 67890;
    TwoPages(scan, next, first, second);
  }

  /** Two pages of one key each, whatever the middle cursor and the ids. */
  lemma TwoPages(scan: string -> ScanReply, next: string, first: int, second: int)
    requires next != "0"
    requires scan("0") == ScanReply(next, [UserKey(first)])
    requires scan(next) == ScanReply("0", [UserKey(second)])
    ensures ScanEnds(scan, "0", 2)
    ensures UserIds(ScanKeys(scan, "0", 2)) == Success([first, second])
  {
    assert ScanEnds(scan, next, 1);
    assert ScanKeys(scan, "0", 2) == [UserKey(first), UserKey(second)];
    UserIdsOfUserKeys([first, second]);
    assert UserKeys([first, second]) == [UserKey(first), UserKey(second)];
  }

  /** A cursor as Python holds it: the Redis client library hands the cursor
      of `SCAN` back as an `int`; the test double hands back a `str`. */
  datatype PyCursor = IntCursor(n: int) | StrCursor(s: string)

  /** `cursor == '0'`: an `int` never equals a `str`. */
  function IsZeroText(c: PyCursor): (r: bool)
    ensures r <==> c == StrCursor("0")
  {
    match c
    case IntCursor(_) => false
    case StrCursor(s) => s == "0"
  }

  /** The loop of `get_all_users` against a server whose replies carry `int`
      cursors: it stops within `fuel` calls when some reply's cursor passes
      the `cursor == '0'` test. */
  predicate IntScanEnds(scan: int -> (int, seq<string>), cursor: int, fuel: nat)
    decreases fuel
  {
    fuel > 0 && (IsZeroText(IntCursor(scan(cursor).0)) || IntScanEnds(scan, scan(cursor).0, fuel - 1))
  }

  /** With `int` cursors the test never holds, so the loop never stops,
      whatever the server returns and however many calls are made, even
      when the server's cursor is `0`. */
  lemma {:induction false} IntCursorNeverEnds(scan: int -> (int, seq<string>), cursor: int, fuel: nat)
    ensures !IntScanEnds(scan, cursor, fuel)
    decreases fuel
  {
    if fuel > 0 {
      IntCursorNeverEnds(scan, scan(cursor).0, fuel - 1);
    }
  }

  // ---------------------------------------------------------------------------
  // The adapter
  // ---------------------------------------------------------------------------

  class RedisClient {
    var users: map<int, map<string, string>>
    var products: map<int, seq<Json>>
    var parsed: map<int, set<string>>

    /** The keyspace the client's keys currently hold. */
    function State(): Keyspace
      reads this
    {
      Keyspace(users, products, parsed)
    }

    /** A connection to a database whose keys hold `ks`. */
    constructor (ks: Keyspace)
      ensures State() == ks
    {
      users := ks.users;
      products := ks.products;
      parsed := ks.parsed;
    }

    method SaveUser(id: int, token: string)
      modifies this
      ensures State() == AfterSaveUser(old(State()), id, token)
    {
      var hash := if id in users then users[id] else map[];
      users := users[id := hash["token" := token]];
      users := users[id := users[id]["is_active" := "1"]];
    }

    method GetUserToken(id: int) returns (token: Option<string>)
      ensures token == TokenOf(State(), id)
    {
      if id in users && "token" in users[id] {
        token := Some(users[id]["token"]);
      } else {
        token := None;
      }
    }

    method DeleteUser(id: int)
      modifies this
      ensures State() == AfterDeleteUser(old(State()), id)
    {
      users := users - {id};
      products := products - {id};
    }

    /** `DEL`, then one `RPUSH` per product. */
    method SaveProducts(id: int, items: seq<Json>)
      modifies this
      ensures State() == AfterSaveProducts(old(State()), id, items)
    {
      products := products - {id};
      for i := 0 to |items|
        invariant users == old(users) && parsed == old(parsed)
        invariant i == 0 ==> products == old(products) - {id}
        invariant i > 0 ==> products == old(products)[id := items[..i]]
      {
        var list := if id in products then products[id] else [];
        assert list == items[..i];
        products := products[id := list + [items[i]]];
        assert items[..i + 1] == items[..i] + [items[i]];
        assert products == old(products)[id := items[..i + 1]];
      }
      assert items[..|items|] == items;
    }

    /** `LRANGE`, then `json.loads` of each element; `[]` for a missing list. */
    method GetProducts(id: int) returns (items: seq<Json>)
      ensures items == ProductsOf(State(), id)
    {
      if id in products && products[id] != [] {
        items := products[id];
      } else {
        items := [];
      }
    }

    method GetUser(id: int) returns (hash: map<string, string>)
      ensures hash == UserHash(State(), id)
    {
      hash := if id in users then users[id] else map[];
    }

    method IsAlreadyParsed(id: int, url: string) returns (found: bool)
      ensures found == IsParsed(State(), id, url)
    {
      found := id in parsed && url in parsed[id];
    }

    method MarkAsParsed(id: int, url: string)
      modifies this
      ensures State() == AfterMarkParsed(old(State()), id, url)
    {
      var members := if id in parsed then parsed[id] else {};
      parsed := parsed[id := members + {url}];
    }

    /** Walks the `SCAN` cursor from `"0"` until the server hands back `"0"`,
        collecting the id of every key on every page. */
    method GetAllUsers(scan: string -> ScanReply, ghost fuel: nat) returns (r: Result<seq<int>, Exception>)
      requires ScanEnds(scan, "0", fuel)
      ensures r == UserIds(ScanKeys(scan, "0", fuel))
    {
      ghost var total := ScanKeys(scan, "0", fuel);
      var ids: seq<int> := [];
      var cursor := "0";
      ghost var left := fuel;
      ghost var seen: seq<string> := [];
      while true
        invariant ScanEnds(scan, cursor, left)
        invariant UserIds(seen) == Success(ids)
        invariant total == seen + ScanKeys(scan, cursor, left)
        decreases left
      {
        var reply := scan(cursor);
        var page := AppendUserIds(seen, ids, reply.keys);
        ScanPage(scan, cursor, left, seen, total);
        if page.Failure? {
          return page;
        }
        ids := page.value;
        seen := seen + reply.keys;
        if reply.cursor == "0" {
          return Success(ids);
        }
        cursor := reply.cursor;
        left := left - 1;
      }
    }
  }

  /** One page of the walk: the keys seen so far grow by the page, and a
      key that raises on it ends the listing with that exception. */
  lemma ScanPage(scan: string -> ScanReply, cursor: string, left: nat, seen: seq<string>, total: seq<string>)
    requires ScanEnds(scan, cursor, left)
    requires total == seen + ScanKeys(scan, cursor, left)
    ensures scan(cursor).cursor == "0" ==> total == seen + scan(cursor).keys
    ensures scan(cursor).cursor != "0" ==> ScanEnds(scan, scan(cursor).cursor, left - 1)
    ensures scan(cursor).cursor != "0" ==>
      total == (seen + scan(cursor).keys) + ScanKeys(scan, scan(cursor).cursor, left - 1)
    ensures UserIds(seen + scan(cursor).keys).Failure? ==> UserIds(total) == UserIds(seen + scan(cursor).keys)
  {
    var rest := ScanStep(scan, cursor, left);
    assert total == (seen + scan(cursor).keys) + rest;
    if UserIds(seen + scan(cursor).keys).Failure? {
      UserIdsFailureSticks(seen + scan(cursor).keys, rest);
    }
  }

  /** One more key: its id is appended, or its exception ends the listing. */
  lemma UserIdsStep(seen: seq<string>, keys: seq<string>, i: nat, acc: seq<int>)
    requires i < |keys|
    requires UserIds(seen + keys[..i]) == Success(acc)
    ensures KeyUserId(keys[i]).Success? ==> UserIds(seen + keys[..i + 1]) == Success(acc + [KeyUserId(keys[i]).value])
    ensures KeyUserId(keys[i]).Failure? ==> UserIds(seen + keys) == Failure(KeyUserId(keys[i]).error)
  {
    assert seen + keys[..i + 1] == (seen + keys[..i]) + [keys[i]];
    UserIdsSnoc(seen + keys[..i], keys[i]);
    if KeyUserId(keys[i]).Failure? {
      assert seen + keys == (seen + keys[..i + 1]) + keys[i + 1..];
      UserIdsFailureSticks(seen + keys[..i + 1], keys[i + 1..]);
    }
  }

  /** The inner `for key in keys` loop: appends the id of each key to `ids`,
      stopping at the first key that raises. */
  method AppendUserIds(ghost seen: seq<string>, ids: seq<int>, keys: seq<string>)
    returns (r: Result<seq<int>, Exception>)
    requires UserIds(seen) == Success(ids)
    ensures r == UserIds(seen + keys)
  {
    var acc := ids;
    assert seen + keys[..0] == seen;
    for i := 0 to |keys|
      invariant UserIds(seen + keys[..i]) == Success(acc)
    {
      var parsed := KeyUserId(keys[i]);
      UserIdsStep(seen, keys, i, acc);
      if parsed.Failure? {
        return Failure(parsed.error);
      }
      acc := acc + [parsed.value];
    }
    assert keys[..|keys|] == keys;
    return Success(acc);
  }
}
