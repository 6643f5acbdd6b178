/**
 * The account handlers of the bot (bot/handlers/registration.py): the
 * `/registration` command and its button register a user unless a token is
 * already stored; `/delete_account` and its button delete the user's data.
 * The token `generate_token` makes (a random UUID) is a parameter, and of the
 * reply only its kind and the token it shows are kept.
 */
module Accounts {
  import opened Wrappers
  import opened PyBuiltins
  import opened RedisStore

  /** Which reply the handler sends. */
  datatype Reply = AlreadyRegistered | Registered(token: string) | AccountDeleted

  /** `if existing_token:` — a stored token counts only when it is not the
      empty string. */
  predicate HasToken(ks: Keyspace, id: int) {
    TokenOf(ks, id).Some? && TokenOf(ks, id).value != ""
  }

  /** The store after `/registration` with `generated` as the generated token. */
  function AfterRegistration(ks: Keyspace, id: int, generated: string): (r: Keyspace)
    ensures HasToken(ks, id) ==> r == ks
    ensures !HasToken(ks, id) ==> TokenOf(r, id) == Some(generated)
    ensures !HasToken(ks, id) ==> "is_active" in UserHash(r, id) && UserHash(r, id)["is_active"] == "1"
    ensures r.products == ks.products && r.parsed == ks.parsed
    ensures forall other :: other != id ==> UserHash(r, other) == UserHash(ks, other)
  {
    if HasToken(ks, id) then ks else AfterSaveUser(ks, id, generated)
  }

  /** The reply to `/registration`. */
  function RegistrationReply(ks: Keyspace, id: int, generated: string): (r: Reply)
    ensures r == AlreadyRegistered <==> HasToken(ks, id)
    ensures r.Registered? ==> r.token == generated
  {
    if HasToken(ks, id) then AlreadyRegistered else Registered(generated)
  }

  /** A registered user who registers again keeps the first token, whatever
      token the second call generated. */
  lemma RegisterTwiceKeepsFirst(ks: Keyspace, id: int, first: string, second: string)
    requires first != ""
    ensures var once := AfterRegistration(ks, id, first);
      && AfterRegistration(once, id, second) == once
      && RegistrationReply(once, id, second) == AlreadyRegistered
      && (!HasToken(ks, id) ==> TokenOf(AfterRegistration(once, id, second), id) == Some(first))
  {
  }

  /** After `/delete_account`, registering again succeeds and stores the new
      token. */
  lemma DeleteThenRegister(ks: Keyspace, id: int, generated: string)
    ensures RegistrationReply(AfterDeleteUser(ks, id), id, generated) == Registered(generated)
    ensures TokenOf(AfterRegistration(AfterDeleteUser(ks, id), id, generated), id) == Some(generated)
    ensures ProductsOf(AfterRegistration(AfterDeleteUser(ks, id), id, generated), id) == []
  {
    assert !HasToken(AfterDeleteUser(ks, id), id);
  }

  /** A stored empty token is falsy, so the user is registered over it. */
  lemma EmptyTokenIsReplaced(ks: Keyspace, id: int, generated: string)
    requires TokenOf(ks, id) == Some("")
    ensures RegistrationReply(ks, id, generated) == Registered(generated)
    ensures TokenOf(AfterRegistration(ks, id, generated), id) == Some(generated)
  {
  }

  // ---------------------------------------------------------------------------
  // The handlers as written: `await` on the synchronous adapter
  // ---------------------------------------------------------------------------

  /** How a handler ends: the store it leaves, and its reply or the exception
      that stopped it. */
  datatype Outcome = Outcome(db: Keyspace, result: Result<Reply, Exception>)

  /** What a call of an adapter method hands back: the plain value from the
      synchronous adapter of database/redis_client.py, or a coroutine from
      an asynchronous one. */
  datatype Call<T> = Plain(value: T) | Coroutine(result: T)

  function Invoke<T>(isAsync: bool, v: T): (c: Call<T>)
    ensures isAsync <==> c.Coroutine?
  {
    if isAsync then Coroutine(v) else Plain(v)
  }

  /** `await c`: a coroutine gives its result; a plain `str` or `None` is not
      awaitable and raises `TypeError`. */
  function Await<T>(c: Call<T>): (r: Result<T, Exception>)
    ensures c.Plain? ==> r == Failure(TypeError)
    ensures c.Coroutine? ==> r == Success(c.result)
  {
    match c
    case Plain(_) => Failure(TypeError)
    case Coroutine(v) => Success(v)
  }

  /** `registration(message)` line by line, every adapter call awaited. */
  function RegistrationHandler(ks: Keyspace, id: int, generated: string, isAsync: bool): Outcome {
    match Await(Invoke(isAsync, TokenOf(ks, id)))
    case Failure(e) => Outcome(ks, Failure(e))
    case Success(existing) =>
      if existing.Some? && existing.value != "" then Outcome(ks, Success(AlreadyRegistered))
      else
        var saved := AfterSaveUser(ks, id, generated);
        match Await(Invoke(isAsync, saved))
        case Failure(e) => Outcome(saved, Failure(e))
        case Success(_) => Outcome(saved, Success(Registered(generated)))
  }

  /** `delete_account(message)` line by line: the call deletes both keys, and
      its result is awaited. */
  function DeleteAccountHandler(ks: Keyspace, id: int, isAsync: bool): Outcome {
    var deleted := AfterDeleteUser(ks, id);
    match Await(Invoke(isAsync, deleted))
    case Failure(e) => Outcome(deleted, Failure(e))
    case Success(_) => Outcome(deleted, Success(AccountDeleted))
  }

  /** With the synchronous adapter, `/registration` raises `TypeError` on the
      first `await` and writes nothing: a user without a token stays without
      one, where the intended handler stores the generated token. */
  lemma RegistrationAsWritten(ks: Keyspace, id: int, generated: string)
    ensures RegistrationHandler(ks, id, generated, false) == Outcome(ks, Failure(TypeError))
    ensures TokenOf(ks, id) == None ==>
      && TokenOf(RegistrationHandler(ks, id, generated, false).db, id) == None
      && TokenOf(AfterRegistration(ks, id, generated), id) == Some(generated)
  {
  }

  /** With awaitable calls, `/registration` has exactly the intended effect
      and reply. */
  lemma RegistrationAwaited(ks: Keyspace, id: int, generated: string)
    ensures RegistrationHandler(ks, id, generated, true)
         == Outcome(AfterRegistration(ks, id, generated), Success(RegistrationReply(ks, id, generated)))
  {
  }

  /** With the synchronous adapter, `/delete_account` deletes the user and
      then raises `TypeError`, so the confirmation is never sent. */
  lemma DeleteAccountAsWritten(ks: Keyspace, id: int)
    ensures DeleteAccountHandler(ks, id, false) == Outcome(AfterDeleteUser(ks, id), Failure(TypeError))
    ensures TokenOf(DeleteAccountHandler(ks, id, false).db, id) == None
  {
  }

  /** With awaitable calls, `/delete_account` deletes the user and confirms. */
  lemma DeleteAccountAwaited(ks: Keyspace, id: int)
    ensures DeleteAccountHandler(ks, id, true) == Outcome(AfterDeleteUser(ks, id), Success(AccountDeleted))
  {
  }

  class Handlers {
    const store: RedisClient

    constructor (store: RedisClient)
      ensures this.store == store
    {
      this.store := store;
    }

    /** `registration(message)` for the sender `id`. */
    method Registration(id: int, generated: string) returns (reply: Reply)
      modifies store
      ensures store.State() == AfterRegistration(old(store.State()), id, generated)
      ensures reply == RegistrationReply(old(store.State()), id, generated)
    {
      var existing := store.GetUserToken(id);
      if existing.Some? && existing.value != "" {
        return AlreadyRegistered;
      }
      store.SaveUser(id, generated);
      reply := Registered(generated);
    }

    /** `registration_callback`: the same effect as the command. */
    method RegistrationCallback(id: int, generated: string) returns (reply: Reply)
      modifies store
      ensures store.State() == AfterRegistration(old(store.State()), id, generated)
      ensures reply == RegistrationReply(old(store.State()), id, generated)
    {
      reply := Registration(id, generated);
    }

    /** `delete_account(message)`: deletes unconditionally. */
    method DeleteAccount(id: int) returns (reply: Reply)
      modifies store
      ensures store.State() == AfterDeleteUser(old(store.State()), id)
      ensures reply == AccountDeleted
    {
      store.DeleteUser(id);
      reply := AccountDeleted;
    }

    /** `delete_account_callback`: the same effect as the command. */
    method DeleteAccountCallback(id: int) returns (reply: Reply)
      modifies store
      ensures store.State() == AfterDeleteUser(old(store.State()), id)
      ensures reply == AccountDeleted
    {
      reply := DeleteAccount(id);
    }
  }
}
