/**
 * The secret retrieval of the resource's `in` step (check.go): `VaultSession` logs in with
 * the app id and user id, and `GetSecrets` reads one Vault path per (prefix, path) entry and
 * merges every secret's data into one flat map under keys `prefix-key`.
 *
 * A panic of the Go code (`log.Panicln`, `PanicCheck`, a failed `v.(string)`, a nil
 * dereference) is the outcome `Panicked`; an error that `GetSecrets` returns is `Err`, which
 * keeps the map built so far, as `return secrets, err` does.
 */
module Check {
  import opened Results
  import opened VaultApi

  /** `Config`: the user id comes from the environment, the rest from the request. */
  datatype Config = Config(vaultUri: string, appId: string, userId: string)

  /** One entry of the prefix => path mapping, in the order the loop visits it. */
  type Entry = (string, string)

  /** Errors that `GetSecrets` returns. */
  datatype FetchError =
    | ClientError(msg: string)  // the read itself failed; the library's error, unchanged
    | NotFound(path: string)    // the read succeeded but there is no secret at `path`
  {
    function Message(): string {
      match this
      case ClientError(msg) => msg
      case NotFound(path) => NotFoundMessage(path)
    }
  }

  /** Why the Go code panics. */
  datatype Panic =
    | MissingAppId              // config.AppID == ""
    | MissingUserId             // config.UserID == ""
    | ClientSetupFailed(msg: string)
    | LoginFailed(msg: string)
    | NoAuth                    // nil dereference of the login reply's Auth
    | CastFailed(path: string)  // a value of the secret at `path` is not a string

  datatype Outcome =
    | Ok(secrets: map<string, string>)
    | Err(partial: map<string, string>, error: FetchError)
    | Panicked(cause: Panic)

  /** The message of the not-found error: "404 Secret @ `<path>` not found!"; the path
      stands verbatim after the 14 characters of the head. */
  function NotFoundMessage(path: string): (msg: string)
    ensures |msg| == |path| + 26 && msg[14..14 + |path|] == path
  {
    "404 Secret @ `" + path + "` not found!"
  }

  /** The flattened key `fmt.Sprintf("%s-%s", prefix, k)`: the prefix and the key can be
      read back from it once the prefix's length is known. */
  function FlatKey(prefix: string, key: string): (fk: string)
    ensures |fk| == |prefix| + 1 + |key|
    ensures fk[..|prefix|] == prefix && fk[|prefix|] == '-' && fk[|prefix| + 1..] == key
  {
    prefix + "-" + key
  }

  /** Under one prefix, distinct keys give distinct flattened keys. */
  lemma FlatKeyInjective(prefix: string)
    ensures forall k1, k2 :: FlatKey(prefix, k1) == FlatKey(prefix, k2) ==> k1 == k2
  {
    forall k1, k2 | FlatKey(prefix, k1) == FlatKey(prefix, k2) ensures k1 == k2 {
    }
  }

  predicate AllStrings(data: map<string, Value>) {
    forall k :: k in data ==> data[k].Str?
  }

  /** The flattened keys of the string values of `data` whose keys are in `keys`. */
  function FlatKeys(prefix: string, data: map<string, Value>, keys: set<string>): set<string> {
    set k | k in keys && k in data && data[k].Str? :: FlatKey(prefix, k)
  }

  /** The string a flattened key of `prefix` stands for in `data` ("" for a key that is
      not one of its flattened keys). */
  function ValueAt(prefix: string, data: map<string, Value>, fk: string): string {
    if |prefix| < |fk| && fk[|prefix| + 1..] in data && data[fk[|prefix| + 1..]].Str?
    then data[fk[|prefix| + 1..]].s
    else ""
  }

  /** The flattened strings of `data` for the keys in `keys`: what the inner loop has
      written once it has visited `keys`. */
  function Flatten(prefix: string, data: map<string, Value>, keys: set<string>): map<string, string> {
    map fk | fk in FlatKeys(prefix, data, keys) :: ValueAt(prefix, data, fk)
  }

  /** Each flattened key holds the string its key holds in `data`. */
  lemma FlattenAt(prefix: string, data: map<string, Value>, keys: set<string>, k: string)
    requires k in keys && k in data && data[k].Str?
    ensures FlatKey(prefix, k) in Flatten(prefix, data, keys)
    ensures Flatten(prefix, data, keys)[FlatKey(prefix, k)] == data[k].s
  {
  }

  /** A read whose secret can be merged: found, and every value a string. */
  predicate Mergeable(r: ReadResult) {
    r.Found? && AllStrings(r.data)
  }

  /** What one entry adds to the map when its read is mergeable. */
  function Part(entry: Entry, store: string -> ReadResult): map<string, string> {
    var r := store(entry.1);
    if Mergeable(r) then Flatten(entry.0, r.data, r.data.Keys) else map[]
  }

  /** Reference definition of the merge loop: the entries still to visit, the store seen
      through the session's token, and the map built so far. */
  function MergeFrom(entries: seq<Entry>, store: string -> ReadResult, acc: map<string, string>): Outcome
    decreases |entries|
  {
    if entries == [] then Ok(acc)
    else
      var (prefix, path) := entries[0];
      match store(path)
      case ReadError(msg) => Err(acc, ClientError(msg))
      case NoSecret => Err(acc, NotFound(path))
      case Found(data, _) =>
        if AllStrings(data) then MergeFrom(entries[1..], store, acc + Flatten(prefix, data, data.Keys))
        else Panicked(CastFailed(path))
  }

  /** The reads the merge loop makes: one per entry, up to and including the first
      entry whose read cannot be merged. */
  function ReadsFrom(entries: seq<Entry>, store: string -> ReadResult): seq<Call>
    decreases |entries|
  {
    if entries == [] then []
    else [ReadCall(entries[0].1)] + if Mergeable(store(entries[0].1)) then ReadsFrom(entries[1..], store) else []
  }

  /** Reference definition of `VaultSession`: the token it sets, or why it panics. */
  function Session(config: Config, backend: Backend): Result<string, Panic> {
    if config.appId == "" then Failure(MissingAppId)
    else if config.userId == "" then Failure(MissingUserId)
    else match backend.newClient(config.vaultUri)
      case Some(msg) => Failure(ClientSetupFailed(msg))
      case None =>
        match backend.login(config.vaultUri, config.appId, config.userId)
        case LoginError(msg) => Failure(LoginFailed(msg))
        case LoginOk(None) => Failure(NoAuth)
        case LoginOk(Some(token)) => Success(token)
  }

  /** The calls `VaultSession` makes into the client library. */
  function SessionCalls(config: Config, backend: Backend): seq<Call> {
    if config.appId == "" || config.userId == "" then []
    else if backend.newClient(config.vaultUri).Some? then [NewClientCall(config.vaultUri)]
    else [NewClientCall(config.vaultUri), LoginCall(config.vaultUri, config.appId, config.userId)]
  }

  /** The secret store as the session sees it. */
  function StoreAt(backend: Backend, address: string, token: string): string -> ReadResult {
    path => backend.read(address, token, path)
  }

  /** Reference definition of `GetSecrets`. */
  function Expected(mapping: seq<Entry>, config: Config, backend: Backend): Outcome {
    match Session(config, backend)
    case Failure(p) => Panicked(p)
    case Success(token) => MergeFrom(mapping, StoreAt(backend, config.vaultUri, token), map[])
  }

  /** Every call `GetSecrets` makes into the client library, in order. */
  function ExpectedCalls(mapping: seq<Entry>, config: Config, backend: Backend): seq<Call> {
    SessionCalls(config, backend) +
    match Session(config, backend)
    case Failure(_) => []
    case Success(token) => ReadsFrom(mapping, StoreAt(backend, config.vaultUri, token))
  }

  /** `VaultSession`: refuse empty credentials before touching the library, then create a
      client, log in and set the token from the reply. Every library call lands in `log`. */
  method VaultSession(config: Config, backend: Backend, ghost log: Log) returns (r: Result<Client, Panic>)
    modifies log
    ensures config.appId == "" ==> r == Failure(MissingAppId) && log.calls == old(log.calls)
    ensures config.appId != "" && config.userId == "" ==> r == Failure(MissingUserId) && log.calls == old(log.calls)
    ensures Session(config, backend).Failure? ==> r == Failure(Session(config, backend).error)
    ensures Session(config, backend).Success? ==>
      r.Success? && fresh(r.value) && r.value.address == config.vaultUri && r.value.backend == backend &&
      r.value.log == log && r.value.token == Session(config, backend).value
    ensures log.calls == old(log.calls) + SessionCalls(config, backend)
  {
    if config.appId == "" {
      return Failure(MissingAppId);
    }
    if config.userId == "" {
      return Failure(MissingUserId);
    }
    var created := NewClient(config.vaultUri, backend, log);
    if created.Failure? {
      return Failure(ClientSetupFailed(created.error));
    }
    var client := created.value;
    var reply := client.Login(config.appId, config.userId);
    match reply
    case LoginError(msg) =>
      r := Failure(LoginFailed(msg));
    case LoginOk(None) =>
      r := Failure(NoAuth);
    case LoginOk(Some(token)) =>
      client.SetToken(token);
      r := Success(client);
  }

  /** `GetSecrets`: set up the session, then merge the secrets of every entry. */
  method GetSecrets(mapping: seq<Entry>, config: Config, backend: Backend, ghost log: Log) returns (outcome: Outcome)
    modifies log
    ensures outcome == Expected(mapping, config, backend)
    ensures log.calls == old(log.calls) + ExpectedCalls(mapping, config, backend)
    ensures config.appId == "" || config.userId == "" ==> outcome.Panicked? && log.calls == old(log.calls)
  {
    var session := VaultSession(config, backend, log);
    if session.Failure? {
      return Panicked(session.error);
    }
    outcome := MergeSecrets(session.value, mapping);
    ConcatAssoc(old(log.calls), SessionCalls(config, backend),
      ReadsFrom(mapping, StoreAt(backend, config.vaultUri, session.value.token)));
  }

  /** The loop of `GetSecrets`: read every entry's path in turn, stop at the first error
      or missing secret, and write each value under its flattened key (later writes win). */
  method MergeSecrets(client: Client, mapping: seq<Entry>) returns (outcome: Outcome)
    modifies client.log
    ensures outcome == MergeFrom(mapping, StoreAt(client.backend, client.address, client.token), map[])
    ensures client.log.calls == old(client.log.calls) + ReadsFrom(mapping, StoreAt(client.backend, client.address, client.token))
  {
    ghost var store := StoreAt(client.backend, client.address, client.token);
    ghost var readCalls := [];
    var secrets: map<string, string> := map[];
    var i := 0;
    while i < |mapping|
      invariant i <= |mapping|
      invariant MergeFrom(mapping, store, map[]) == MergeFrom(mapping[i..], store, secrets)
      invariant ReadsFrom(mapping, store) == readCalls + ReadsFrom(mapping[i..], store)
      invariant client.log.calls == old(client.log.calls) + readCalls
    {
      var (prefix, path) := mapping[i];
      var secret := client.Read(path);
      assert secret == store(path);
      MergeStep(mapping, i, store, secrets);
      ghost var rest := if Mergeable(secret) then ReadsFrom(mapping[i + 1..], store) else [];
      ConcatAssoc(readCalls, [ReadCall(path)], rest);
      ConcatAssoc(old(client.log.calls), readCalls, [ReadCall(path)]);
      readCalls := readCalls + [ReadCall(path)];
      assert ReadsFrom(mapping, store) == readCalls + rest;
      match secret
      case ReadError(msg) =>
        return Err(secrets, ClientError(msg));
      case NoSecret =>
        return Err(secrets, NotFound(path));
      case Found(data, warnings) =>
        // The warnings are only logged.
        var ok;
        ok, secrets := WriteFlattened(secrets, prefix, data);
        if !ok {
          return Panicked(CastFailed(path));
        }
        i := i + 1;
    }
    outcome := Ok(secrets);
  }

  lemma ConcatAssoc<T>(a: seq<T>, b: seq<T>, c: seq<T>)
    ensures a + (b + c) == (a + b) + c
  {
  }

  /** One turn of the merge loop, at entry `i`. */
  lemma MergeStep(mapping: seq<Entry>, i: nat, store: string -> ReadResult, acc: map<string, string>)
    requires i < |mapping|
    ensures var (prefix, path) := mapping[i];
      && (store(path).ReadError? ==> MergeFrom(mapping[i..], store, acc) == Err(acc, ClientError(store(path).msg)))
      && (store(path).NoSecret? ==> MergeFrom(mapping[i..], store, acc) == Err(acc, NotFound(path)))
      && (store(path).Found? && !AllStrings(store(path).data) ==>
            MergeFrom(mapping[i..], store, acc) == Panicked(CastFailed(path)))
      && (Mergeable(store(path)) ==>
            MergeFrom(mapping[i..], store, acc) ==
            MergeFrom(mapping[i + 1..], store, acc + Flatten(prefix, store(path).data, store(path).data.Keys)))
      && ReadsFrom(mapping[i..], store) ==
         [ReadCall(path)] + if Mergeable(store(path)) then ReadsFrom(mapping[i + 1..], store) else []
  {
    assert mapping[i..][0] == mapping[i] && mapping[i..][1..] == mapping[i + 1..];
  }

  /** The inner loop of `GetSecrets`: write every value of one secret under its flattened
      key, in the library's (unspecified) key order; `ok` is false when a value is not a
      string, where the Go cast panics. */
  method WriteFlattened(secrets: map<string, string>, prefix: string, data: map<string, Value>)
    returns (ok: bool, updated: map<string, string>)
    ensures ok == AllStrings(data)
    ensures ok ==> updated == secrets + Flatten(prefix, data, data.Keys)
    ensures ok ==> updated.Keys == secrets.Keys + FlatKeys(prefix, data, data.Keys)
    ensures ok ==> forall fk :: fk in secrets && fk !in FlatKeys(prefix, data, data.Keys) ==> updated[fk] == secrets[fk]
  {
    updated := secrets;
    var remaining := data.Keys;
    while remaining != {}
      invariant remaining <= data.Keys
      invariant forall k :: k in data.Keys - remaining ==> data[k].Str?
      invariant updated == secrets + Flatten(prefix, data, data.Keys - remaining)
      decreases remaining
    {
      var k :| k in remaining;
      match data[k]
      case NonString =>
        return false, updated;
      case Str(v) =>
        FlattenAdd(prefix, data, data.Keys - remaining, k);
        UnionUpdate(secrets, Flatten(prefix, data, data.Keys - remaining), FlatKey(prefix, k), v);
        updated := updated[FlatKey(prefix, k) := v];
        assert data.Keys - (remaining - {k}) == (data.Keys - remaining) + {k};
        remaining := remaining - {k};
    }
    assert data.Keys - remaining == data.Keys;
    ok := true;
  }

  lemma UnionUpdate<K, V>(a: map<K, V>, b: map<K, V>, k: K, v: V)
    ensures (a + b)[k := v] == a + b[k := v]
  {
  }

  /** Writing one more key of the same secret. */
  lemma FlattenAdd(prefix: string, data: map<string, Value>, done: set<string>, k: string)
    requires k in data && data[k].Str?
    ensures Flatten(prefix, data, done + {k}) == Flatten(prefix, data, done)[FlatKey(prefix, k) := data[k].s]
  {
    FlattenAt(prefix, data, done + {k}, k);
  }
}
