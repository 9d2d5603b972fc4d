# Vault secrets resource: secret retrieval

This project models the retrieval core of a Concourse resource that reads secrets from
HashiCorp Vault (check.go). The model has two parts.

- `VaultSession` refuses an empty app id or user id. Otherwise it creates a Vault client
  for the configured address, logs in with the app id and user id, and sets the client's
  token from the login reply.
- `GetSecrets` takes a mapping of prefix to path. It reads each path in turn, and it stops
  at the first read that fails or finds no secret. It writes every value `v` found under
  key `k` into one flat map under the key `prefix-k`. A later write to the same flattened
  key replaces the earlier one.

Modules:

- `Results` (results.dfy) holds `Option` and `Result`.
- `VaultApi` (vault_api.dfy) is the Vault client library as this code uses it.
  - `Backend` is an oracle for client creation, login and reads.
  - `Client` is a class whose `token` field `SetToken` updates.
  - `Call` is a record of one call into the library.
  - `Log` is a class whose ghost `calls` field the library's operations extend.
- `Check` (check.dfy) holds the data model and the reference functions:
  - `Session`, `MergeFrom`, `ReadsFrom`, `Expected` and `ExpectedCalls`;
  - the imperative methods `VaultSession`, `GetSecrets`, `MergeSecrets` (the outer loop) and
    `WriteFlattened` (the inner loop), each proved equal to its reference function.
- `CheckProperties` (check_properties.dfy) holds the lemmas about those functions: success,
  fail-fast, warnings, collisions and last-write-wins, plus concrete examples.

Outcomes of `GetSecrets`:

- `Ok(secrets)` is a normal return.
- `Err(partial, error)` is `return secrets, err`. It keeps the map built so far, exactly as
  the Go code returns it.
- `Panicked(cause)` is any panic. This covers `log.Panicln`, `PanicCheck`, the nil
  dereference of a login reply without `Auth`, and a failed `v.(string)` cast.

Modelling choices:

- Every call into the library lands in one `VaultApi.Log`. `NewClient`, `Client.Login` and
  `Client.Read` each append their own `Call` to it. A client records into the log it was
  created with. A call that is made is therefore a call that is recorded. The contracts
  state "no client created, no login attempted" and "no later path read" about this log.
- The Go map `mapping` is a sequence of entries in the loop's visiting order. The lemmas hold
  for every order, and last-write-wins is stated relative to that order.
- The inner `range vaultSecret.Data` picks its next key nondeterministically (`:|`). The
  result does not depend on that choice.

Facts about the Go code that the model keeps:

- An error return keeps the map built so far (check.go:89, check.go:92). `main` then
  panics on the error through `PanicCheck` (check.go:58-59), so that map is never written out.
- A non-string value makes the cast `v.(string)` panic (check.go:101). No error value is
  returned, and the runtime's message names neither the path nor the key. The model's
  `CastFailed` records the path, so that the model can say which entry failed.
- The token taken from the login reply is not checked to be non-empty (check.go:125). An
  empty token is set on the client like any other.

## Model

| member | source | states |
|---|---|---|
| Check.GetSecrets | check.go:81-105 | the outcome is that of the session followed by the merge, from an empty map; the log grows by exactly the session's calls and then the merge's reads; an empty app id or user id panics with the log unchanged |
| Check.VaultSession | check.go:108-128 | an empty app id fails first, then an empty user id, both with the log unchanged (no client created, no login attempted); otherwise client setup and login errors and a reply without auth fail; on success a fresh client bound to the address and the log carries the login token; the log grows by exactly the client creation and the login that were made |
| Check.MergeSecrets | check.go:84-103 | the loop over the entries returns what the reference merge returns for the store seen through the client's token, and the log grows by exactly the reads that merge makes: one per entry, in order, up to the first entry that cannot be merged |
| Check.MergeStep | check.go:85-102 | one turn at entry i: a read error or missing secret returns the map so far with that error, a non-string value panics, otherwise the turn adds the flattened secret and goes on; only this entry's path is read |
| Check.WriteFlattened | check.go:99-102 | succeeds exactly when every value is a string; then the map becomes the old map overwritten by the secret's flattened strings: its keys are the old keys plus the flattened keys, and every other key keeps its value |
| Check.FlattenAt | check.go:100-101 | each string value of a secret is found under its flattened key |
| Check.FlattenAdd | check.go:100-101 | writing one more key adds exactly its flattened key with its string |
| Check.FlatKey | check.go:100 | the flattened key is the prefix, a dash and the key, in that order, with the lengths adding up |
| Check.FlatKeyInjective | check.go:100 | under one prefix, distinct keys give distinct flattened keys |
| VaultApi.NewClient | check.go:116-119 | client creation is logged; it either fails with the library's error or yields a fresh client bound to the address, backend and log, with no token |
| VaultApi.Client.Login | check.go:122-123 | the login is logged, and its reply is the backend's reply for this address, app id and user id |
| VaultApi.Client.SetToken | check.go:125 | the client's token becomes the given token |
| VaultApi.Client.Read | check.go:85 | the read is logged, and its result is the backend's result for this address, the current token and the path |
| CheckProperties.MergedSecrets | check.go:84-104 | on success every entry held a secret of strings and every path was read once, in order; every key k of every entry's secret appears as prefix-k; every result key has that form for some entry and key; and the value is the store's string from the last entry producing that key |
| CheckProperties.MergeSucceedsIff | check.go:84-104 | the merge succeeds if and only if every read finds a secret whose values are all strings; then the map is the union of all entries' contributions and every path is read |
| CheckProperties.FailFast | check.go:85-101 | if entries before i merge and entry i does not: a read error returns that error, a missing secret returns the not-found error for its path, a non-string value panics; an error return keeps the contributions of entries 0..i-1; paths after i are never read |
| CheckProperties.WarningsIgnored | check.go:94-96 | stores that differ only in warnings give the same outcome and the same reads |
| CheckProperties.FlattenContents | check.go:99-102 | a secret of strings flattens to exactly its values, each verbatim under prefix-k, and nothing else |
| CheckProperties.ContributionKeys | check.go:99-102 | a flattened key is in the merged map exactly when some entry writes it |
| CheckProperties.LastWriteWins | check.go:84-101 | the merged value under a key is the one written by the last entry that writes that key |
| CheckProperties.ContributionProvenance | check.go:84-101 | every key of the merged map has a last writer, and it holds that writer's value |
| CheckProperties.LastWriterExists | check.go:84-101 | a key written by some entry has a last writer |
| CheckProperties.FlatKeyCollides | check.go:100 | flattening is not injective: ("a-b", "c") and ("a", "b-c") give the same key |
| CheckProperties.FlatKeyUniqueWithoutDash | check.go:100 | when no prefix contains a dash, a flattened key determines its prefix and key |
| Check.NotFoundMessage | check.go:92 | the not-found message contains the path verbatim after its 14-character head, and is 26 characters longer than the path |
| CheckProperties.NotFoundMessageInjective | check.go:92 | different paths give different not-found messages |
| CheckProperties.ErrorNamesEntry | check.go:84-93 | every error the merge returns comes from the first entry whose read cannot be merged: a read error with the library's message unchanged, or the not-found error whose message names that entry's path |
| CheckProperties.MergeTwo | check.go:84-102 | two mergeable entries give the union of their contributions, the second winning |
| CheckProperties.FlattenExample | check.go:84-102 | prefixes db and api over {user: u1, pass: p1} and {token: t1} give {db-user: u1, db-pass: p1, api-token: t1} |
| CheckProperties.CollisionExample | check.go:100-101 | entries ("a-b", {c: x}) then ("a", {b-c: y}) give only {a-b-c: y} |
| CheckProperties.OverwriteExample | check.go:100-101 | two paths with the same prefix and key keep the value read last; the repeated prefix exists only in the sequence of entries, not in a Go map |
| CheckProperties.FailFastExample | check.go:91-93 | a missing first path gives the not-found error with an empty map, and the second path is never read |

## Left out

- `main`: command dispatch, argument handling, reading `VAULT_USER_ID` from the
  environment and the version stamps from the clock and the fixed literal (check.go:41-77).
  This is process plumbing. The user id arrives as a field of `Config`.
- The output file and the JSON encoding to it and to standard output (check.go:62-72).
  This is file and stream I/O.
- `ProcessInput` (check.go:130-139). It is stdin reading and JSON decoding.
- `PanicCheck` and every `log` call (check.go:141-145, check.go:95). Panics are the
  `Panicked` outcome, and logging is dropped.
- The log messages of the two credential guards are swapped (check.go:111, check.go:114).
  Only which guard fails is modelled, not the message text.
- The Vault client library. Client creation, login and reads are oracles of `Backend`.
  - Any token the library may take from its own environment is not modelled. A new
    client's token is empty.
  - `vault.DefaultConfig` is reduced to the address.
  - The login request's path and payload are the address, app id and user id of the
    `LoginCall`.
- A login reply that is nil and one without `Auth` are one case, `LoginOk(None)`. Both
  panic on the nil dereference at check.go:125.
- `CheckProperties.FailFast`: a failed cast records only the path of the secret, not the
  key or the Go runtime's panic message.
- `Check.GetSecrets`: the mapping is a sequence in one visiting order. Go's randomised map
  order is not modelled, so the lemmas quantify over all sequences instead. A sequence
  may repeat a prefix, which a Go map cannot.
- The log records the calls made through the library's operations on the log they are
  given. A `Log` that a method allocates for itself is not tied to the caller's log.
  The contracts speak only of the log passed in.
- Calling the merge twice with the same inputs gives the same result. This is immediate
  here because `Expected` is a function of its inputs, so no lemma states it.
