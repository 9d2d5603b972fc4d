/**
 * The part of the Vault client library (github.com/hashicorp/vault/api) that the
 * resource uses, kept abstract. What the server answers is a parameter, a `Backend`:
 * one total function per remote operation. Nothing about the wire protocol is modelled.
 */
module VaultApi {
  import opened Results

  /** A value in a secret's data. The client decodes JSON, so a value is either a
      string or something else (number, boolean, object, list, null). */
  datatype Value = Str(s: string) | NonString

  /** The three outcomes of `Logical().Read(path)`. */
  datatype ReadResult =
    | ReadError(msg: string)                                  // err != nil
    | NoSecret                                                // (nil, nil): nothing at the path
    | Found(data: map<string, Value>, warnings: seq<string>)  // a secret with its data

  /** The outcome of `Logical().Write("auth/app-id/login", ...)`. `LoginOk(None)` is a reply
      without authentication data (a nil secret or a nil `Auth`). */
  datatype LoginReply = LoginError(msg: string) | LoginOk(clientToken: Option<string>)

  /** How the server (and client set-up) behave, as functions of their inputs. */
  datatype Backend = Backend(
    newClient: string -> Option<string>,            // address -> set-up error, if any
    login: (string, string, string) -> LoginReply,  // (address, app id, user id)
    read: (string, string, string) -> ReadResult)   // (address, token, path)

  /** One call into the client library, for traces of what was attempted. */
  datatype Call =
    | NewClientCall(address: string)
    | LoginCall(address: string, appId: string, userId: string)
    | ReadCall(path: string)

  /** The record of every call made into the library, which the library's own operations
      extend: a call that is made is a call that is recorded. */
  class Log {
    ghost var calls: seq<Call>

    constructor ()
      ensures calls == []
    {
      calls := [];
    }
  }

  /** A client bound to one server address; its token is set after login. Every call it
      makes is recorded in `log`. */
  class Client {
    const address: string
    const backend: Backend
    ghost const log: Log
    var token: string

    constructor (address: string, backend: Backend, ghost log: Log)
      ensures this.address == address && this.backend == backend && this.log == log && token == ""
    {
      this.address := address;
      this.backend := backend;
      this.log := log;
      token := "";
    }

    /** `client.SetToken(t)`. */
    method SetToken(t: string)
      modifies this
      ensures token == t
    {
      token := t;
    }

    /** `client.Logical().Write("auth/app-id/login", {app_id, user_id})`. */
    method Login(appId: string, userId: string) returns (reply: LoginReply)
      modifies log
      ensures reply == backend.login(address, appId, userId)
      ensures log.calls == old(log.calls) + [LoginCall(address, appId, userId)]
    {
      reply := backend.login(address, appId, userId);
      log.calls := log.calls + [LoginCall(address, appId, userId)];
    }

    /** `client.Logical().Read(path)`, made with the current token. */
    method Read(path: string) returns (r: ReadResult)
      modifies log
      ensures r == backend.read(address, token, path)
      ensures log.calls == old(log.calls) + [ReadCall(path)]
    {
      r := backend.read(address, token, path);
      log.calls := log.calls + [ReadCall(path)];
    }
  }

  /** `vault.NewClient(config)` with `config.Address` set to `address`; the client it makes
      records its calls in `log`. */
  method NewClient(address: string, backend: Backend, ghost log: Log) returns (r: Result<Client, string>)
    modifies log
    ensures log.calls == old(log.calls) + [NewClientCall(address)]
    ensures backend.newClient(address).Some? ==> r == Failure(backend.newClient(address).value)
    ensures backend.newClient(address).None? ==>
      r.Success? && fresh(r.value) && r.value.address == address &&
      r.value.backend == backend && r.value.log == log && r.value.token == ""
  {
    log.calls := log.calls + [NewClientCall(address)];
    match backend.newClient(address)
    case Some(msg) =>
      r := Failure(msg);
    case None =>
      var client := new Client(address, backend, log);
      r := Success(client);
  }
}
