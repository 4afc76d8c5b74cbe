/**
 * The cache (src/redis/redis.service.ts:22-28): `get` and `set` with an
 * expiry over a key-value store. Values are the decoded address lists,
 * since JSON encoding and decoding of a list of strings is taken as the
 * identity. Whether the unseen client fails is fixed when it is built; the
 * commands it is sent are recorded in order. Expiry itself is not modelled:
 * an entry records its TTL and stays.
 */
module Redis {
  import opened Wrappers

  datatype Entry = Entry(value: seq<string>, expirySeconds: nat)

  datatype Command = Get(key: string) | Set(key: string, value: seq<string>, expirySeconds: nat)

  datatype RedisError = RedisError

  class RedisService {
    var store: map<string, Entry>
    var commands: seq<Command>
    const getFails: bool
    const setFails: bool

    constructor (store: map<string, Entry>, getFails: bool, setFails: bool)
      ensures this.store == store && commands == []
      ensures this.getFails == getFails && this.setFails == setFails
    {
      this.store := store;
      commands := [];
      this.getFails := getFails;
      this.setFails := setFails;
    }

    /** The stored value, None when the key is absent; the store is not changed. */
    method Get(key: string) returns (r: Result<Option<seq<string>>, RedisError>)
      modifies this`commands
      ensures commands == old(commands) + [Command.Get(key)]
      ensures getFails ==> r == Err(RedisError)
      ensures !getFails ==> r == Ok(if key in store then Some(store[key].value) else None)
    {
      commands := commands + [Command.Get(key)];
      if getFails {
        r := Err(RedisError);
      } else if key in store {
        r := Ok(Some(store[key].value));
      } else {
        r := Ok(None);
      }
    }

    /** Stores value under key with the given expiry, replacing any entry; a failed write stores nothing. */
    method Set(key: string, value: seq<string>, expirySeconds: nat) returns (r: Result<(), RedisError>)
      modifies this`store, this`commands
      ensures commands == old(commands) + [Command.Set(key, value, expirySeconds)]
      ensures r == if setFails then Err(RedisError) else Ok(())
      ensures store == if setFails then old(store) else old(store)[key := Entry(value, expirySeconds)]
    {
      commands := commands + [Command.Set(key, value, expirySeconds)];
      if setFails {
        r := Err(RedisError);
      } else {
        store := store[key := Entry(value, expirySeconds)];
        r := Ok(());
      }
    }
  }
}
