/** The key/value cache that holds the account nonce. */
module Storage {
  import opened Wrappers

  class Cache {
    var m: map<string, nat>

    constructor ()
      ensures m == map[]
    {
      m := map[];
    }

    method Get(key: string) returns (value: Option<nat>)
      ensures value == if key in m then Some(m[key]) else None
    {
      value := if key in m then Some(m[key]) else None;
    }

    method Set(key: string, value: nat)
      modifies this
      ensures m == old(m)[key := value]
    {
      m := m[key := value];
    }
  }
}
