/**
 * `MemoryStorage` (src/core/SSOClient.ts): the client's key/value store when no
 * browser storage is available. A read goes through `|| null`, so a key that
 * holds the empty string reads as absent.
 */
module Storage {
  import opened Wrappers

  /** What `getItem` yields for the stored map `data`. */
  function Get(data: map<string, string>, key: string): (r: Option<string>)
    ensures r.Some? <==> key in data && data[key] != ""
    ensures r.Some? ==> r.value == data[key] && r.value != ""
  {
    if key in data && data[key] != "" then Some(data[key]) else None
  }

  /** A write is read back unless it wrote "", and no other key's read changes. */
  lemma GetAfterSet(data: map<string, string>, key: string, value: string, other: string)
    ensures Get(data[key := value], key) == if value == "" then None else Some(value)
    ensures other != key ==> Get(data[key := value], other) == Get(data, other)
  {
  }

  /** After a removal the key reads as absent, and no other key's read changes. */
  lemma GetAfterRemove(data: map<string, string>, key: string, other: string)
    ensures Get(data - {key}, key) == None
    ensures other != key ==> Get(data - {key}, other) == Get(data, other)
  {
  }

  class MemoryStorage {
    var data: map<string, string>

    constructor()
      ensures data == map[]
    {
      data := map[];
    }

    /** `getItem(key)`: the stored value, or nothing for a missing or empty one. */
    function GetItem(key: string): (r: Option<string>)
      reads this
      ensures r.Some? <==> key in data && data[key] != ""
      ensures r.Some? ==> r.value == data[key]
    {
      Get(data, key)
    }

    /** `setItem(key, value)`. */
    method SetItem(key: string, value: string)
      modifies this
      ensures data == old(data)[key := value]
      ensures GetItem(key) == if value == "" then None else Some(value)
    {
      data := data[key := value];
    }

    /** `removeItem(key)`: a missing key is no change. */
    method RemoveItem(key: string)
      modifies this
      ensures data == old(data) - {key}
      ensures GetItem(key) == None
      ensures key !in old(data) ==> data == old(data)
    {
      data := data - {key};
    }
  }
}
