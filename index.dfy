/** The key index of storage/index.go: a map from string keys to `int64` values. */
module Index {
  import opened Bytes

  class Index {
    var data: map<seq<Byte>, I64>

    /** `NewIndex`: no keys. */
    constructor ()
      ensures data == map[]
      ensures forall k :: Get(k) == (0, false)
    {
      data := map[];
    }

    /** `Set`: maps `key` to `value`, replacing any earlier value. */
    method Set(key: seq<Byte>, value: I64)
      modifies this
      ensures data == old(data)[key := value]
      ensures Get(key) == (value, true)
      ensures forall k :: k != key ==> Get(k) == old(Get(k))
    {
      data := data[key := value];
    }

    /** `Get`: the value under `key` and true, or 0 and false. */
    function Get(key: seq<Byte>): (I64, bool)
      reads this
    {
      if key in data then (data[key], true) else (0, false)
    }

    /** `Remove`: drops `key`; removing an absent key changes nothing. */
    method Remove(key: seq<Byte>)
      modifies this
      ensures data == old(data) - {key}
      ensures Get(key) == (0, false)
      ensures key !in old(data) ==> data == old(data)
      ensures forall k :: k != key ==> Get(k) == old(Get(k))
    {
      data := data - {key};
    }
  }
}
