/** The remote store the handles talk to, held in memory: one list per key.
    As in Redis, a key whose list becomes empty is removed, and a missing
    key reads as the empty list. */
module RedisStore {
  import opened ListCommands

  /** The list stored under key, or the empty list when there is none. */
  function Lookup(lists: map<string, seq<string>>, key: string): seq<string>
  {
    if key in lists then lists[key] else []
  }

  /** The store after the list under key has been set to v: the key is
      removed when v is empty, every other key keeps its list. */
  function Assign(lists: map<string, seq<string>>, key: string, v: seq<string>): (after: map<string, seq<string>>)
    ensures Lookup(after, key) == v
    ensures key in after <==> v != []
    ensures forall k :: k != key ==> Lookup(after, k) == Lookup(lists, k)
  {
    if v == [] then lists - {key} else lists[key := v]
  }

  /** Every list except the one under key is the same in both stores. */
  ghost predicate SameElsewhere(before: map<string, seq<string>>, after: map<string, seq<string>>, key: string)
  {
    forall k :: k != key ==> Lookup(after, k) == Lookup(before, k)
  }

  class Store {
    var lists: map<string, seq<string>>

    /** No key holds an empty list: Redis removes a key whose list
        becomes empty. The handles cannot observe this rule, because a
        missing key and an empty list read the same through Lookup; it is
        kept so that the map matches the server's key space. */
    ghost predicate Valid()
      reads this
    {
      forall k :: k in lists ==> lists[k] != []
    }

    function Get(key: string): seq<string>
      reads this
    {
      Lookup(lists, key)
    }

    constructor ()
      ensures Valid() && lists == map[]
    {
      lists := map[];
    }

    /** LPUSH key e; replies with the new length of the list. */
    method LPush(key: string, e: string) returns (length: nat)
      requires Valid()
      modifies this
      ensures Valid()
      ensures lists == Assign(old(lists), key, Push(old(Get(key)), e, Left))
      ensures length == |Get(key)| == |old(Get(key))| + 1
    {
      lists := Assign(lists, key, Push(Get(key), e, Left));
      length := |Get(key)|;
    }

    /** RPUSH key e; replies with the new length of the list. */
    method RPush(key: string, e: string) returns (length: nat)
      requires Valid()
      modifies this
      ensures Valid()
      ensures lists == Assign(old(lists), key, Push(old(Get(key)), e, Right))
      ensures length == |Get(key)| == |old(Get(key))| + 1
    {
      lists := Assign(lists, key, Push(Get(key), e, Right));
      length := |Get(key)|;
    }

    /** LPOP key; nil when the list is empty or missing. */
    method LPop(key: string) returns (popped: Option<string>)
      requires Valid()
      modifies this
      ensures Valid()
      ensures Popped(popped, Get(key)) == Pop(old(Get(key)), Left)
      ensures lists == Assign(old(lists), key, Get(key))
    {
      var p := Pop(Get(key), Left);
      lists := Assign(lists, key, p.rest);
      popped := p.value;
    }

    /** RPOP key; nil when the list is empty or missing. */
    method RPop(key: string) returns (popped: Option<string>)
      requires Valid()
      modifies this
      ensures Valid()
      ensures Popped(popped, Get(key)) == Pop(old(Get(key)), Right)
      ensures lists == Assign(old(lists), key, Get(key))
    {
      var p := Pop(Get(key), Right);
      lists := Assign(lists, key, p.rest);
      popped := p.value;
    }

    /** LRANGE key start stop; reads the store and changes nothing. */
    method LRange(key: string, start: int, stop: int) returns (elements: seq<string>)
      ensures elements == Range(Get(key), start, stop)
      ensures start == 0 && stop == -1 ==> elements == Get(key)
    {
      elements := Range(Get(key), start, stop);
      RangeWhole(Get(key));
    }

    /** LTRIM key start stop: keeps what LRANGE with the same indices
        returns, and removes the key when that is nothing. */
    method LTrim(key: string, start: int, stop: int)
      requires Valid()
      modifies this
      ensures Valid()
      ensures lists == Assign(old(lists), key, Range(old(Get(key)), start, stop))
    {
      lists := Assign(lists, key, Range(Get(key), start, stop));
    }
  }
}
