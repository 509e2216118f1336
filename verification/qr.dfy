/** The four collection handles. Each binds one key of the store (and,
    for the capped collection, a size) and turns each of its methods into
    one list command on the list under that key, or, for the capped push,
    one MULTI/EXEC transaction of two commands. The store is passed in
    where qr.py builds its own client connection. */
module Qr {
  import opened ListCommands
  import opened RedisStore

  /** The list after a capped push of e with the given size: LPUSH e, then
      LTRIM 0 (size - 1). A size of at least 1 keeps the newest size
      elements, newest first; a size of at most 0 makes the trim's stop
      index negative, which counts from the end, so it drops only the last
      -size elements and a size of 0 keeps the whole list. */
  function CappedPush(s: seq<string>, e: string, size: int): (r: seq<string>)
    ensures size >= 1 ==> r == ([e] + s)[..Min(size, |s| + 1)]
    ensures size <= 0 ==> r == ([e] + s)[..Max(|s| + 1 + size, 0)]
  {
    var pushed := Push(s, e, Left);
    RangePrefixAfterPush(pushed, size);
    Range(pushed, 0, size - 1)
  }

  lemma RangePrefixAfterPush(s: seq<string>, size: int)
    ensures size >= 1 ==> Range(s, 0, size - 1) == s[..Min(size, |s|)]
    ensures size <= 0 ==> Range(s, 0, size - 1) == s[..Max(|s| + size, 0)]
  {
    if size >= 1 {
      RangePrefix(s, size - 1);
    } else {
      RangeDropLast(s, -size);
    }
  }

  /** The invariant the capped collection promises: with a size of at
      least 1, a push leaves at most size elements, the pushed one first,
      and drops nothing while there is room. */
  lemma CappedPushBounded(s: seq<string>, e: string, size: int)
    requires size >= 1
    ensures |CappedPush(s, e, size)| <= size
    ensures CappedPush(s, e, size)[0] == e
    ensures |s| < size ==> CappedPush(s, e, size) == [e] + s
    ensures |s| >= size ==> CappedPush(s, e, size) == [e] + s[..size - 1]
  {
  }

  /** With a size of 0 the trim keeps the whole list: the push only grows it. */
  lemma CappedPushSizeZero(s: seq<string>, e: string)
    ensures CappedPush(s, e, 0) == [e] + s
    ensures |CappedPush(s, e, 0)| == |s| + 1
  {
  }

  /** A double-ended queue: the left end of the list is the back, the
      right end the front. */
  class Deque {
    const key: string
    const store: Store

    constructor (key: string, store: Store)
      ensures this.key == key && this.store == store
    {
      this.key := key;
      this.store := store;
    }

    /** Pushes e at the back: LPUSH. */
    method PushBack(e: string)
      requires store.Valid()
      modifies store
      ensures store.Valid()
      ensures store.Get(key) == ListCommands.Push(old(store.Get(key)), e, Left)
      ensures SameElsewhere(old(store.lists), store.lists, key)
    {
      var pushed := store.LPush(key, e);
    }

    /** Pushes e at the front: RPUSH. */
    method PushFront(e: string)
      requires store.Valid()
      modifies store
      ensures store.Valid()
      ensures store.Get(key) == ListCommands.Push(old(store.Get(key)), e, Right)
      ensures SameElsewhere(old(store.lists), store.lists, key)
    {
      var pushed := store.RPush(key, e);
    }

    /** Pops the front: RPOP, None on an empty deque. */
    method PopFront() returns (popped: Option<string>)
      requires store.Valid()
      modifies store
      ensures store.Valid()
      ensures Popped(popped, store.Get(key)) == ListCommands.Pop(old(store.Get(key)), Right)
      ensures SameElsewhere(old(store.lists), store.lists, key)
    {
      popped := store.RPop(key);
    }

    /** Pops the back: LPOP, None on an empty deque. */
    method PopBack() returns (popped: Option<string>)
      requires store.Valid()
      modifies store
      ensures store.Valid()
      ensures Popped(popped, store.Get(key)) == ListCommands.Pop(old(store.Get(key)), Left)
      ensures SameElsewhere(old(store.lists), store.lists, key)
    {
      popped := store.LPop(key);
    }

    /** All elements, head to tail (LRANGE 0 -1); changes nothing. */
    method Elements() returns (elements: seq<string>)
      ensures elements == store.Get(key)
    {
      elements := store.LRange(key, 0, -1);
    }
  }

  /** A FIFO queue: pushed at the left end, popped at the right end. */
  class Queue {
    const key: string
    const store: Store

    constructor (key: string, store: Store)
      ensures this.key == key && this.store == store
    {
      this.key := key;
      this.store := store;
    }

    /** Pushes e: LPUSH. */
    method Push(e: string)
      requires store.Valid()
      modifies store
      ensures store.Valid()
      ensures store.Get(key) == ListCommands.Push(old(store.Get(key)), e, Left)
      ensures SameElsewhere(old(store.lists), store.lists, key)
    {
      var pushed := store.LPush(key, e);
    }

    /** Pops the oldest element: RPOP, None on an empty queue. */
    method Pop() returns (popped: Option<string>)
      requires store.Valid()
      modifies store
      ensures store.Valid()
      ensures Popped(popped, store.Get(key)) == ListCommands.Pop(old(store.Get(key)), Right)
      ensures SameElsewhere(old(store.lists), store.lists, key)
    {
      popped := store.RPop(key);
    }

    /** All elements, head to tail (LRANGE 0 -1); changes nothing. qr.py
        replaces a nil reply by the empty list; LRANGE already
        replies with an empty array for a missing key, so the reply is
        returned as it is. */
    method Elements() returns (elements: seq<string>)
      ensures elements == store.Get(key)
    {
      elements := store.LRange(key, 0, -1);
    }
  }

  /** A collection that, after each push, holds at most size elements (for
      a size of at least 1): pushed at the left end, trimmed from the right. */
  class CappedCollection {
    const key: string
    const size: int
    const store: Store

    constructor (key: string, size: int, store: Store)
      ensures this.key == key && this.size == size && this.store == store
    {
      this.key := key;
      this.size := size;
      this.store := store;
    }

    /** Pushes e and trims to size, as one indivisible transaction
        (LPUSH key e, LTRIM key 0 size-1). Whatever the list held before,
        afterwards it holds at most size elements when size >= 1. */
    method Push(e: string)
      requires store.Valid()
      modifies store
      ensures store.Valid()
      ensures store.Get(key) == CappedPush(old(store.Get(key)), e, size)
      ensures size >= 1 ==> |store.Get(key)| <= size && store.Get(key)[0] == e
      ensures SameElsewhere(old(store.lists), store.lists, key)
    {
      var pushed := store.LPush(key, e);
      store.LTrim(key, 0, size - 1);
      if size >= 1 {
        CappedPushBounded(old(store.Get(key)), e, size);
      }
    }

    /** Pops the oldest element: RPOP, None on an empty collection. */
    method Pop() returns (popped: Option<string>)
      requires store.Valid()
      modifies store
      ensures store.Valid()
      ensures Popped(popped, store.Get(key)) == ListCommands.Pop(old(store.Get(key)), Right)
      ensures SameElsewhere(old(store.lists), store.lists, key)
    {
      popped := store.RPop(key);
    }

    /** All elements, newest first (LRANGE 0 -1); changes nothing. */
    method Elements() returns (elements: seq<string>)
      ensures elements == store.Get(key)
    {
      elements := store.LRange(key, 0, -1);
    }
  }

  /** A LIFO stack: pushed and popped at the left end. */
  class Stack {
    const key: string
    const store: Store

    constructor (key: string, store: Store)
      ensures this.key == key && this.store == store
    {
      this.key := key;
      this.store := store;
    }

    /** Pushes e: LPUSH. */
    method Push(e: string)
      requires store.Valid()
      modifies store
      ensures store.Valid()
      ensures store.Get(key) == ListCommands.Push(old(store.Get(key)), e, Left)
      ensures SameElsewhere(old(store.lists), store.lists, key)
    {
      var pushed := store.LPush(key, e);
    }

    /** Pops the newest element: LPOP, None on an empty stack. */
    method Pop() returns (popped: Option<string>)
      requires store.Valid()
      modifies store
      ensures store.Valid()
      ensures Popped(popped, store.Get(key)) == ListCommands.Pop(old(store.Get(key)), Left)
      ensures SameElsewhere(old(store.lists), store.lists, key)
    {
      popped := store.LPop(key);
    }

    /** All elements, newest first (LRANGE 0 -1); changes nothing. */
    method Elements() returns (elements: seq<string>)
      ensures elements == store.Get(key)
    {
      elements := store.LRange(key, 0, -1);
    }
  }
}
