# QR: Redis-backed collections, modelled in Dafny

QR (`qr.py`) gives four handle classes over Redis lists: `Deque`, `Queue`,
`CappedCollection` and `Stack`. A handle holds a key (and, for the capped
collection, a size). Each of its methods issues one list command on the list
under that key. The capped push is the exception: it issues one MULTI/EXEC
pipeline of LPUSH followed by LTRIM.

The model has five modules:

- `ListCommands` (`list_commands.dfy`) gives the Redis list commands as
  functions on one list's value. Index 0 is the left end. `Push` models LPUSH
  and RPUSH. `Pop` models LPOP and RPOP, and returns `None` on an empty list.
  `Range` models LRANGE, and is also what LTRIM keeps. It follows Redis's index
  rules: a negative index counts from the end, the start is clamped to 0, the
  stop is clamped to the last element, and the result is empty when the start
  lies past the stop or past the end.
- `RedisStore` (`redis_store.dfy`) holds the store as the class `Store`, whose
  field `lists: map<string, seq<string>>` is updated in place by the methods
  `LPush`, `RPush`, `LPop`, `RPop` and `LTrim`. `LRange` only reads. As in
  Redis, a list that becomes empty loses its key (`Valid`), and a missing key
  reads as the empty list (`Get`).
- `Qr` (`qr.dfy`) holds the four handle classes. Each has a `const key` and a
  `const store`. Every mutating method states the new list under its key in
  terms of the old one, and states that every other key is unchanged
  (`SameElsewhere`). `CappedPush` is the list that a capped push leaves.
- `QrProperties` (`qr_properties.dfy`) states the orders the handles promise,
  over runs of pushes (`Pushes`, `CappedPushes`) and pops (`Pops`): FIFO,
  LIFO, the deque's ends, and the capped collection's bound and contents.
- `QrScenarios` (`qr_scenarios.dfy`) holds client methods. Each builds a fresh
  store, drives the handles, and proves the replies from the handles'
  contracts alone.

The deque follows the code: `pushback` is LPUSH and `popback` is LPOP, so the
back is the left end. `pushfront` is RPUSH and `popfront` is RPOP, so the front
is the right end.

With a size of at least 1, a capped push leaves at most `size` elements, and the
pushed element comes first. The size is a plain integer, because the
constructor does not validate it. A size of 0 issues `LTRIM key 0 -1`. Under
Redis's rule, -1 is the last element, so the whole list is kept and the
collection grows without bound (`CappedPushSizeZero`, `CappedSizeZero`).
More generally, a size of at most 0 keeps all but the last `-size` elements
(the second `ensures` of `CappedPush`), as long as `size - 1` fits in a signed
64-bit integer; sizes outside that range are listed under "Left out".

## Model

| member | source | states |
|---|---|---|
| `ListCommands.Push` | qr.py:52 | LPUSH/RPUSH add exactly one element: the pushed one at index 0 (left) or at the end (right), with the old list behind or before it |
| `ListCommands.Pop` | qr.py:64 | LPOP/RPOP reply `None` exactly when the list is empty, and leave an empty list empty; otherwise pushing the reply back at the same end restores the list |
| `ListCommands.Range` | qr.py:134 | LRANGE/LTRIM keep a contiguous run of the list, starting at the normalised start index, and never more than the list |
| `ListCommands.RangeWhole` | qr.py:78 | `LRANGE key 0 -1` is the whole list, head to tail |
| `ListCommands.RangePrefix` | qr.py:134 | `LTRIM key 0 n` with n >= 0 keeps the first n+1 elements, or the whole list when it is shorter |
| `ListCommands.RangeDropLast` | qr.py:134 | `LTRIM key 0 -k-1` drops the last k elements, or all of them when there are at most k |
| `ListCommands.PushThenPop` | qr.py:49-73 | a pop at the end just pushed to returns the pushed element and restores the list (deque pushback/popback, pushfront/popfront; stack push/pop) |
| `RedisStore.Assign` | qr.py:51 | setting the list under one key leaves the list under every other key as it was; an empty list removes the key |
| `RedisStore.Store.LPush` | qr.py:52 | LPUSH prepends to the list under the key only, and replies with the new length, one more than before |
| `RedisStore.Store.RPush` | qr.py:58 | RPUSH appends to the list under the key only, and replies with the new length |
| `RedisStore.Store.LPop` | qr.py:71 | LPOP removes and returns the head, or `None` on an empty or missing list; other keys unchanged |
| `RedisStore.Store.RPop` | qr.py:64 | RPOP removes and returns the tail, or `None` on an empty or missing list; other keys unchanged |
| `RedisStore.Store.LRange` | qr.py:78 | LRANGE reads the range of the list and changes nothing; `0 -1` returns the whole list |
| `RedisStore.Store.LTrim` | qr.py:134 | LTRIM keeps what LRANGE with the same indices returns and touches no other key |
| `Qr.CappedPush` | qr.py:130-135 | with size >= 1 a capped push leaves the first `size` elements of `[e] + old`; with size <= 0 it leaves `[e] + old` minus its last `-size` elements |
| `Qr.CappedPushBounded` | qr.py:121-135 | with size >= 1 the list after a capped push has at most `size` elements and starts with e; nothing is dropped while the old list is shorter than `size`; otherwise only the first `size`-1 old elements survive, so exactly the oldest is dropped when the list held `size` elements |
| `Qr.CappedPushSizeZero` | qr.py:134 | with size 0 the trim keeps everything: the list grows by one on every push |
| `Qr.Deque.constructor` | qr.py:45-47 | the handle is bound to the given key and store |
| `Qr.Deque.PushBack` | qr.py:49-53 | pushback prepends (left end is the back); other keys unchanged |
| `Qr.Deque.PushFront` | qr.py:55-59 | pushfront appends (right end is the front); other keys unchanged |
| `Qr.Deque.PopFront` | qr.py:61-66 | popfront removes and returns the last element, or `None` on an empty deque; other keys unchanged |
| `Qr.Deque.PopBack` | qr.py:68-73 | popback removes and returns the first element, or `None` on an empty deque; other keys unchanged |
| `Qr.Deque.Elements` | qr.py:75-79 | returns the whole list, head to tail, and changes nothing |
| `Qr.Queue.constructor` | qr.py:91-93 | the handle is bound to the given key and store |
| `Qr.Queue.Push` | qr.py:95-99 | push prepends; other keys unchanged |
| `Qr.Queue.Pop` | qr.py:101-106 | pop removes and returns the last (oldest) element, or `None` when empty; other keys unchanged |
| `Qr.Queue.Elements` | qr.py:108-112 | returns the whole list (the empty list for a missing key) and changes nothing |
| `Qr.CappedCollection.constructor` | qr.py:125-128 | the handle is bound to the given key, size and store |
| `Qr.CappedCollection.Push` | qr.py:130-135 | the push and trim together leave `CappedPush(old, e, size)`, so with size >= 1 at most `size` elements whatever the list held before; other keys unchanged |
| `Qr.CappedCollection.Pop` | qr.py:137-141 | pop removes and returns the last (oldest) element, or `None` when empty; other keys unchanged |
| `Qr.CappedCollection.Elements` | qr.py:143-147 | returns the whole list, newest first, and changes nothing |
| `Qr.Stack.constructor` | qr.py:159-161 | the handle is bound to the given key and store |
| `Qr.Stack.Push` | qr.py:163-167 | push prepends; other keys unchanged |
| `Qr.Stack.Pop` | qr.py:169-174 | pop removes and returns the first (newest) element, or `None` when empty; other keys unchanged |
| `Qr.Stack.Elements` | qr.py:176-180 | returns the whole list, newest first, and changes nothing |
| `QrProperties.PushesLeft` | qr.py:98 | a run of left pushes puts the run, newest first, in front of the old list |
| `QrProperties.PushesRight` | qr.py:58 | a run of right pushes appends the run in push order |
| `QrProperties.PopsLeft` | qr.py:172 | on a list `a + b`, as many left pops as `a` has elements return the elements of `a` in order and leave `b` |
| `QrProperties.PopsRight` | qr.py:104 | on a list `a + b`, as many right pops as `b` has elements return the elements of `b`, last first, and leave `a` |
| `QrProperties.DrainRight` | qr.py:139 | popping a whole list at the right end returns it reversed and leaves it empty |
| `QrProperties.PopsEmpty` | qr.py:61-73 | any number of pops on a missing or empty list return `None` each time and leave it empty |
| `QrProperties.QueueFifo` | qr.py:95-106 | queue FIFO: after pushes onto a queue, draining it returns the old contents oldest first, then the pushed elements in push order, and leaves it empty (also the deque's pushback drained by popfront) |
| `QrProperties.QueueFifoFromEmpty` | qr.py:95-106 | n pushes onto a fresh queue, then n pops, return the elements in push order and leave the list empty |
| `QrProperties.DequeFrontToBack` | qr.py:55-73 | deque pushfronts drained by popback come out after the old contents, in push order |
| `QrProperties.StackLifo` | qr.py:163-174 | stack LIFO: n pushes followed by n pops return the elements newest first and restore the list exactly |
| `QrProperties.CappedHistory` | qr.py:130-135 | after capped pushes with size >= 1 the list is the first `size` elements of (the pushes, newest first) followed by the old list |
| `QrProperties.CappedNeverLarger` | qr.py:121-123 | once pushed to, a capped collection with size >= 1 never holds more than `size` elements |
| `QrProperties.CappedMostRecent` | qr.py:130-135 | after m >= size pushes onto a fresh key the list holds exactly the `size` most recent elements, most recent first |
| `QrProperties.CappedWithinSize` | qr.py:130-135 | m <= size pushes onto a fresh key drop nothing: all m elements, most recent first |
| `QrProperties.CappedSizeZero` | qr.py:134 | with size 0 capped pushes are plain left pushes and the list grows by one per push |
| `QrProperties.CappedExample` | qr.py:130-135 | size 3, pushes a, b, c, d leave d, c, b |
| `QrScenarios.CappedScenario` | qr.py:121-147 | through the class: size 3, pushes a, b, c, d, then `elements()` returns d, c, b |
| `QrScenarios.QueueScenario` | qr.py:88-106 | through the class: pushes a, b pop as a, b, and a third pop returns `None` |
| `QrScenarios.StackScenario` | qr.py:156-174 | through the class: pushes a, b pop as b, a, and a third pop returns `None` |
| `QrScenarios.DequeScenario` | qr.py:42-73 | through the class: pushbacks a, b and pushfront x pop at the front as x, a, and at the back as b |
| `QrScenarios.SeparateKeysScenario` | qr.py:97 | a queue and a stack on different keys of one store each see only their own elements |

## Left out

- Logging (`NullHandler`, the `log.debug` calls): diagnostics only, with no effect on the lists.
- The Redis connection (`UsingRedisMixin`, `redis_init_kwargs`): each handle takes a `Store` instead of building a client. Connection and transport errors are not modelled. `qr.py` passes them through to the caller unchanged.
- `elements_as_json` on all four classes: it hands `elements()` to the `json` library, which is not part of this model.
- Concurrency: the capped push is one indivisible method. This is what the MULTI/EXEC pipeline guarantees. Interleavings with other clients between separate calls are not modelled. A method accepts any prior state of the lists, so lists that other clients changed or deleted are covered.
- Element types: elements are fixed as strings. `qr.py` accepts any value that Redis can store.
- The replies of LPUSH and RPUSH in the handles: the handles discard the new length, and so does the model. `Store.LPush` and `Store.RPush` still return it.
- `Qr.Queue.Elements`: the `or [ ]` guard of `qr.py` turns a nil reply into an empty list. LRANGE replies with an empty array for a missing key, so the guard never changes the result. The model returns the reply as it is.
- Keys of another type: the store holds lists only, so a key holding a string, hash, set or other non-list value is not modelled, nor the WRONGTYPE error Redis raises when `qr.py` issues LPUSH, RPUSH, LPOP, RPOP, LRANGE or LTRIM on such a key (an error `qr.py` passes to its caller).
- `Qr.CappedPush`, `Qr.CappedCollection.Push`: sizes whose `size - 1` lies outside the signed 64-bit range are not modelled; the model treats the size as an unbounded integer. For such a size Redis rejects the queued LTRIM ("value is not an integer or out of range") after the LPUSH has run, so the list is left as `[e] + old` and `execute()` in `qr.py` raises the error; the model instead gives the trimmed list and no error.
