/** Clients of the handles: what a caller can conclude from the handles'
    contracts alone, on a fresh store. */
module QrScenarios {
  import opened ListCommands
  import opened RedisStore
  import opened Qr

  /** A capped collection of size 3 that is pushed a, b, c, d holds d, c, b. */
  method CappedScenario() returns (elements: seq<string>)
    ensures elements == ["d", "c", "b"]
  {
    var store := new Store();
    var capped := new CappedCollection("k", 3, store);
    capped.Push("a");
    capped.Push("b");
    capped.Push("c");
    capped.Push("d");
    elements := capped.Elements();
  }

  /** A queue pops in push order, then replies None once it is empty. */
  method QueueScenario() returns (first: Option<string>, second: Option<string>, third: Option<string>)
    ensures first == Some("a") && second == Some("b") && third == None
  {
    var store := new Store();
    var queue := new Queue("q", store);
    queue.Push("a");
    queue.Push("b");
    first := queue.Pop();
    second := queue.Pop();
    third := queue.Pop();
  }

  /** A stack pops in reverse push order, then replies None. */
  method StackScenario() returns (first: Option<string>, second: Option<string>, third: Option<string>)
    ensures first == Some("b") && second == Some("a") && third == None
  {
    var store := new Store();
    var stack := new Stack("s", store);
    stack.Push("a");
    stack.Push("b");
    first := stack.Pop();
    second := stack.Pop();
    third := stack.Pop();
  }

  /** A deque pushed at the back is popped at the front in push order,
      and an element pushed at the front is the first popped there. */
  method DequeScenario() returns (front: Option<string>, next: Option<string>, back: Option<string>)
    ensures front == Some("x") && next == Some("a") && back == Some("b")
  {
    var store := new Store();
    var deque := new Deque("d", store);
    deque.PushBack("a");
    deque.PushBack("b");
    deque.PushFront("x");
    front := deque.PopFront();
    next := deque.PopFront();
    back := deque.PopBack();
  }

  /** Handles on different keys of one store do not see each other's
      elements. */
  method SeparateKeysScenario() returns (queued: seq<string>, stacked: seq<string>)
    ensures queued == ["a"] && stacked == ["b"]
  {
    var store := new Store();
    var queue := new Queue("q", store);
    var stack := new Stack("s", store);
    queue.Push("a");
    stack.Push("b");
    queued := queue.Elements();
    stacked := stack.Elements();
  }
}
