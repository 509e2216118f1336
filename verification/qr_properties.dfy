/** The orders the collection handles promise, stated over runs of pushes
    and pops on the list under one key: FIFO for the queue, LIFO for the
    stack, back-in/front-out for the deque, and the size bound and
    newest-first contents of the capped collection. */
module QrProperties {
  import opened ListCommands
  import opened Qr

  function Reverse(s: seq<string>): (r: seq<string>)
    ensures |r| == |s|
  {
    if s == [] then [] else Reverse(s[1..]) + [s[0]]
  }

  /** Each element as a pop reply. */
  function Somes(s: seq<string>): (r: seq<Option<string>>)
    ensures |r| == |s|
  {
    if s == [] then [] else [Some(s[0])] + Somes(s[1..])
  }

  /** n nil replies. */
  function Nones(n: nat): (r: seq<Option<string>>)
  {
    if n == 0 then [] else [None] + Nones(n - 1)
  }

  /** The first n elements, or all of them when there are fewer. */
  function Take(s: seq<string>, n: nat): seq<string>
  {
    s[..Min(n, |s|)]
  }

  /** The list after pushing the elements of es one after the other at
      the given end. */
  function Pushes(s: seq<string>, es: seq<string>, end: End): seq<string>
    decreases |es|
  {
    if es == [] then s else Pushes(ListCommands.Push(s, es[0], end), es[1..], end)
  }

  /** The replies of n pops at the given end, and the list they leave. */
  datatype Drained = Drained(values: seq<Option<string>>, rest: seq<string>)

  function Pops(s: seq<string>, n: nat, end: End): (r: Drained)
    ensures |r.values| == n
  {
    if n == 0 then Drained([], s)
    else
      var p := ListCommands.Pop(s, end);
      var d := Pops(p.rest, n - 1, end);
      Drained([p.value] + d.values, d.rest)
  }

  /** The list after capped pushes of the elements of es one after the other. */
  function CappedPushes(s: seq<string>, es: seq<string>, size: int): seq<string>
    decreases |es|
  {
    if es == [] then s else CappedPushes(CappedPush(s, es[0], size), es[1..], size)
  }

  lemma {:induction false} ReverseAppend(a: seq<string>, b: seq<string>)
    ensures Reverse(a + b) == Reverse(b) + Reverse(a)
  {
    if a == [] {
      assert a + b == b;
    } else {
      assert (a + b)[1..] == a[1..] + b;
      ReverseAppend(a[1..], b);
    }
  }

  lemma {:induction false} ReverseReverse(s: seq<string>)
    ensures Reverse(Reverse(s)) == s
  {
    if s != [] {
      ReverseAppend(Reverse(s[1..]), [s[0]]);
      ReverseReverse(s[1..]);
      assert Reverse([s[0]]) == [s[0]];
    }
  }

  /** Pushing a run at the left end puts it in front of the list, newest first. */
  lemma {:induction false} PushesLeft(s: seq<string>, es: seq<string>)
    ensures Pushes(s, es, Left) == Reverse(es) + s
    decreases |es|
  {
    if es == [] {
      assert Reverse(es) + s == s;
    } else {
      var pushed := ListCommands.Push(s, es[0], Left);
      assert Pushes(s, es, Left) == Pushes(pushed, es[1..], Left);
      PushesLeft(pushed, es[1..]);
      calc {
        Reverse(es[1..]) + pushed;
        Reverse(es[1..]) + ([es[0]] + s);
        (Reverse(es[1..]) + [es[0]]) + s;
        Reverse(es) + s;
      }
    }
  }

  /** Pushing a run at the right end appends it in push order. */
  lemma {:induction false} PushesRight(s: seq<string>, es: seq<string>)
    ensures Pushes(s, es, Right) == s + es
    decreases |es|
  {
    if es != [] {
      PushesRight(s + [es[0]], es[1..]);
      assert s + [es[0]] + es[1..] == s + es;
    }
  }

  /** Popping a list a + b |a| times at the left end replies with the
      elements of a in order and leaves b. */
  lemma {:induction false} PopsLeft(a: seq<string>, b: seq<string>)
    ensures Pops(a + b, |a|, Left) == Drained(Somes(a), b)
  {
    if a != [] {
      assert (a + b)[1..] == a[1..] + b;
      PopsLeft(a[1..], b);
    } else {
      assert a + b == b;
    }
  }

  /** Popping a list a + b |b| times at the right end replies with the
      elements of b, last first, and leaves a. */
  lemma {:induction false} PopsRight(a: seq<string>, b: seq<string>)
    ensures Pops(a + b, |b|, Right) == Drained(Somes(Reverse(b)), a)
    decreases |b|
  {
    if b != [] {
      var init, last := b[..|b| - 1], b[|b| - 1];
      assert ListCommands.Pop(a + b, Right) == Popped(Some(last), a + init) by {
        assert (a + b)[..|a + b| - 1] == a + init;
      }
      PopsRight(a, init);
      assert Pops(a + b, |b|, Right).values == [Some(last)] + Somes(Reverse(init));
      assert Reverse(b) == [last] + Reverse(init) by {
        assert b == init + [last];
        ReverseAppend(init, [last]);
        assert Reverse([last]) == [last];
      }
      assert ([last] + Reverse(init))[1..] == Reverse(init);
    } else {
      assert a + b == a;
    }
  }

  /** Popping a missing or empty list replies nil every time and leaves
      it empty. */
  lemma {:induction false} PopsEmpty(n: nat, end: End)
    ensures Pops([], n, end) == Drained(Nones(n), [])
  {
    if n > 0 {
      PopsEmpty(n - 1, end);
    }
  }

  /** Queue FIFO order, and the deque's pushback drained by popfront:
      after pushes at the left end, popping at the right end until the list
      is empty replies first with what the list already held, oldest first,
      then with the pushed elements in push order. */
  lemma QueueFifo(s: seq<string>, es: seq<string>)
    ensures Pops(Pushes(s, es, Left), |s| + |es|, Right) == Drained(Somes(Reverse(s) + es), [])
  {
    PushesLeft(s, es);
    var t := Reverse(es) + s;
    DrainRight(t);
    ReverseAppend(Reverse(es), s);
    ReverseReverse(es);
  }

  /** Popping a whole list at the right end replies with it last first. */
  lemma DrainRight(t: seq<string>)
    ensures Pops(t, |t|, Right) == Drained(Somes(Reverse(t)), [])
  {
    PopsRight([], t);
    assert [] + t == t;
  }

  /** On a fresh key, n pushes to a queue followed by n pops reply with
      the pushed elements in push order and leave the list empty. */
  lemma QueueFifoFromEmpty(es: seq<string>)
    ensures Pops(Pushes([], es, Left), |es|, Right) == Drained(Somes(es), [])
  {
    var empty: seq<string> := [];
    QueueFifo(empty, es);
    assert Reverse(empty) == empty;
    assert Reverse(empty) + es == es;
  }

  /** The deque's pushfront drained by popback: after pushes at the right
      end, popping at the left end until empty replies with what the list
      held, then the pushed elements in push order. */
  lemma DequeFrontToBack(s: seq<string>, es: seq<string>)
    ensures Pops(Pushes(s, es, Right), |s| + |es|, Left) == Drained(Somes(s + es), [])
  {
    PushesRight(s, es);
    PopsLeft(s + es, []);
    assert s + es + [] == s + es;
  }

  /** Stack LIFO order: after pushes at the left end, as many pops at the
      left end reply with the pushed elements newest first and restore the
      list as it was before the pushes. */
  lemma StackLifo(s: seq<string>, es: seq<string>)
    ensures Pops(Pushes(s, es, Left), |es|, Left) == Drained(Somes(Reverse(es)), s)
  {
    PushesLeft(s, es);
    PopsLeft(Reverse(es), s);
  }

  lemma TakeAfterTake(a: seq<string>, b: seq<string>, n: nat)
    ensures Take(a + Take(b, n), n) == Take(a + b, n)
  {
    if |a| >= n {
      assert (a + Take(b, n))[..n] == a[..n];
      assert (a + b)[..n] == a[..n];
    } else {
      var m := Min(n, |a| + |b|);
      assert (a + Take(b, n))[..m] == (a + b)[..m];
    }
  }

  /** The capped collection keeps the newest size elements, newest first:
      after capped pushes of es onto s with a size of at least 1, the list
      is the first size elements of es reversed followed by s. (A list
      longer than size is only cut back by the first push, hence the
      requires.) */
  lemma {:induction false} CappedHistory(s: seq<string>, es: seq<string>, size: int)
    requires size >= 1
    requires es != [] || |s| <= size
    ensures CappedPushes(s, es, size) == Take(Reverse(es) + s, size)
    decreases |es|
  {
    if es == [] {
      assert Take(s, size) == s;
    } else {
      var first := CappedPush(s, es[0], size);
      CappedHistory(first, es[1..], size);
      assert first == Take([es[0]] + s, size);
      TakeAfterTake(Reverse(es[1..]), [es[0]] + s, size);
      assert Reverse(es[1..]) + ([es[0]] + s) == Reverse(es) + s;
    }
  }

  lemma {:induction false} ReverseAt(s: seq<string>, i: nat)
    requires i < |s|
    ensures Reverse(s)[i] == s[|s| - 1 - i]
  {
    if i < |s| - 1 {
      ReverseAt(s[1..], i);
    }
  }

  /** Once pushed to, a capped collection of size at least 1 never holds
      more than size elements. */
  lemma CappedNeverLarger(s: seq<string>, es: seq<string>, size: int)
    requires size >= 1
    requires es != [] || |s| <= size
    ensures |CappedPushes(s, es, size)| <= size
  {
    CappedHistory(s, es, size);
  }

  /** After m >= size pushes to a fresh capped collection, it holds exactly
      the size most recent elements, most recent first. */
  lemma CappedMostRecent(es: seq<string>, size: int)
    requires 1 <= size <= |es|
    ensures |CappedPushes([], es, size)| == size
    ensures forall i :: 0 <= i < size ==> CappedPushes([], es, size)[i] == es[|es| - 1 - i]
  {
    CappedHistory([], es, size);
    assert Reverse(es) + [] == Reverse(es);
    forall i | 0 <= i < size
      ensures CappedPushes([], es, size)[i] == es[|es| - 1 - i]
    {
      ReverseAt(es, i);
    }
  }

  /** While there is room nothing is dropped: m <= size pushes to a fresh
      capped collection leave all m elements, most recent first. */
  lemma CappedWithinSize(es: seq<string>, size: int)
    requires size >= 1 && |es| <= size
    ensures CappedPushes([], es, size) == Reverse(es)
    ensures |CappedPushes([], es, size)| == |es|
  {
    CappedHistory([], es, size);
    assert Reverse(es) + [] == Reverse(es);
  }

  /** With a size of 0 nothing is ever trimmed: capped pushes behave as
      plain pushes at the left end, and the list grows without bound. */
  lemma {:induction false} CappedSizeZero(s: seq<string>, es: seq<string>)
    ensures CappedPushes(s, es, 0) == Pushes(s, es, Left)
    ensures |CappedPushes(s, es, 0)| == |s| + |es|
    decreases |es|
  {
    if es != [] {
      CappedPushSizeZero(s, es[0]);
      CappedSizeZero([es[0]] + s, es[1..]);
    }
  }

  /** A capped collection of size 3 after pushes of a, b, c, d holds
      d, c, b: the oldest, a, has been dropped. */
  lemma CappedExample()
    ensures CappedPushes([], ["a", "b", "c", "d"], 3) == ["d", "c", "b"]
  {
    CappedHistory([], ["a", "b", "c", "d"], 3);
    assert Reverse(["a", "b", "c", "d"]) == ["d", "c", "b", "a"];
  }
}
