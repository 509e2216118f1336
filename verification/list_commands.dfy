/** The Redis list commands that the collection handles are built from,
    as functions on the value of one list. Index 0 is the list's left end
    (the end LPUSH and LPOP work on), index |s| - 1 its right end. */
module ListCommands {

  /** The reply of a pop: a value, or nil when there is nothing to pop. */
  datatype Option<T> = None | Some(value: T)

  /** The end of a list a command works on. */
  datatype End = Left | Right

  /** What a pop replies, together with the list it leaves behind. */
  datatype Popped = Popped(value: Option<string>, rest: seq<string>)

  function Min(a: int, b: int): int { if a <= b then a else b }

  function Max(a: int, b: int): int { if a >= b then a else b }

  /** LPUSH (Left) and RPUSH (Right) of one element. */
  function Push(s: seq<string>, e: string, end: End): (r: seq<string>)
    ensures |r| == |s| + 1
    ensures end == Left ==> r[0] == e && r[1..] == s
    ensures end == Right ==> r[|s|] == e && r[..|s|] == s
  {
    match end
    case Left => [e] + s
    case Right => s + [e]
  }

  /** LPOP (Left) and RPOP (Right): nil on an empty (or missing) list,
      which stays empty; otherwise the element at that end, and what is
      left is the list that pushing it back at the same end restores. */
  function Pop(s: seq<string>, end: End): (r: Popped)
    ensures s == [] <==> r.value == None
    ensures s == [] ==> r.rest == []
    ensures s != [] ==> r.value.Some? && Push(r.rest, r.value.value, end) == s
  {
    if s == [] then Popped(None, [])
    else match end
      case Left => Popped(Some(s[0]), s[1..])
      case Right => Popped(Some(s[|s| - 1]), s[..|s| - 1])
  }

  /** The first kept index of LRANGE/LTRIM: a negative start counts from
      the end, and one still negative after that is taken as 0. */
  function RangeFrom(len: nat, start: int): (lo: nat)
  {
    if start < 0 then Max(len + start, 0) else start
  }

  /** The last kept index of LRANGE/LTRIM before clamping: a negative stop
      counts from the end, so -1 is the last element. */
  function RangeTo(len: nat, stop: int): int
  {
    if stop < 0 then len + stop else stop
  }

  /** LRANGE s start stop, and what LTRIM s start stop keeps: the elements
      from index start to index stop, both inclusive, with negative indices
      counting from the end; an empty list when start lies past stop or past
      the end, and stop clamped to the last element. */
  function Range(s: seq<string>, start: int, stop: int): (r: seq<string>)
    ensures |r| <= |s|
    ensures r != [] ==> RangeFrom(|s|, start) + |r| <= |s| &&
                        r == s[RangeFrom(|s|, start)..RangeFrom(|s|, start) + |r|]
  {
    var lo := RangeFrom(|s|, start);
    var hi := RangeTo(|s|, stop);
    if lo > hi || lo >= |s| then [] else s[lo..Min(hi, |s| - 1) + 1]
  }

  /** LRANGE key 0 -1 is the whole list, head to tail. */
  lemma RangeWhole(s: seq<string>)
    ensures Range(s, 0, -1) == s
  {
  }

  /** With a non-negative stop, keeping 0..stop keeps the first stop + 1
      elements, or the whole list when it is shorter. */
  lemma RangePrefix(s: seq<string>, stop: int)
    requires stop >= 0
    ensures Range(s, 0, stop) == s[..Min(stop + 1, |s|)]
  {
  }

  /** With a negative stop -k - 1, keeping 0..stop drops the last k
      elements, or everything when there are at most k of them. */
  lemma RangeDropLast(s: seq<string>, k: int)
    requires k >= 0
    ensures Range(s, 0, -k - 1) == s[..Max(|s| - k, 0)]
  {
  }

  /** A pop at the same end as the push just made replies with the pushed
      element and restores the list as it was before the push. */
  lemma PushThenPop(s: seq<string>, e: string, end: End)
    ensures Pop(Push(s, e, end), end) == Popped(Some(e), s)
  {
  }
}
