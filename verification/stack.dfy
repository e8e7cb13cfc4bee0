/**
 The singly linked list stack used as the depth-first search frontier.
 The list is modelled by the sequence of its node payloads, head first:
 `items[0]` is the node `head` points to, `items[1]` its `next`, and so on.
 */
module Stack {

  /** What `peek` answers: `None` stands for the `null` of an empty stack. */
  datatype Option<T> = None | Some(value: T)

  datatype Stack<T> = Stack(items: seq<T>)

  /** A freshly constructed stack: no nodes, size 0. */
  function Empty<T>(): (s: Stack<T>)
    ensures IsEmpty(s)
    ensures Peek(s) == None
  {
    Stack([])
  }

  /** `size`: the number of nodes in the list. */
  function Size<T>(s: Stack<T>): (n: nat)
    ensures n == 0 <==> s == Stack([])
  {
    |s.items|
  }

  /** `isEmpty`: no node is left. */
  predicate IsEmpty<T>(s: Stack<T>): (r: bool)
    ensures r <==> s.items == []
  {
    Size(s) == 0
  }

  /** Links a new node in front of the head; always succeeds. */
  function Push<T>(s: Stack<T>, x: T): (r: Stack<T>)
    ensures Size(r) == Size(s) + 1
    ensures Peek(r) == Some(x)
    ensures !IsEmpty(r)
  {
    Stack([x] + s.items)
  }

  /** Unlinks the head; on an empty stack it reports `false` and changes nothing. */
  function Pop<T>(s: Stack<T>): (r: (bool, Stack<T>))
    ensures r.0 <==> !IsEmpty(s)
    ensures IsEmpty(s) ==> r.1 == s
    ensures !IsEmpty(s) ==> Size(r.1) == Size(s) - 1
  {
    if IsEmpty(s) then (false, s) else (true, Stack(s.items[1..]))
  }

  /** The head's payload, or `None` (the source's `null`) on an empty stack. */
  function Peek<T>(s: Stack<T>): (r: Option<T>)
    ensures r.None? <==> IsEmpty(s)
    ensures r.Some? ==> r.value in s.items
  {
    if IsEmpty(s) then None else Some(s.items[0])
  }

  /**
   Writes through the reference `peek` handed out: the engines mutate the
   branch object on top of the stack (`steps++`, `end = true`) in place.
   */
  function UpdateTop<T>(s: Stack<T>, x: T): (r: Stack<T>)
    requires !IsEmpty(s)
    ensures Size(r) == Size(s)
    ensures Peek(r) == Some(x)
    ensures Pop(r).1 == Pop(s).1
  {
    Stack([x] + s.items[1..])
  }

  /** LIFO: a pop right after a push restores the previous stack, size and top. */
  lemma PushThenPop<T>(s: Stack<T>, x: T)
    ensures Pop(Push(s, x)) == (true, s)
    ensures Size(Pop(Push(s, x)).1) == Size(s)
    ensures Peek(Pop(Push(s, x)).1) == Peek(s)
  {
    assert Push(s, x).items[1..] == s.items;
  }
}
