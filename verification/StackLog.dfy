/**
  The life of the entries of a stack: a log of pushes and pops, what a log leaves on the stack, and
  the fact that a log accounts for every entry exactly once.
 */
module StackLog {
  import opened Wrappers

  datatype Fate =
    | Consumed    // popped by a reduction
    | Destroyed   // passed to the destructor
    | Dropped     // dropped by acceptance

  /** What happened to the entries, oldest first. */
  datatype Log<T> =
    | Start(base: seq<T>)
    | Push(before: Log<T>, entry: T)
    | Pop(before: Log<T>, entries: seq<T>, fate: Fate)

  predicate EndsWith<T(==)>(st: seq<T>, top: seq<T>) {
    |top| <= |st| && st[|st|-|top|..] == top
  }

  /** What a log leaves on the stack; None when an event pops what is not on top. */
  function Replay<T(==)>(log: Log<T>): Option<seq<T>> {
    match log
    case Start(base) => Some(base)
    case Push(before, entry) =>
      var st := Replay(before);
      if st.None? then None else Some(st.value + [entry])
    case Pop(before, entries, _) =>
      var st := Replay(before);
      if st.None? || !EndsWith(st.value, entries) then None
      else Some(st.value[..|st.value|-|entries|])
  }

  /** How often the entry was pushed. */
  function Pushes<T(==)>(log: Log<T>, x: T): nat {
    match log
    case Start(_) => 0
    case Push(before, entry) => Pushes(before, x) + (if entry == x then 1 else 0)
    case Pop(before, _, _) => Pushes(before, x)
  }

  /** How often the entry was popped with the given fate. */
  function Pops<T(==)>(log: Log<T>, fate: Fate, x: T): nat {
    match log
    case Start(_) => 0
    case Push(before, _) => Pops(before, fate, x)
    case Pop(before, entries, f) => Pops(before, fate, x) + (if f == fate then multiset(entries)[x] else 0)
  }

  function Base<T>(log: Log<T>): seq<T> {
    match log
    case Start(base) => base
    case Push(before, _) => Base(before)
    case Pop(before, _, _) => Base(before)
  }

  /** The entries of `top` are popped one at a time, the last one first, each with the same fate. */
  function PopEach<T>(log: Log<T>, top: seq<T>, fate: Fate): Log<T> {
    if top == [] then log else Pop(PopEach(log, top[1..], fate), [top[0]], fate)
  }

  lemma SplitTop<T>(st: seq<T>, top: seq<T>, x: T)
    requires EndsWith(st, top)
    ensures multiset(st)[x] == multiset(st[..|st|-|top|])[x] + multiset(top)[x]
  {
    assert st == st[..|st|-|top|] + top;
  }

  lemma PushCount<T>(st: seq<T>, entry: T, x: T)
    ensures multiset(st + [entry])[x] == multiset(st)[x] + if entry == x then 1 else 0
  {
  }

  /** Every entry, initial or pushed, is on the stack, or was consumed, destroyed or dropped, exactly once. */
  lemma {:induction false} Ownership<T>(log: Log<T>, x: T)
    requires Replay(log).Some?
    ensures multiset(Base(log))[x] + Pushes(log, x)
         == multiset(Replay(log).value)[x] + Pops(log, Consumed, x) + Pops(log, Destroyed, x) + Pops(log, Dropped, x)
  {
    match log {
      case Start(_) =>
      case Push(before, entry) =>
        Ownership(before, x);
        PushCount(Replay(before).value, entry, x);
      case Pop(before, entries, _) =>
        Ownership(before, x);
        SplitTop(Replay(before).value, entries, x);
    }
  }
}
