/** The fixed ring buffers that health keeps its samples and its transitions in. */
module Ring {
  import opened Prelude

  const Capacity := 100

  /** The last hundred of everything ever recorded. */
  function Tail<T>(all: seq<T>): seq<T> {
    if |all| <= Capacity then all else all[|all| - Capacity..]
  }

  function NewestFirst<T>(s: seq<T>): (r: seq<T>)
    ensures |r| == |s|
  {
    if s == [] then [] else [s[|s| - 1]] + NewestFirst(s[..|s| - 1])
  }

  lemma {:induction false} NewestFirstAt<T>(s: seq<T>, i: nat)
    requires i < |s|
    ensures NewestFirst(s)[i] == s[|s| - 1 - i]
  {
    if i > 0 { NewestFirstAt(s[..|s| - 1], i - 1); }
  }

  lemma TailNewest<T>(all: seq<T>, i: nat)
    requires i < |Tail(all)|
    ensures NewestFirst(Tail(all))[i] == all[|all| - 1 - i]
  {
    NewestFirstAt(Tail(all), i);
  }

  /** The slot of the entry recorded i before the last one. */
  function SlotBack(next: nat, i: nat): nat
    requires next < Capacity && i < Capacity
  {
    if i < next then next - 1 - i else next - 1 - i + Capacity
  }

  function Advanced(next: nat): nat
    requires next < Capacity
  {
    if next == Capacity - 1 then 0 else next + 1
  }

  /** Both, as remainders. */
  lemma Remainders(next: nat, i: nat)
    requires next < Capacity && i < Capacity
    ensures (next - 1 - i + Capacity) % Capacity == SlotBack(next, i)
    ensures (next + 1) % Capacity == Advanced(next)
  {
  }

  /** The slots from the next one on, round to the one before it. */
  function Around<T>(slots: seq<T>, next: nat): seq<T>
    requires next <= |slots|
  {
    slots[next..] + slots[..next]
  }

  /** Until it is full a buffer holds everything in order; then, read around from where the
      next entry goes, it holds the last hundred. */
  ghost predicate Laid<T>(slots: seq<T>, next: nat, all: seq<T>) {
    && |slots| == Capacity && next < Capacity
    && if |all| < Capacity then next == |all| && slots[..next] == all else Around(slots, next) == Tail(all)
  }

  lemma AroundOneMore<T>(slots: seq<T>, next: nat, x: T)
    requires |slots| == Capacity && next < Capacity
    ensures Around(slots[next := x], Advanced(next)) == Around(slots, next)[1..] + [x]
    ensures next + 1 < Capacity ==> slots[next := x][..Advanced(next)] == slots[..next] + [x]
  {
    var s' := slots[next := x];
    if next + 1 < Capacity {
      assert s'[next + 1..] == slots[next..][1..] && s'[..next + 1] == slots[..next] + [x];
    } else {
      assert slots[next..][1..] == [] && s' == slots[..next] + [x];
    }
  }

  lemma LaidOneMore<T>(slots: seq<T>, next: nat, all: seq<T>, x: T)
    requires Laid(slots, next, all)
    ensures Laid(slots[next := x], Advanced(next), all + [x])
  {
    AroundOneMore(slots, next, x);
    if |all| >= Capacity {
      assert Tail(all + [x]) == Tail(all)[1..] + [x];
    } else if |all| == Capacity - 1 {
      var s' := slots[next := x];
      assert s' == slots[..next] + [x] && Around(s', 0) == s';
    }
  }

  /** Where the entry recorded i before the last one is kept. */
  lemma LaidNewest<T>(slots: seq<T>, next: nat, all: seq<T>, i: nat)
    requires Laid(slots, next, all) && i < |Tail(all)|
    ensures slots[SlotBack(next, i)] == NewestFirst(Tail(all))[i]
  {
    NewestFirstAt(Tail(all), i);
    if |all| < Capacity {
      assert slots[..next][next - 1 - i] == all[|all| - 1 - i];
    } else {
      assert Around(slots, next)[Capacity - 1 - i] == slots[SlotBack(next, i)];
    }
  }

  method Put<T>(slots: array<T>, at: nat, x: T)
    requires at < slots.Length
    modifies slots
    ensures slots[..] == old(slots[..])[at := x]
  {
    slots[at] := x;
  }

  method Bump(next: nat) returns (n: nat)
    requires next < Capacity
    ensures n == Advanced(next)
  {
    Remainders(next, 0);
    n := (next + 1) % Capacity;
  }

  method Back(next: nat, i: nat) returns (at: nat)
    requires next < Capacity && i < Capacity
    ensures at == SlotBack(next, i)
  {
    Remainders(next, i);
    at := (next - 1 - i + Capacity) % Capacity;
  }

  class Buffer<T> {
    const slots: array<T>
    var next: nat
    var count: nat
    ghost var all: seq<T>   // everything ever recorded, oldest first

    ghost predicate Valid()
      reads this, slots
    {
      && slots.Length == Capacity && next < Capacity
      && count == (if |all| < Capacity then |all| else Capacity)
      && Laid(slots[..], next, all)
    }

    constructor (blank: T)
      ensures Valid() && all == [] && fresh(slots)
    {
      slots := new T[Capacity](_ => blank);
      next, count, all := 0, 0, [];
    }

    method Append(x: T)
      requires Valid()
      modifies this, slots
      ensures Valid() && all == old(all) + [x]
    {
      LaidOneMore(slots[..], next, all, x);
      Put(slots, next, x);
      next := Bump(next);
      if count < Capacity { count := count + 1; }
      all := all + [x];
    }

    /** The retained entries, newest first. */
    method Recent() returns (out: seq<T>)
      requires Valid()
      ensures out == NewestFirst(Tail(all))
    {
      out := [];
      ghost var expected := NewestFirst(Tail(all));
      for i := 0 to count
        invariant |out| == i && out == expected[..i]
      {
        LaidNewest(slots[..], next, all, i);
        var at := Back(next, i);
        out := out + [slots[at]];
      }
    }

    method Last() returns (x: Option<T>)
      requires Valid()
      ensures x == if all == [] then None else Some(all[|all| - 1])
    {
      if count == 0 { return None; }
      LaidNewest(slots[..], next, all, 0);
      TailNewest(all, 0);
      var at := Back(next, 0);
      return Some(slots[at]);
    }

    /** Read in slot order, a full buffer holds the retained entries in two pieces. */
    lemma SlotOrder()
      requires Valid()
      ensures if |all| < Capacity then slots[..count] == all
              else slots[..count] == Tail(all)[Capacity - next..] + Tail(all)[..Capacity - next]
    {
      var seen := slots[..];
      assert slots[..count] == seen[..count];
      if |all| >= Capacity {
        assert Around(seen, next)[Capacity - next..] == seen[..next] && Around(seen, next)[..Capacity - next] == seen[next..];
        assert seen == seen[..next] + seen[next..] && slots[..count] == seen;
      }
    }
  }
}
