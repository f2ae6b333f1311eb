/**
 Items written one after the other: if reading undoes writing for each item, whatever follows
 it, then reading as many items as were written gives them all back.
 */
module Sequencing {
  import opened Numbers
  import opened Varint

  function WriteAll<T>(write: T -> seq<Byte>, items: seq<T>): seq<Byte> {
    if items == [] then [] else write(items[0]) + WriteAll(write, items[1..])
  }

  function ReadAll<T>(read: seq<Byte> -> Read<T>, src: seq<Byte>, count: nat): (r: Read<seq<T>>)
    ensures r.Got? ==> |r.value| == count
    decreases count
  {
    if count == 0 then Got([], src)
    else
      match read(src)
      case Failed => Failed
      case Got(item, rest) =>
        match ReadAll(read, rest, count - 1)
        case Failed => Failed
        case Got(items, rest') => Got([item] + items, rest')
  }

  /** Reading undoes writing for this item. */
  ghost predicate Undoes<T>(write: T -> seq<Byte>, read: seq<Byte> -> Read<T>, item: T) {
    forall tail :: read(write(item) + tail) == Got(item, tail)
  }

  lemma Associates<T>(a: seq<T>, b: seq<T>, c: seq<T>)
    ensures (a + b) + c == a + (b + c)
  {
  }

  lemma {:induction false} ReadAllWritten<T>(write: T -> seq<Byte>, read: seq<Byte> -> Read<T>, items: seq<T>,
                                             tail: seq<Byte>)
    requires forall i :: 0 <= i < |items| ==> Undoes(write, read, items[i])
    ensures ReadAll(read, WriteAll(write, items) + tail, |items|) == Got(items, tail)
  {
    if items == [] {
      assert WriteAll(write, items) + tail == tail;
    } else {
      Associates(write(items[0]), WriteAll(write, items[1..]), tail);
      assert Undoes(write, read, items[0]);
      ReadAllWritten(write, read, items[1..], tail);
      assert items == [items[0]] + items[1..];
    }
  }

  lemma {:induction false} WriteAllAppend<T>(write: T -> seq<Byte>, items: seq<T>, item: T)
    ensures WriteAll(write, items + [item]) == WriteAll(write, items) + write(item)
  {
    if items == [] {
      assert (items + [item])[1..] == [];
    } else {
      assert (items + [item])[1..] == items[1..] + [item];
      WriteAllAppend(write, items[1..], item);
      Associates(write(items[0]), WriteAll(write, items[1..]), write(item));
    }
  }
}
