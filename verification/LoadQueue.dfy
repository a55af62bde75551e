/** The driver-load guard's queue: a circular buffer between load-image callbacks and one worker. */
module LoadQueue {
  const SIZE := 64
  const PATH_CHARS := 260

  type Path = string

  function Cut(p: Path): Path {
    if |p| > PATH_CHARS - 1 then p[..PATH_CHARS - 1] else p
  }

  /** The place of item i of a queue that begins at head. */
  function Slot(head: nat, i: nat): (k: nat)
    ensures k < SIZE
  {
    (head + i) % SIZE
  }

  class Queue {
    const items: array<Path>
    var head: nat
    var tail: nat
    var count: nat

    ghost predicate Valid()
      reads this
    {
      items.Length == SIZE && head < SIZE && count <= SIZE && tail == Slot(head, count)
    }

    /** The queued paths, the oldest first. */
    ghost function Contents(): (s: seq<Path>)
      requires Valid()
      reads this, items
      ensures |s| == count
    {
      seq(count, i requires 0 <= i < count && Valid() reads this, items => items[Slot(head, i)])
    }

    constructor ()
      ensures Valid() && Contents() == [] && fresh(items)
    {
      items := new Path[SIZE](_ => []);
      head, tail, count := 0, 0, 0;
    }

    /** The callback's critical section. */
    method Enqueue(path: Path) returns (queued: bool)
      requires Valid()
      modifies this`tail, this`count, items
      ensures Valid() && queued == (|old(Contents())| < 64)
      ensures Contents() == if queued then old(Contents()) + [Cut(path)] else old(Contents())
      ensures queued ==> Contents()[|old(Contents())|] == if |path| > 259 then path[..259] else path
    {
      queued := false;
      if count < SIZE {
        ghost var before := Contents();
        forall i | 0 <= i < count
          ensures Slot(head, i) != tail
        {
          Apart(head, i, count);
        }
        items[tail] := Cut(path);
        tail := (tail + 1) % SIZE;
        count := count + 1;
        queued := true;
        assert Contents()[..count - 1] == before;
      }
    }

    /** The worker's critical section. */
    method Dequeue() returns (have: bool, path: Path)
      requires Valid()
      modifies this`head, this`count
      ensures Valid() && have == (old(Contents()) != [])
      ensures have ==> old(Contents()) == [path] + Contents()
      ensures !have ==> Contents() == old(Contents())
    {
      have, path := false, [];
      if count != 0 {
        ghost var before := Contents();
        ghost var h := head;
        path := items[head];
        head := (head + 1) % SIZE;
        count := count - 1;
        have := true;
        forall i | 0 <= i < count
          ensures Slot(head, i) == Slot(h, i + 1)
        {
          Shift(h, i);
        }
        Shift(h, count);
        assert before == [path] + Contents();
      }
    }
  }

  lemma Apart(head: nat, i: nat, count: nat)
    requires head < SIZE && i < count < SIZE
    ensures Slot(head, i) != Slot(head, count)
  {
  }

  lemma Shift(head: nat, i: nat)
    requires head < SIZE
    ensures Slot((head + 1) % SIZE, i) == Slot(head, i + 1)
  {
  }
}
