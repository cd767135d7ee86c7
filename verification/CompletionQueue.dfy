/** The host side of a completion queue: the consumer index and the expected
    phase (server/src/queue.h). */
module CompletionQueues {
  import opened Ring
  import opened Types

  /** The value of a completion queue's registers. */
  datatype CqHost = CqHost(size: nat, head: nat, phase: bool)
  {
    /** Whether `consume` returns an entry when it finds `cqe` at the head. */
    predicate Accepts(cqe: Cqe) { cqe.phase == phase }

    function AfterConsume(): CqHost
      requires size > 0
    {
      var next := WrapAround(head + 1, size);
      CqHost(size, next, if next == 0 then !phase else phase)
    }
  }

  /** `Completion_queue`. */
  class CompletionQueue {
    const size: nat
    const base: nat // physical address of `buf`
    var head: nat
    var phase: bool
    const buf: array<Cqe> // written by the device
    var headDoorbell: nat

    ghost function Host(): CqHost
      reads this
    {
      CqHost(size, head, phase)
    }

    ghost predicate Valid()
      reads this
    {
      size > 0 && head < size && buf.Length == size
    }

    constructor (size: nat, base: nat)
      requires size > 0
      ensures Valid() && fresh(buf) && this.size == size && this.base == base
      ensures Host() == CqHost(size, 0, true) && headDoorbell == 0
      ensures forall i :: 0 <= i < size ==> !buf[i].phase
    {
      this.size, this.base := size, base;
      head, phase, headDoorbell := 0, true, 0;
      buf := new Cqe[size](i => Cqe(0, 0, 0, false, 0));
    }

    /** The index of the next completion, if the device has posted one. */
    method Consume() returns (entry: Option<nat>)
      requires Valid()
      modifies this`head, this`phase
      ensures Valid()
      ensures entry.Some? <==> old(Host()).Accepts(old(buf[head]))
      ensures entry.Some? ==> entry.value == old(head) && Host() == old(Host()).AfterConsume()
      ensures entry.None? ==> Host() == old(Host())
    {
      if buf[head].phase == phase {
        entry := Some(head);
        head := WrapAround(head + 1, size);
        if head == 0 {
          phase := !phase;
        }
      } else {
        entry := None;
      }
    }

    /** Rings the head doorbell. */
    method Complete()
      modifies this`headDoorbell
      ensures headDoorbell == head
    {
      headDoorbell := head;
    }
  }
}
