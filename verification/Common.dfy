/** Vocabulary shared by every component of the pool manager. */
module Common {

  datatype Option<+T> = None | Some(value: T) {
    function GetOr(default: T): T {
      match this
      case Some(v) => v
      case None => default
    }

    /** This value if present, the other one otherwise. */
    function Or(that: Option<T>): Option<T> {
      if Some? then this else that
    }
  }

  /** What becomes of a Redis command: executed and answered, executed with the reply lost, or never executed. */
  datatype Delivery = Answered | ReplyLost | NotSent

  /** The two release slots. */
  datatype Slot = A | B

  function Other(s: Slot): Slot {
    if s == A then B else A
  }

  /** One value for each slot. */
  datatype PerSlot<T> = PerSlot(a: T, b: T) {
    function Get(s: Slot): T {
      if s == A then a else b
    }

    function Set(s: Slot, v: T): PerSlot<T> {
      if s == A then PerSlot(v, b) else PerSlot(a, v)
    }
  }

  /** The status column of an account. */
  datatype AccountStatus = Stopped | Starting | Running | Unhealthy | Error

  /** An immutable image reference such as `repo:sha-abcdef0`. */
  type Image = string

  /** A subset is no larger. */
  lemma {:induction false} SubsetSize(a: set<nat>, b: set<nat>)
    requires a <= b
    ensures |a| <= |b|
    decreases b
  {
    if b != {} {
      var x :| x in b;
      SubsetSize(a - {x}, b - {x});
    }
  }
}
