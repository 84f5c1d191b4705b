/** Small shared building blocks: Java's Optional, Java's 32-bit int
    arithmetic, and the order in which a HashMap or HashSet hands out its
    entries. */
module Basics {

  /** java.util.Optional, and a Java reference that may be null. */
  datatype Option<+T> = None | Some(value: T) {
    function GetOr(default: T): T {
      match this
      case Some(v) => v
      case None => default
    }
  }

  /** `keys` lists every element of `domain` exactly once, in some order.
      Iterating a HashMap's key set or a HashSet visits its elements in an
      order the model does not fix; a method that iterates returns the order
      it used as such a sequence. */
  ghost predicate Enumerates<T>(keys: seq<T>, domain: set<T>) {
    && (forall i, j | 0 <= i < j < |keys| :: keys[i] != keys[j])
    && (forall i | 0 <= i < |keys| :: keys[i] in domain)
    && (forall k | k in domain :: k in keys)
  }

  /** An enumeration is exactly as long as the set it lists. */
  lemma {:induction false} EnumeratesSize<T>(keys: seq<T>, domain: set<T>)
    requires Enumerates(keys, domain)
    ensures |keys| == |domain|
    decreases |keys|
  {
    if keys == [] {
      assert domain == {};
    } else {
      var init, last := keys[..|keys| - 1], keys[|keys| - 1];
      assert keys == init + [last];
      forall k | k in domain - {last} ensures k in init {
        assert k in keys;
      }
      EnumeratesSize(init, domain - {last});
    }
  }

  const Int32Min: int := -0x8000_0000
  const Int32Max: int := 0x7fff_ffff

  /** Java int arithmetic: the 32-bit two's complement value of `x`. */
  function Wrap32(x: int): (r: int)
    ensures Int32Min <= r <= Int32Max
    ensures (x - r) % 0x1_0000_0000 == 0
  {
    (x - Int32Min) % 0x1_0000_0000 + Int32Min
  }

  /** A value that fits in 32 bits is left alone. */
  lemma Wrap32InRange(x: int)
    requires Int32Min <= x <= Int32Max
    ensures Wrap32(x) == x
  {
  }
}
