/**
 * The key generator of an object store created with `autoIncrement`, as
 * section 2.11 of the W3C Indexed Database API defines it: a current number
 * that starts at 1, hands itself out as the next key and is raised past any
 * explicit numeric key a record is stored under.
 */
module KeyGenerator {
  import opened Records

  /** 2^53, the largest key a key generator may hand out. */
  const MaxKey: int := 0x20_0000_0000_0000

  /** The current number a fresh object store starts with. */
  const InitialKey: int := 1

  /** Where a key generator's current number lies, from creation on. */
  predicate InRange(current: int)
  {
    InitialKey <= current <= MaxKey + 1
  }

  /**
   * Generating a key: the current number is the key, unless it is past
   * 2^53, in which case the generator is exhausted and the store's `add`
   * fails. The caller then advances the current number by one.
   */
  function Generate(current: int): (key: Option<int>)
    ensures key.Some? <==> current <= MaxKey
    ensures key.Some? ==> key.value == current
    ensures key.Some? && InRange(current) ==> InRange(key.value + 1)
  {
    if current > MaxKey then None else Some(current)
  }

  /**
   * Possibly updating the generator after a record is stored under an
   * explicit key: a key at or above the current number, capped at 2^53,
   * moves the current number to one past it.
   */
  function PossiblyUpdate(current: int, key: int): (next: int)
    requires InRange(current)
    ensures next >= current
    ensures key < current ==> next == current
    ensures InRange(next)
    ensures key < next || next == MaxKey + 1
    ensures forall n :: InRange(n) && n >= current && (key < n || n == MaxKey + 1) ==> next <= n
  {
    if key >= current then (if key < MaxKey then key else MaxKey) + 1 else current
  }
}
