/** Height, round and step, and the order every watermark rests on (signer/hrs.go). */
module Hrs {
  import opened GoInt

  datatype HRSKey = HRSKey(height: Int64, round: Int64, step: int) {

    predicate GreaterThan(other: HRSKey) {
      if height > other.height then true
      else if height < other.height then false
      else if round > other.round then true
      else if round < other.round then false
      else step > other.step
    }

    predicate LessThan(other: HRSKey) {
      this != other && !GreaterThan(other)
    }
  }

  /** Heights decide, then rounds, then steps. */
  lemma {:induction false} Lexicographic(a: HRSKey, b: HRSKey)
    ensures a.height > b.height ==> a.GreaterThan(b)
    ensures a.height == b.height && a.round > b.round ==> a.GreaterThan(b)
    ensures a.height == b.height && a.round == b.round ==> (a.GreaterThan(b) <==> a.step > b.step)
  {
  }

  /** GreaterThan is a strict total order, and LessThan is its converse. */
  lemma {:induction false} TotalOrder(a: HRSKey, b: HRSKey, c: HRSKey)
    ensures !a.GreaterThan(a)
    ensures a.GreaterThan(b) && b.GreaterThan(c) ==> a.GreaterThan(c)
    ensures a == b || a.GreaterThan(b) || b.GreaterThan(a)
    ensures !(a.GreaterThan(b) && b.GreaterThan(a))
    ensures a.LessThan(b) <==> b.GreaterThan(a)
  {
  }
}
