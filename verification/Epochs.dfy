/** Session numbers: non-zero 64-bit integers, with `None` for "no session yet". */
module Epochs {
  import opened Prelude

  const MAX_EPOCH: int := 0xFFFF_FFFF_FFFF_FFFF

  type Epoch = e: int | 1 <= e <= MAX_EPOCH witness 1

  datatype Ordering = Less | Equal | Greater

  function ToInt(o: Option<Epoch>): (n: nat)
    ensures n <= MAX_EPOCH
  {
    match o case None => 0 case Some(e) => e
  }

  function FromInt(n: nat): Option<Epoch>
    requires n <= MAX_EPOCH
  {
    if n == 0 then None else Some(n)
  }

  /** Saturating increment. */
  function Increment(e: Epoch): (r: Epoch)
    ensures r == Min(e + 1, MAX_EPOCH)
    ensures e < MAX_EPOCH <==> e < r
  {
    if e == MAX_EPOCH then e else e + 1
  }

  function OptIncrement(o: Option<Epoch>): (r: Option<Epoch>)
    ensures o.Some? ==> ToInt(r) == Min(ToInt(o) + 1, MAX_EPOCH)
    ensures r.None? <==> o.None?
  {
    match o case None => None case Some(e) => Some(Increment(e))
  }

  /** `None` compares less than everything, another `None` included. */
  function Compare(a: Option<Epoch>, b: Option<Epoch>): Ordering {
    match a
    case None => Less
    case Some(x) =>
      match b
      case None => Greater
      case Some(y) => if x < y then Less else if x == y then Equal else Greater
  }

  /** `Compare` against the integer encoding; the one difference is None against None. */
  lemma CompareMeaning(a: Option<Epoch>, b: Option<Epoch>)
    ensures Compare(a, b).Less? <==> ToInt(a) < ToInt(b) || (a.None? && b.None?)
    ensures Compare(a, b).Equal? <==> a == b && a.Some?
    ensures Compare(a, b).Greater? <==> ToInt(b) < ToInt(a)
  {
  }

  lemma IntRoundTrip(o: Option<Epoch>, n: nat)
    requires n <= MAX_EPOCH
    ensures FromInt(ToInt(o)) == o && ToInt(FromInt(n)) == n
  {
  }
}
