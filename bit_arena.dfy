/**
 * The monitored bit buffer as a value: the search for a bit set to one that
 * check_data performs with data.index(one) in main.py.
 */
module BitArena {
  import opened Wrappers

  /**
   * The index of the first bit set to one, or None where data.index raises
   * ValueError because every bit is zero.
   */
  function FirstOne(bits: seq<bool>): (r: Option<nat>)
    ensures r.Some? ==> r.value < |bits| && bits[r.value]
    ensures r.Some? ==> forall j :: 0 <= j < r.value ==> !bits[j]
    ensures r.None? <==> forall j :: 0 <= j < |bits| ==> !bits[j]
  {
    if |bits| == 0 then None
    else if bits[0] then Some(0)
    else
      match FirstOne(bits[1..])
      case None => None
      case Some(i) => Some(i + 1)
  }

  /** A freshly zeroed arena of any length, zero included, holds no upset. */
  lemma ZeroedHasNoOne(n: nat)
    ensures FirstOne(seq(n, _ => false)) == None
  {
  }
}
