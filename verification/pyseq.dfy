/** Python's rules for indexing and slicing a sequence of length `len`,
    stated over the positions they select. */
module PySeq {
  import opened Wrappers

  /** The position an index or slice bound `i` denotes before any range
      check or clamping: a negative one counts back from the end. */
  function Resolve(i: int, len: nat): int
  {
    if i < 0 then len + i else i
  }

  /** `a[i]`: a negative index counts from the end; an index outside
      `[-len, len)` raises IndexError, modelled as `None`. */
  function Index(i: int, len: nat): (r: Option<nat>)
    ensures r.Some? <==> -(len as int) <= i < len
    ensures r.Some? ==> r.value < len && (r.value == i || r.value == len + i)
    ensures r.Some? ==> r.value == Resolve(i, len)
  {
    if 0 <= i < len then Some(i)
    else if -(len as int) <= i < 0 then Some(len + i)
    else None
  }

  /** One bound of `a[lo:hi]`: a negative bound counts from the end, and a
      bound outside the sequence is clamped to it. */
  function SliceBound(i: int, len: nat): (r: nat)
    ensures r <= len
    ensures 0 <= i <= len ==> r == i
    ensures 0 <= Resolve(i, len) <= len ==> r == Resolve(i, len)
    ensures Resolve(i, len) < 0 ==> r == 0
    ensures Resolve(i, len) > len ==> r == len
  {
    if i < 0 then (if i + len < 0 then 0 else i + len)
    else if i > len then len
    else i
  }

  /** The ascending run of consecutive integers `lo, lo+1, ..., hi-1`. */
  function Range(lo: nat, hi: nat): (r: seq<nat>)
    ensures |r| == if lo <= hi then hi - lo else 0
    ensures forall k :: 0 <= k < |r| ==> r[k] == lo + k
    decreases hi - lo
  {
    if lo >= hi then [] else [lo] + Range(lo + 1, hi)
  }

  /** The positions `a[lo:hi]` selects: never raises, possibly empty, always
      an ascending run inside `[0, len)`. */
  function Slice(lo: int, hi: int, len: nat): (r: seq<nat>)
    ensures forall k :: 0 <= k < |r| ==> r[k] < len
    ensures forall k :: 0 < k < |r| ==> r[k] == r[k - 1] + 1
    ensures 0 <= lo <= hi <= len ==> r == Range(lo, hi)
    ensures forall k: nat :: k in r <==> k < len && Resolve(lo, len) <= k < Resolve(hi, len)
  {
    var a, b := SliceBound(lo, len), SliceBound(hi, len);
    RangeMembers(a, b);
    Range(a, b)
  }

  /** `Range(lo, hi)` holds exactly the integers in `[lo, hi)`. */
  lemma RangeMembers(lo: nat, hi: nat)
    ensures forall k: nat :: k in Range(lo, hi) <==> lo <= k < hi
  {
    var r := Range(lo, hi);
    forall k: nat | lo <= k < hi ensures k in r {
      assert r[k - lo] == k;
    }
  }
}
