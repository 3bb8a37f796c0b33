/** SQL window functions over a frame that is already cut out of the partition. */
module SqlWindows {
  import opened Wrappers
  import opened Windows

  /** SQL aggregates ignore NULL and are NULL over no values. */
  function NonNull(s: seq<Option<real>>): seq<real>
  {
    if s == [] then []
    else NonNull(s[..|s| - 1]) + (if s[|s| - 1].Some? then [s[|s| - 1].value] else [])
  }

  function SqlAvg(s: seq<Option<real>>): Option<real> { if NonNull(s) == [] then None else Some(Mean(NonNull(s))) }

  function SqlMax(s: seq<Option<real>>): Option<real> { if NonNull(s) == [] then None else Some(MaxOf(NonNull(s))) }

  function SqlMin(s: seq<Option<real>>): Option<real> { if NonNull(s) == [] then None else Some(MinOf(NonNull(s))) }

  /** `lag(x, k)` at the last row. */
  function Lag(s: seq<Option<real>>, k: nat): Option<real>
  {
    if k < |s| then s[|s| - 1 - k] else None
  }
}
