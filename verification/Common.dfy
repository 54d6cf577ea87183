/** Shared vocabulary: optional columns, severities and integer minimum/maximum. */
module Common {

  /** A nullable column. */
  datatype Option<+T> = None | Some(value: T) {
    function UnwrapOr(default: T): T {
      if None? then default else value
    }
  }

  datatype Severity = Info | Warning | High | Critical {
    /** The ranking table shared by alerts and notifications. */
    function Rank(): nat {
      match this
      case Info => 0
      case Warning => 1
      case High => 2
      case Critical => 3
    }
  }

  function Min(a: int, b: int): int { if a <= b then a else b }

  function Max(a: int, b: int): int { if a <= b then b else a }

  /** Two to the power n. */
  function Pow2(n: nat): (p: nat)
    ensures p >= 1
  {
    if n == 0 then 1 else 2 * Pow2(n - 1)
  }

  lemma CountOneMore(all: set<nat>, last: nat)
    ensures |all| == |all - {last}| + if last in all then 1 else 0
  {
    if last in all {
      assert all == (all - {last}) + {last};
    } else {
      assert all - {last} == all;
    }
  }
}
