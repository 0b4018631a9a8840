/** Counting the threads that are somewhere, when one of them moves. */
module Counting {

  function Bit(b: bool): nat {
    if b then 1 else 0
  }

  lemma {:induction false} SameBut(a: set<nat>, b: set<nat>, t: nat)
    requires a - {t} == b - {t}
    ensures |b| == |a| - Bit(t in a) + Bit(t in b)
    ensures |a| >= Bit(t in a)
  {
    assert t in a ==> a == (a - {t}) + {t};
    assert t in b ==> b == (b - {t}) + {t};
    assert t !in a ==> a == a - {t};
    assert t !in b ==> b == b - {t};
  }
}
