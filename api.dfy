/** Facts about sequences and the sets of their elements. */
module Collections {

  /** The set of values a sequence holds, as `new Set(xs)` collects them. */
  function Elements<T>(xs: seq<T>): set<T> {
    set k | 0 <= k < |xs| :: xs[k]
  }

  /** A sequence holds at most as many distinct values as it has entries, and at least one when it is not empty. */
  lemma {:induction false} ElementsBound<T>(xs: seq<T>)
    ensures |Elements(xs)| <= |xs|
    ensures |xs| > 0 ==> |Elements(xs)| > 0
  {
    if xs != [] {
      var n := |xs| - 1;
      ElementsBound(xs[..n]);
      assert Elements(xs) == Elements(xs[..n]) + {xs[n]} by {
        forall u | u in Elements(xs) ensures u in Elements(xs[..n]) + {xs[n]} {
          var k :| 0 <= k < |xs| && xs[k] == u;
          if k < n {
            assert xs[..n][k] == xs[k];
          }
        }
      }
    }
  }

  /** Pushing one value at the end of a non-empty sequence keeps its head and pushes it onto its tail. */
  lemma TailOfPush<T>(xs: seq<T>, x: T)
    requires xs != []
    ensures (xs + [x])[0] == xs[0] && (xs + [x])[1..] == xs[1..] + [x]
  {
  }

  lemma SeqAssoc<T>(a: seq<T>, b: seq<T>, c: seq<T>)
    ensures a + (b + c) == a + b + c
  {
  }
}

/** The records the admin API hands to the visit views. */
module Api {
  import opened Options

  /** A recorded page visit: the fields the admin views read; an absent optional field is `None`. */
  datatype PageVisit = PageVisit(
    pageUrl: string,
    referrerUrl: Option<string>,
    deviceType: Option<string>,
    browser: Option<string>,
    sessionId: Option<string>,
    timeOnPageSeconds: Option<nat>,
    userId: Option<string>)

  /** An optional string in a JavaScript condition: absent and `""` are false. */
  predicate TruthyText(s: Option<string>) {
    s.Some? && s.value != ""
  }

  /** An optional number in a JavaScript condition: absent and `0` are false. */
  predicate TruthyNumber(n: Option<nat>) {
    n.Some? && n.value != 0
  }

  /** `value || fallback` for an optional string. */
  function OrElse(s: Option<string>, fallback: string): string {
    if TruthyText(s) then s.value else fallback
  }
}
