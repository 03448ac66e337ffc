/** What the Balancer asks of the Monitor: the value of `needs_rebalance` and the cores listed. */
module Requests {

  const SLOTS := 64

  /** One call of `SchedAllSecondary`: the action flag raised and the list it covers. */
  datatype Request = Request(action: int, list: seq<int>)

  const GROW := 1
  const SHRINK := 2
  const EMPTY := 3

  function ActionFor(list: seq<int>, before: int): int {
    if list == [] then EMPTY else if |list| < before then SHRINK else GROW
  }

  /** The actions by the length of the list and of the one before: 3 for none, 2 for a shorter one, 1 for any other. */
  predicate AsksByLength(action: int, list: seq<int>, before: int) {
    && 1 <= action <= 3
    && (action == 3 <==> |list| == 0)
    && (action == 2 <==> 0 < |list| < before)
    && (action == 1 <==> |list| > 0 && |list| >= before)
  }

  lemma ActionByLength(list: seq<int>, before: nat)
    ensures AsksByLength(ActionFor(list, before), list, before)
  {}

  /** How long the list asked for before request k was. */
  function Before(rs: seq<Request>, k: nat): nat
    requires k <= |rs|
  {
    if k == 0 then 0 else |rs[k - 1].list|
  }

  /** Every action is the one that the length of the list calls for, against the list asked for before. */
  ghost predicate ByLength(rs: seq<Request>) {
    forall k :: 0 <= k < |rs| ==> AsksByLength(rs[k].action, rs[k].list, Before(rs, k))
  }

  lemma PushByLength(rs: seq<Request>, r: Request)
    requires ByLength(rs) && AsksByLength(r.action, r.list, Before(rs, |rs|))
    ensures ByLength(rs + [r])
  {
    var qs := rs + [r];
    forall k | 0 <= k < |qs| ensures AsksByLength(qs[k].action, qs[k].list, Before(qs, k)) {
      assert Before(qs, k) == Before(rs, k);
    }
  }
}
