/** The log of idle-mask changes that the polling loop keeps (Balancer/main.c). */
module MaskLog {

  datatype MaskChange = MaskChange(sec: nat, nsec: nat, oldMask: set<int>, newMask: set<int>)

  /** Each entry starts from the mask the one before ended with; `current` is the mask now. */
  ghost predicate Chained(log: seq<MaskChange>, current: set<int>) {
    && (forall e :: 0 <= e < |log| - 1 ==> log[e + 1].oldMask == log[e].newMask)
    && (forall e :: 0 <= e < |log| ==> log[e].oldMask != log[e].newMask)
    && current == if log == [] then {} else log[|log| - 1].newMask
  }
}
