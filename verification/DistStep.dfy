/** The distributor of `dist.cpp` as sets of pipes.

    The array of the source is partitioned into matching, active, eligible and passive pipes; these
    functions say what every operation does to the partition. */
module DistStep {

  datatype View<T> = View(matching: set<T>, active: set<T>, eligible: set<T>, all: set<T>, more: bool)

  /** Between messages every eligible pipe is active. */
  predicate Ok<T>(v: View<T>) {
    v.matching <= v.active <= v.eligible <= v.all && (!v.more ==> v.active == v.eligible)
  }

  /** A pipe attached in the middle of a message has to wait for the next one. */
  function Attach<T>(v: View<T>, p: T): View<T> {
    v.(active := if v.more then v.active else v.active + {p}, eligible := v.eligible + {p}, all := v.all + {p})
  }

  function Match<T>(v: View<T>, p: T): View<T> {
    if p in v.eligible then v.(matching := v.matching + {p}) else v
  }

  function Unmatch<T>(v: View<T>): View<T> {
    v.(matching := {})
  }

  function ReverseMatch<T>(v: View<T>): View<T> {
    v.(matching := v.eligible - v.matching)
  }

  function Refuse<T>(v: View<T>, ps: set<T>): View<T> {
    v.(matching := v.matching - ps, active := v.active - ps, eligible := v.eligible - ps)
  }

  function PipeTerminated<T>(v: View<T>, p: T): View<T> {
    var w := Refuse(v, {p}); w.(all := v.all - {p})
  }

  function Activated<T>(v: View<T>, p: T): View<T> {
    v.(active := if v.more then v.active else v.active + {p}, eligible := v.eligible + {p})
  }

  /** A frame was offered to all matching pipes, and `refused` had no room. */
  function SendToMatching<T>(v: View<T>, msgMore: bool, refused: set<T>): View<T> {
    var w := Refuse(v, refused);
    w.(active := if msgMore then w.active else w.eligible, more := msgMore)
  }

  function SendToAll<T>(v: View<T>, msgMore: bool, refused: set<T>): View<T> {
    SendToMatching(v.(matching := v.active), msgMore, refused)
  }
}
