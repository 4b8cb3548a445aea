/** The array of `array.hpp`: every item stores its own position. */
module Arrays {
  import opened Options
  import opened MsgStep
  import opened Msg

  type Frame = Handle<ContentT>

  function Swapped<T>(s: seq<T>, i: nat, j: nat): (r: seq<T>)
    requires i < |s| && j < |s|
    ensures |r| == |s|
  {
    s[i := s[j]][j := s[i]]
  }

  /** The members among the first `k`. */
  ghost function First<T>(s: seq<T>, k: nat): set<T>
    requires k <= |s|
  {
    set x | x in s[..k]
  }

  ghost predicate Distinct<T>(s: seq<T>) {
    forall i, j | 0 <= i < j < |s| :: s[i] != s[j]
  }

  lemma FirstIs<T>(s: seq<T>, k: nat)
    requires k <= |s|
    ensures First(s, 0) == {} && forall i | 0 <= i < k :: s[i] in First(s, k)
    ensures Distinct(s) ==> forall i | k <= i < |s| :: s[i] !in First(s, k)
    ensures k < |s| ==> First(s, k + 1) == First(s, k) + {s[k]}
  {
    if k < |s| {
      assert s[..k + 1] == s[..k] + [s[k]];
    }
  }

  lemma {:induction false} FirstSize<T>(s: seq<T>, k: nat)
    requires k <= |s| && Distinct(s)
    ensures |First(s, k)| == k
  {
    FirstIs(s, k);
    if k > 0 {
      FirstIs(s, k - 1);
      FirstSize(s, k - 1);
    }
  }

  /** Swapping within the first `k`, or outside of them, changes no member. */
  lemma SwapKeepsFirst<T>(s: seq<T>, i: nat, j: nat, k: nat)
    requires i < |s| && j < |s| && k <= |s| && (i < k <==> j < k)
    ensures First(Swapped(s, i, j), k) == First(s, k)
  {
    var r := Swapped(s, i, j);
    if i < k {
      forall x
        ensures x in r[..k] <==> x in s[..k]
      {
        if x in s[..k] {
          var a :| 0 <= a < k && s[a] == x;
          assert r[..k][if a == i then j else if a == j then i else a] == x;
        }
        if x in r[..k] {
          var a :| 0 <= a < k && r[a] == x;
          assert s[..k][if a == i then j else if a == j then i else a] == x;
        }
      }
    } else {
      assert r[..k] == s[..k];
    }
  }

  /** The member at `i` is swapped to the end of the first `k` and cut off. */
  lemma CutOff<T>(s: seq<T>, i: nat, k: nat)
    requires i < k <= |s| && Distinct(s)
    ensures var r := Swapped(s, i, k - 1);
            && Distinct(r) && r[k - 1] == s[i] && First(r, k - 1) == First(s, k) - {s[i]}
            && (forall m: nat | m <= i || k <= m <= |s| :: First(r, m) == First(s, m))
  {
    var r := Swapped(s, i, k - 1);
    SwapKeepsDistinct(s, i, k - 1);
    forall m: nat | m <= i || k <= m <= |s|
      ensures First(r, m) == First(s, m)
    {
      SwapKeepsFirst(s, i, k - 1, m);
    }
    FirstIs(r, k - 1);
  }

  /** The member at `i` is swapped to position `k` and taken in. */
  lemma TakeIn<T>(s: seq<T>, i: nat, k: nat)
    requires k <= i < |s| && Distinct(s)
    ensures var r := Swapped(s, i, k);
            && Distinct(r) && First(r, k + 1) == First(s, k) + {s[i]}
            && (forall m: nat | m <= k || i < m <= |s| :: First(r, m) == First(s, m))
  {
    var r := Swapped(s, i, k);
    SwapKeepsDistinct(s, i, k);
    forall m: nat | m <= k || i < m <= |s|
      ensures First(r, m) == First(s, m)
    {
      SwapKeepsFirst(s, i, k, m);
    }
    FirstIs(r, k);
  }

  lemma SwapKeepsDistinct<T>(s: seq<T>, i: nat, j: nat)
    requires i < |s| && j < |s| && Distinct(s)
    ensures Distinct(Swapped(s, i, j))
  {
  }

  lemma SwapKeepsMembers<T>(s: seq<T>, i: nat, j: nat)
    requires i < |s| && j < |s|
    ensures forall t | 0 <= t < |s| :: Swapped(s, i, j)[t] in s
    ensures forall t | 0 <= t < |s| :: s[t] in Swapped(s, i, j)
  {
    var r := Swapped(s, i, j);
    forall x | x in s
      ensures x in r
    {
      var a :| 0 <= a < |s| && s[a] == x;
      assert r[if a == i then j else if a == j then i else a] == x;
    }
  }

  lemma FirstOfSlice<T>(s: seq<T>, n: nat)
    requires n <= |s|
    ensures forall m: nat | m <= n :: First(s[..n], m) == First(s, m)
  {
    forall m: nat | m <= n
      ensures First(s[..n], m) == First(s, m)
    {
      assert s[..n][..m] == s[..m];
    }
  }

  /** The contents of a pipe as the schedulers see them.  `answers` is how its next writes will turn out,
      `log` holds the frames written and not rolled back, of which `flushed` were published; `inbox` holds
      the published frames that are there to be read, which the pipe `refuses` to hand out once its own side
      has terminated it. */
  datatype Content<C> = Content(answers: seq<bool>, attempts: nat, log: seq<Handle<C>>, flushed: nat, inbox: seq<Handle<C>>, refuses: bool) {

    predicate HasRoom() {
      answers != [] && answers[0]
    }

    /** A write is attempted; it succeeds if there is room. */
    function Offer(m: Handle<C>): Content<C> {
      Content(if answers == [] then [] else answers[1..], attempts + 1, if HasRoom() then log + [m] else log, flushed, inbox, refuses)
    }

    /** Asking whether there is room, without writing. */
    function Ask(): Content<C> {
      Content(if answers == [] then [] else answers[1..], attempts, log, flushed, inbox, refuses)
    }

    function Flushed(): Content<C> {
      this.(flushed := |log|)
    }

    function Rollback(): Content<C> {
      this.(log := Complete(log))
    }

    /** A frame can be read. */
    predicate HasFrame() {
      inbox != [] && !refuses
    }

    function Pop(): Content<C>
      requires inbox != []
    {
      this.(inbox := inbox[1..])
    }
  }

  /** The frames up to the end of the last complete message. */
  function Complete<C>(log: seq<Handle<C>>): seq<Handle<C>> {
    if log == [] || !log[|log| - 1].more then log else Complete(log[..|log| - 1])
  }

  /** Nothing but complete messages. */
  predicate Whole<C>(log: seq<Handle<C>>) {
    log == [] || !log[|log| - 1].more
  }

  class Item {
    var index: int
    var answers: seq<bool>
    var attempts: nat
    var log: seq<Frame>
    var flushed: nat
    var inbox: seq<Frame>
    var refuses: bool

    constructor (future: seq<bool>)
      ensures index == -1 && answers == future && attempts == 0 && log == [] && flushed == 0 && inbox == [] && !refuses
    {
      index, answers, attempts, log, flushed, inbox, refuses := -1, future, 0, [], 0, [], false;
    }

    ghost function Abs(): Content<ContentT>
      reads `answers, `attempts, `log, `flushed, `inbox, `refuses
    {
      Content(answers, attempts, log, flushed, inbox, refuses)
    }

    method Write(m: Frame) returns (ok: bool)
      modifies `answers, `attempts, `log
      ensures ok == old(Abs()).HasRoom() && Abs() == old(Abs()).Offer(m)
    {
      attempts := attempts + 1;
      ok := answers != [] && answers[0];
      if answers != [] {
        answers := answers[1..];
      }
      if ok {
        log := log + [m];
      }
    }

    method CheckWrite() returns (ok: bool)
      modifies `answers
      ensures ok == old(Abs()).HasRoom() && Abs() == old(Abs()).Ask()
    {
      ok := answers != [] && answers[0];
      if answers != [] {
        answers := answers[1..];
      }
    }

    method Flush()
      modifies `flushed
      ensures Abs() == old(Abs()).Flushed()
    {
      flushed := |log|;
    }

    /** Takes back the frames of an unfinished message, newest first. */
    method Rollback()
      modifies `log
      ensures Abs() == old(Abs()).Rollback()
    {
      while log != [] && log[|log| - 1].more
        invariant Abs() == old(Abs()).(log := log) && Complete(log) == Complete(old(log))
        decreases |log|
      {
        log := log[..|log| - 1];
      }
    }

    /** The socket terminates the pipe: nothing is read from it any more. */
    method Close()
      modifies `refuses
      ensures Abs() == old(Abs()).(refuses := true)
    {
      refuses := true;
    }

    method Read() returns (frame: Option<Frame>)
      modifies `inbox
      ensures frame.Some? <==> old(Abs()).HasFrame()
      ensures if frame.Some? then frame.value == old(Abs()).inbox[0] && Abs() == old(Abs()).Pop() else Abs() == old(Abs())
    {
      if inbox == [] || refuses {
        return None;
      }
      frame := Some(inbox[0]);
      inbox := inbox[1..];
    }
  }

  class ArrayT {
    var items: seq<Item>

    ghost predicate Valid()
      reads this, items`index
    {
      forall i | 0 <= i < |items| :: items[i].index == i
    }

    ghost function Members(): set<Item>
      reads `items
    {
      set p | p in items
    }

    ghost function Contents(): map<Item, Content<ContentT>>
      reads `items, items`answers, items`attempts, items`log, items`flushed, items`inbox, items`refuses
    {
      map p | p in items :: p.Abs()
    }

    lemma ValidIsDistinct()
      requires Valid()
      ensures Distinct(items)
    {
    }

    constructor ()
      ensures Valid() && items == []
    {
      items := [];
    }

    function Index(item: Item): (i: nat)
      requires Valid() && item in items
      reads this, items`index
      ensures i < |items| && items[i] == item
    {
      item.index
    }

    method PushBack(item: Item)
      requires Valid() && item !in items
      modifies `items, item`index
      ensures Valid() && items == old(items) + [item]
      ensures Members() == old(Members()) + {item} && Contents() == old(Contents())[item := item.Abs()]
    {
      item.index := |items|;
      items := items + [item];
    }

    method Swap(i: nat, j: nat)
      requires Valid() && i < |items| && j < |items|
      modifies `items, Members()`index
      ensures Valid() && items == Swapped(old(items), i, j)
      ensures Members() == old(Members()) && Contents() == old(Contents())
    {
      SwapKeepsMembers(items, i, j);
      items[i].index := j;
      items[j].index := i;
      items := items[i := items[j]][j := items[i]];
    }

    /** The last item takes the place of the erased one. */
    method Erase(item: Item)
      requires Valid() && item in items
      modifies `items, Members()`index
      ensures Valid() && items == Swapped(old(items), old(item.index), |old(items)| - 1)[..|old(items)| - 1]
      ensures Members() == old(Members()) - {item} && Contents() == old(Contents()) - {item}
    {
      SwapKeepsMembers(items, item.index, |items| - 1);
      var i := item.index;
      items[|items| - 1].index := i;
      items := items[i := items[|items| - 1]];
      items := items[..|items| - 1];
    }
  }
}
