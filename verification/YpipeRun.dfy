/** One writer thread and one reader thread of a ypipe, interleaved at every access to the shared pointer `c`.

    `w`, `f` and the tail of `items` belong to the writer, `front` and `r` to the reader.  A call touches `c` at
    most once, except a flush that finds the reader asleep: it fails to swap `c` and then sets it.  The reader
    may run in between.  Whatever the interleaving, the calls behave as if each had happened in one moment. */
module YpipeRun {
  import opened Options
  import opened Ypipe

  datatype State<T> = State(items: seq<T>, front: nat, w: nat, f: nat, r: Option<nat>, c: Option<nat>, mustSet: bool)

  /** `FlushOp` is a flush up to its compare-and-swap, `SetOp` the rest of one that failed. */
  datatype Op<T> = WriteOp(value: T, incomplete: bool) | UnwriteOp | FlushOp | SetOp | CheckOp | ReadOp

  /** A finished call and its result. */
  datatype Event<T> =
    | Wrote(value: T, incomplete: bool)
    | Unwrote(item: Option<T>)
    | Flushed(ok: bool)
    | Checked(found: bool)
    | Received(item: Option<T>)

  function Start<T>(): State<T> {
    State([], 0, 0, 0, Some(0), Some(0), false)
  }

  ghost predicate Good<T>(s: State<T>) {
    && s.front <= s.w <= s.f <= |s.items|
    && (s.c == None || s.c == Some(s.w))
    && (s.c == None ==> s.front == s.w)
    && (s.r == None || s.front <= s.r.value <= s.w)
    && (s.mustSet ==> s.c == None && s.w < s.f)
  }

  /** The writer is in the middle of a flush, or free to call anything. */
  predicate Enabled<T>(s: State<T>, op: Op<T>) {
    match op
    case SetOp => s.mustSet
    case CheckOp => true
    case ReadOp => true
    case _ => !s.mustSet
  }

  predicate Prefetched<T>(s: State<T>) {
    s.r.Some? && s.r != Some(s.front)
  }

  /** Prefetching: at most one compare-and-swap. */
  function Look<T>(s: State<T>): State<T> {
    if Prefetched(s) then s
    else s.(r := s.c, c := if s.c == Some(s.front) then None else s.c)
  }

  function Step<T>(s: State<T>, op: Op<T>): (State<T>, seq<Event<T>>)
    requires Good(s) && Enabled(s, op)
  {
    match op
    case WriteOp(x, incomplete) =>
      (s.(items := s.items + [x], f := if incomplete then s.f else |s.items| + 1), [Wrote(x, incomplete)])
    case UnwriteOp =>
      if s.f == |s.items| then (s, [Unwrote(None)])
      else (s.(items := s.items[..|s.items| - 1]), [Unwrote(Some(s.items[|s.items| - 1]))])
    case FlushOp =>
      if s.w == s.f then (s, [Flushed(true)])
      else if s.c == Some(s.w) then (s.(c := Some(s.f), w := s.f), [Flushed(true)])
      else (s.(mustSet := true), [])
    case SetOp => (s.(c := Some(s.f), w := s.f, mustSet := false), [Flushed(false)])
    case CheckOp => (Look(s), [Checked(Prefetched(Look(s)))])
    case ReadOp =>
      var t := Look(s);
      if Prefetched(t) then (t.(front := t.front + 1), [Received(Some(t.items[t.front]))]) else (t, [Received(None)])
  }

  /** The queue that the two threads share. */
  ghost function Abs<T>(s: State<T>): Queue<T>
    requires Good(s)
  {
    Queue(s.items[s.front..s.w], s.items[s.w..s.f], s.items[s.f..], s.c == None)
  }

  /** What a queue does in one call; None if it would give another result. */
  function Call<T(==)>(q: Queue<T>, e: Event<T>): Option<Queue<T>> {
    match e
    case Wrote(x, incomplete) => Some(q.Write(x, incomplete))
    case Unwrote(item) =>
      if q.part == [] then (if item == None then Some(q) else None)
      else if item == Some(q.part[|q.part| - 1]) then Some(q.Unwrite()) else None
    case Flushed(ok) => if ok == q.FlushOk() then Some(q.Flush()) else None
    case Checked(found) => if found == (q.ready != []) then Some(q.Look()) else None
    case Received(item) =>
      if q.ready == [] then (if item == None then Some(q.Look()) else None)
      else if item == Some(q.ready[0]) then Some(q.Pop()) else None
  }

  function Replay<T(==)>(q: Queue<T>, es: seq<Event<T>>): Option<Queue<T>>
    decreases |es|
  {
    if es == [] then Some(q)
    else match Call(q, es[0]) case None => None case Some(p) => Replay(p, es[1..])
  }

  lemma WriteIsACall<T>(s: State<T>, x: T, incomplete: bool)
    requires Good(s) && !s.mustSet
    ensures var t := Step(s, WriteOp(x, incomplete)).0; Good(t) && Abs(t) == Abs(s).Write(x, incomplete)
  {
    var t := Step(s, WriteOp(x, incomplete)).0;
    assert t.items[s.front..s.w] == s.items[s.front..s.w] && t.items[s.w..s.f] == s.items[s.w..s.f];
    assert t.items[s.f..] == s.items[s.f..] + [x];
    if !incomplete {
      assert t.items[s.w..|t.items|] == t.items[s.w..s.f] + t.items[s.f..];
    }
  }

  lemma UnwriteIsACall<T>(s: State<T>)
    requires Good(s) && !s.mustSet
    ensures var (t, es) := Step(s, UnwriteOp); Good(t) && |es| == 1 && Call(Abs(s), es[0]) == Some(Abs(t))
  {
    var n := |s.items| - 1;
    if s.f <= n {
      assert s.items[..n][s.front..s.w] == s.items[s.front..s.w] && s.items[..n][s.w..s.f] == s.items[s.w..s.f];
      assert s.items[..n][s.f..] == s.items[s.f..][..n - s.f];
    }
  }

  lemma FlushIs<T>(s: State<T>)
    requires Good(s)
    ensures s.items[s.front..s.f] == Abs(s).ready + Abs(s).done && s.items[s.f..s.f] == []
    ensures Abs(s).done == [] <==> s.w == s.f
  {
    assert |Abs(s).done| == s.f - s.w;
  }

  /** Every step is one call on the queue, or the first half of a failing flush, which changes nothing yet. */
  lemma StepIsACall<T>(s: State<T>, op: Op<T>)
    requires Good(s) && Enabled(s, op)
    ensures var (t, es) := Step(s, op);
            && Good(t) && |es| <= 1
            && (if es == [] then Abs(t) == Abs(s) else Call(Abs(s), es[0]) == Some(Abs(t)))
  {
    var (t, es) := Step(s, op);
    match op
    case WriteOp(x, incomplete) =>
      WriteIsACall(s, x, incomplete);
    case UnwriteOp =>
      UnwriteIsACall(s);
    case FlushOp =>
      FlushIs(s);
    case SetOp =>
      FlushIs(s);
    case CheckOp =>
    case ReadOp =>
      assert s.front < s.w ==> s.items[s.front..s.w][0] == s.items[s.front] && s.items[s.front..s.w][1..] == s.items[s.front + 1..s.w];
  }

  ghost predicate Runs<T>(s: State<T>, ops: seq<Op<T>>)
    requires Good(s)
    decreases |ops|
  {
    ops == [] || (Enabled(s, ops[0]) && (StepIsACall(s, ops[0]); Runs(Step(s, ops[0]).0, ops[1..])))
  }

  /** The state after a run and the calls that were finished in it, in the order in which they took effect. */
  ghost function Run<T>(s: State<T>, ops: seq<Op<T>>): (State<T>, seq<Event<T>>)
    requires Good(s) && Runs(s, ops)
    decreases |ops|
  {
    if ops == [] then (s, [])
    else
      StepIsACall(s, ops[0]);
      var (t, es) := Step(s, ops[0]);
      var (u, fs) := Run(t, ops[1..]);
      (u, es + fs)
  }

  lemma {:induction false} RunIsSequential<T>(s: State<T>, ops: seq<Op<T>>)
    requires Good(s) && Runs(s, ops)
    ensures Good(Run(s, ops).0) && Replay(Abs(s), Run(s, ops).1) == Some(Abs(Run(s, ops).0))
    decreases |ops|
  {
    if ops != [] {
      StepIsACall(s, ops[0]);
      var (t, es) := Step(s, ops[0]);
      RunIsSequential(t, ops[1..]);
      var fs := Run(t, ops[1..]).1;
      hide Step, Abs, Good, Call;
      if es == [] {
        assert es + fs == fs;
      } else {
        assert (es + fs)[0] == es[0] && (es + fs)[1..] == fs;
      }
    }
  }

  /** Whatever the interleaving of the two threads, the finished calls with their results are a history of the
      sequential queue, and the queue that is left is the one it leaves. */
  lemma CallsAreLinearizable<T>(ops: seq<Op<T>>)
    requires Runs(Start(), ops)
    ensures var (s, es) := Run(Start(), ops); Good(s) && Replay(Fresh(), es) == Some(Abs(s))
  {
    RunIsSequential(Start<T>(), ops);
    assert Abs(Start<T>()) == Fresh<T>();
  }
}
