/** Any number of messages and contents: a content is freed exactly when its last handle goes away. */
module MsgRefs {
  import opened Options
  import opened MsgStep

  type MsgId = nat
  type CellId = nat

  datatype System = System(msgs: map<MsgId, Handle<CellId>>, cells: map<CellId, Cell>)

  /** `Distribute` is dist_t::distribute of a message to pipes of which those holding `accepted` take it
      and `failed` others refuse; the accepted copies lie in the pipes as messages of their own. */
  datatype Op =
    | InitPlain(m: MsgId, kind: Kind)
    | InitCounted(m: MsgId, kind: Kind, c: CellId)
    | Close(m: MsgId)
    | Move(m: MsgId, src: MsgId)
    | Copy(m: MsgId, src: MsgId)
    | Distribute(m: MsgId, accepted: set<MsgId>, failed: nat)

  predicate Usable(s: System, m: MsgId) {
    m in s.msgs && s.msgs[m].kind != Invalid
  }

  /** Messages are initialised when they hold nothing; move and copy take distinct, usable messages. */
  predicate Enabled(s: System, op: Op) {
    match op
    case InitPlain(m, kind) => !Usable(s, m) && !Counted(kind) && kind != Invalid
    case InitCounted(m, kind, c) => !Usable(s, m) && Counted(kind) && c !in s.cells
    case Close(m) => Usable(s, m)
    case Move(m, src) => Usable(s, m) && Usable(s, src) && m != src
    case Copy(m, src) => Usable(s, m) && Usable(s, src) && m != src
    case Distribute(m, accepted, failed) => Usable(s, m) && accepted !! s.msgs.Keys
  }

  function Closed(s: System, m: MsgId): System
    requires m in s.msgs
  {
    var h := s.msgs[m];
    var cells := if h.content.Some? && h.content.value in s.cells then s.cells[h.content.value := CloseCell(h, s.cells[h.content.value])] else s.cells;
    System(s.msgs[m := CloseHandle(h)], cells)
  }

  /** The handle of `m` becomes `h`, and its content `update` of what it was. */
  function WithCell(s: System, m: MsgId, h: Handle<CellId>, cell: Cell): System {
    System(s.msgs[m := h], if h.content.Some? && h.content.value in s.cells then s.cells[h.content.value := cell] else s.cells)
  }

  function CellOf(s: System, m: MsgId): Cell
    requires m in s.msgs
  {
    var h := s.msgs[m];
    if h.content.Some? && h.content.value in s.cells then s.cells[h.content.value] else Cell(0, 0)
  }

  function Shared(s: System, m: MsgId): System
    requires m in s.msgs
  {
    WithCell(s, m, Share(s.msgs[m]), CopyCell(s.msgs[m], CellOf(s, m)))
  }

  function WithCopies(msgs: map<MsgId, Handle<CellId>>, ids: set<MsgId>, h: Handle<CellId>): map<MsgId, Handle<CellId>> {
    map x | x in msgs.Keys + ids :: if x in ids then h else msgs[x]
  }

  function Distributed(s: System, m: MsgId, accepted: set<MsgId>, failed: nat): System
    requires m in s.msgs
  {
    var h := s.msgs[m];
    if accepted == {} && failed == 0 then
      var t := Closed(s, m); t.(msgs := t.msgs[m := Init()])
    else if h.kind.Vsm? then
      var t := Closed(s.(msgs := WithCopies(s.msgs, accepted, h)), m); t.(msgs := t.msgs[m := Init()])
    else
      var n := |accepted| + failed - 1;
      var sent := AddRefs(h, n);
      var t := WithCell(s, m, sent, RmRefsCell(sent, AddRefsCell(h, CellOf(s, m), n), failed));
      t.(msgs := WithCopies(t.msgs, accepted, sent)[m := Init()])
  }

  function Step(s: System, op: Op): System
    requires Enabled(s, op)
  {
    match op
    case InitPlain(m, kind) => s.(msgs := s.msgs[m := Handle(kind, false, false, None)])
    case InitCounted(m, kind, c) => System(s.msgs[m := Handle(kind, false, false, Some(c))], s.cells[c := Cell(0, 0)])
    case Close(m) => Closed(s, m)
    case Move(m, src) =>
      var t := Closed(s, m); t.(msgs := t.msgs[m := s.msgs[src]][src := Init()])
    case Copy(m, src) =>
      var t := Shared(Closed(s, m), src); t.(msgs := t.msgs[m := t.msgs[src]])
    case Distribute(m, accepted, failed) => Distributed(s, m, accepted, failed)
  }

  // ------------------------------------------------------------------------------------------
  // The invariant
  // ------------------------------------------------------------------------------------------

  ghost function Holders(s: System, c: CellId): set<MsgId> {
    set m | m in s.msgs && s.msgs[m].content == Some(c)
  }

  ghost predicate HandleOk(s: System, m: MsgId)
    requires m in s.msgs
  {
    var h := s.msgs[m];
    && (Counted(h.kind) <==> h.content.Some?)
    && (h.content.Some? ==> h.content.value in s.cells && Users(h, s.cells[h.content.value]) == |Holders(s, h.content.value)|)
  }

  ghost predicate CellOk(s: System, c: CellId)
    requires c in s.cells
  {
    s.cells[c].frees == if Holders(s, c) == {} then 1 else 0
  }

  ghost predicate Conserved(s: System) {
    && (forall m {:trigger HandleOk(s, m)} | m in s.msgs :: HandleOk(s, m))
    && (forall c {:trigger CellOk(s, c)} | c in s.cells :: CellOk(s, c))
  }

  /** Every message of `t` that holds a content other than `focus` is a message of `s`, unchanged. */
  ghost predicate Elsewhere(s: System, t: System, focus: Option<CellId>) {
    && (forall m | m in t.msgs && t.msgs[m].content.Some? && t.msgs[m].content != focus :: m in s.msgs && t.msgs[m] == s.msgs[m])
    && (forall m | m in s.msgs && s.msgs[m].content.Some? && s.msgs[m].content != focus :: m in t.msgs && t.msgs[m] == s.msgs[m])
    && (forall c | c in s.cells && focus != Some(c) :: c in t.cells && t.cells[c] == s.cells[c])
    && (forall c | c in t.cells && focus != Some(c) :: c in s.cells)
    && (forall m | m in t.msgs :: Counted(t.msgs[m].kind) <==> t.msgs[m].content.Some?)
  }

  lemma SameHolders(s: System, t: System, focus: Option<CellId>, c: CellId)
    requires Elsewhere(s, t, focus) && focus != Some(c)
    ensures Holders(t, c) == Holders(s, c)
  {
    forall m
      ensures m in Holders(t, c) <==> m in Holders(s, c)
    {
    }
  }

  /** A step that touches one content keeps the counts right if it does so for that content. */
  lemma OneContent(s: System, t: System, focus: Option<CellId>)
    requires Conserved(s) && Elsewhere(s, t, focus)
    requires focus.Some? ==> focus.value in t.cells && t.cells[focus.value].frees == if Holders(t, focus.value) == {} then 1 else 0
    requires focus.Some? ==> forall m | m in Holders(t, focus.value) :: Users(t.msgs[m], t.cells[focus.value]) == |Holders(t, focus.value)|
    ensures Conserved(t)
  {
    hide Users;
    forall m | m in t.msgs
      ensures HandleOk(t, m)
    {
      var h := t.msgs[m];
      if h.content.Some? {
        if h.content == focus {
          assert m in Holders(t, focus.value);
        } else {
          assert HandleOk(s, m);
          SameHolders(s, t, focus, h.content.value);
        }
      }
    }
    forall c | c in t.cells
      ensures CellOk(t, c)
    {
      if focus != Some(c) {
        assert CellOk(s, c);
        SameHolders(s, t, focus, c);
      }
    }
  }

  /** All holders of a content agree on the number of holders; an unshared one is alone. */
  lemma Counts(s: System, m: MsgId, x: MsgId)
    requires Conserved(s) && m in s.msgs && s.msgs[m].content.Some? && x in Holders(s, s.msgs[m].content.value)
    ensures var c := s.msgs[m].content.value;
            && c in s.cells && s.cells[c].frees == 0 && m in Holders(s, c) && |Holders(s, c)| >= 1
            && Users(s.msgs[x], s.cells[c]) == |Holders(s, c)|
            && (!s.msgs[m].shared ==> Holders(s, c) == {m})
            && (x != m ==> s.msgs[x].shared && s.msgs[m].shared)
  {
    var c := s.msgs[m].content.value;
    assert HandleOk(s, m) && HandleOk(s, x);
    assert CellOk(s, c);
    assert m in Holders(s, c);
    Single(Holders(s, c), m);
    if x != m {
      assert {m, x} <= Holders(s, c);
      TwoElements(Holders(s, c), m, x);
    }
  }

  lemma Kinds(s: System)
    requires Conserved(s)
    ensures forall m | m in s.msgs :: Counted(s.msgs[m].kind) <==> s.msgs[m].content.Some?
    ensures forall m | m in s.msgs && s.msgs[m].content.Some? :: s.msgs[m].content.value in s.cells
  {
    forall m | m in s.msgs
      ensures HandleOk(s, m)
    {
    }
  }

  lemma HoldersAre(s: System, c: CellId, a: set<MsgId>)
    requires forall x: nat :: x in a ==> x in s.msgs && s.msgs[x].content == Some(c)
    requires forall x: nat :: x in s.msgs && s.msgs[x].content == Some(c) ==> x in a
    ensures Holders(s, c) == a
  {
  }

  lemma Single(a: set<MsgId>, m: MsgId)
    requires m in a
    ensures |a| >= 1 && (|a| == 1 ==> a == {m})
  {
    assert |a - {m}| == |a| - 1;
  }

  lemma TwoElements(a: set<MsgId>, m: MsgId, x: MsgId)
    requires m in a && x in a && m != x
    ensures |a| >= 2
  {
    assert |a - {m}| == |a| - 1 && x in a - {m};
  }

  lemma ClosedHolders(s: System, m: MsgId, c: CellId)
    requires m in s.msgs && s.msgs[m].content == Some(c)
    ensures Holders(Closed(s, m), c) == Holders(s, c) - {m}
  {
    hide CloseCell;
    assert forall x :: x in Holders(s, c) <==> x in s.msgs && s.msgs[x].content == Some(c);
    HoldersAre(Closed(s, m), c, Holders(s, c) - {m});
  }

  lemma CloseConserves(s: System, m: MsgId)
    requires Conserved(s) && m in s.msgs
    ensures Conserved(Closed(s, m))
  {
    hide Conserved;
    var t := Closed(s, m);
    var h := s.msgs[m];
    Kinds(s);
    if h.content.Some? {
      var c := h.content.value;
      Counts(s, m, m);
      ClosedHolders(s, m, c);
      forall x | x in Holders(t, c)
        ensures Users(t.msgs[x], t.cells[c]) == |Holders(t, c)|
      {
        Counts(s, m, x);
      }
    }
    OneContent(s, t, h.content);
  }

  /** In `t` the messages `ids` hold the content of `src`, and `src` itself only if it stays. */
  ghost predicate Spread(s: System, t: System, src: MsgId, ids: set<MsgId>, stays: bool) {
    && src in s.msgs && s.msgs[src].content.Some? && src !in ids
    && (forall x | x in ids :: x in s.msgs ==> s.msgs[x].content == None)
    && t.msgs.Keys == s.msgs.Keys + ids
    && (forall x | x in t.msgs && x !in ids && x != src :: t.msgs[x] == s.msgs[x])
    && (forall x | x in ids :: t.msgs[x].content == s.msgs[src].content && t.msgs[x].kind == s.msgs[src].kind)
    && t.msgs[src].kind == (if stays then s.msgs[src].kind else Vsm)
    && t.msgs[src].content == (if stays then s.msgs[src].content else None)
    && s.msgs[src].content.value in t.cells
    && t.cells == s.cells[s.msgs[src].content.value := t.cells[s.msgs[src].content.value]]
  }

  lemma SpreadElsewhere(s: System, t: System, src: MsgId, ids: set<MsgId>, stays: bool)
    requires Conserved(s) && Spread(s, t, src, ids, stays)
    ensures Elsewhere(s, t, s.msgs[src].content)
  {
    Kinds(s);
    hide Conserved;
  }

  lemma SpreadHolders(s: System, t: System, src: MsgId, ids: set<MsgId>, stays: bool)
    requires Spread(s, t, src, ids, stays)
    ensures var c := s.msgs[src].content.value;
            && Holders(t, c) == (Holders(s, c) - if stays then {} else {src}) + ids
            && |Holders(t, c)| == |Holders(s, c)| + |ids| - if stays then 0 else 1
  {
    var c := s.msgs[src].content.value;
    var a := Holders(s, c) - if stays then {} else {src};
    assert forall x :: x in Holders(s, c) <==> x in s.msgs && s.msgs[x].content == Some(c);
    assert forall x :: x in Holders(t, c) <==> x in t.msgs && t.msgs[x].content == Some(c);
    assert Holders(t, c) == a + ids;
    assert a !! ids;
    assert |a + ids| == |a| + |ids|;
  }

  /** The new count after `ids` became holders and, unless it stays, `src` ceased to be one. */
  lemma SpreadConserves(s: System, t: System, src: MsgId, ids: set<MsgId>, stays: bool)
    requires Conserved(s) && Spread(s, t, src, ids, stays)
    requires var c := s.msgs[src].content.value;
             var n := Users(s.msgs[src], CellOf(s, src)) + |ids| - if stays then 0 else 1;
             && t.cells[c].frees == CellOf(s, src).frees + (if n == 0 then 1 else 0)
             && (forall x | x in ids || (x == src && stays) :: Users(t.msgs[x], t.cells[c]) == n)
             && (s.msgs[src].shared ==> t.cells[c].refcnt == n)
    ensures Conserved(t)
  {
    hide Conserved, Spread, Users, Elsewhere, CellOf;
    SpreadFacts(s, t, src, ids, stays);
    Counts(s, src, src);
    CellIs(s, src);
    var c := s.msgs[src].content.value;
    SpreadHolders(s, t, src, ids, stays);
    SpreadElsewhere(s, t, src, ids, stays);
    forall x | x in Holders(t, c)
      ensures Users(t.msgs[x], t.cells[c]) == |Holders(t, c)|
    {
      if x !in ids && x != src {
        Counts(s, src, x);
        SharedUsers(t.msgs[x], t.cells[c]);
      }
    }
    OneContent(s, t, Some(c));
  }

  lemma CellIs(s: System, m: MsgId)
    requires m in s.msgs && s.msgs[m].content.Some? && s.msgs[m].content.value in s.cells
    ensures CellOf(s, m) == s.cells[s.msgs[m].content.value]
  {
  }

  lemma SharedUsers(h: Handle<CellId>, cell: Cell)
    requires h.shared
    ensures Users(h, cell) == cell.refcnt
  {
  }

  lemma SpreadFacts(s: System, t: System, src: MsgId, ids: set<MsgId>, stays: bool)
    requires Spread(s, t, src, ids, stays)
    ensures src in s.msgs && s.msgs[src].content.Some? && s.msgs[src].content.value in t.cells
    ensures src in t.msgs && (!stays ==> t.msgs[src].content == None)
    ensures forall x | x in t.msgs && x !in ids && x != src :: x in s.msgs && t.msgs[x] == s.msgs[x]
  {
  }

  /** `m` holds nothing and takes the place of `src`. */
  lemma TransferConserves(s: System, m: MsgId, src: MsgId)
    requires Conserved(s) && m in s.msgs && src in s.msgs && m != src && s.msgs[m].content == None
    ensures Conserved(s.(msgs := s.msgs[m := s.msgs[src]][src := Init()]))
  {
    var t := s.(msgs := s.msgs[m := s.msgs[src]][src := Init()]);
    Kinds(s);
    hide Conserved;
    if s.msgs[src].content.Some? {
      Counts(s, src, src);
      assert t.cells == s.cells[s.msgs[src].content.value := t.cells[s.msgs[src].content.value]];
      SpreadConserves(s, t, src, {m}, false);
    } else {
      OneContent(s, t, None);
    }
  }

  lemma CopyConserves(s: System, m: MsgId, src: MsgId)
    requires Conserved(s) && m in s.msgs && src in s.msgs && m != src && s.msgs[m].content == None
    ensures Conserved(Shared(s, src).(msgs := Shared(s, src).msgs[m := Share(s.msgs[src])]))
  {
    var t := Shared(s, src).(msgs := Shared(s, src).msgs[m := Share(s.msgs[src])]);
    Kinds(s);
    hide Conserved;
    if s.msgs[src].content.Some? {
      Counts(s, src, src);
      CellIs(s, src);
      hide Holders, CellOf;
      SpreadConserves(s, t, src, {m}, true);
    } else {
      OneContent(s, t, None);
    }
  }

  lemma ReinitConserves(s: System, m: MsgId)
    requires Conserved(s) && m in s.msgs && s.msgs[m].content == None
    ensures Conserved(s.(msgs := s.msgs[m := Init()]))
  {
    Kinds(s);
    hide Conserved;
    OneContent(s, s.(msgs := s.msgs[m := Init()]), None);
  }

  lemma PlainCopies(s: System, ids: set<MsgId>, h: Handle<CellId>)
    requires Conserved(s) && ids !! s.msgs.Keys && h.content == None && !Counted(h.kind)
    ensures Conserved(s.(msgs := WithCopies(s.msgs, ids, h)))
  {
    Kinds(s);
    hide Conserved;
    OneContent(s, s.(msgs := WithCopies(s.msgs, ids, h)), None);
  }

  lemma DistributedSpread(s: System, m: MsgId, accepted: set<MsgId>, failed: nat)
    requires m in s.msgs && Counted(s.msgs[m].kind) && s.msgs[m].content.Some? && s.msgs[m].content.value in s.cells
    requires accepted !! s.msgs.Keys && |accepted| + failed > 0
    ensures var t := Distributed(s, m, accepted, failed); var h := s.msgs[m];
            var n := |accepted| + failed - 1; var sent := AddRefs(h, n);
            && Spread(s, t, m, accepted, false) && (forall x | x in accepted :: x in t.msgs && t.msgs[x] == sent)
            && t.cells[h.content.value] == RmRefsCell(sent, AddRefsCell(h, CellOf(s, m), n), failed)
  {
    var h := s.msgs[m];
    var n := |accepted| + failed - 1;
    var sent := AddRefs(h, n);
    var cell := RmRefsCell(sent, AddRefsCell(h, CellOf(s, m), n), failed);
    AddRefsKeeps(h, n);
    CopiesSpread(s, m, accepted, sent, cell);
    assert accepted != {} || failed != 0;
    hide WithCopies, Spread, AddRefs, AddRefsCell, RmRefsCell, CellOf;
    assert Distributed(s, m, accepted, failed) == WithSent(s, m, accepted, sent, cell);
  }

  function WithSent(s: System, m: MsgId, accepted: set<MsgId>, sent: Handle<CellId>, cell: Cell): System {
    var t := WithCell(s, m, sent, cell); t.(msgs := WithCopies(t.msgs, accepted, sent)[m := Init()])
  }

  lemma CopiesSpread(s: System, m: MsgId, accepted: set<MsgId>, sent: Handle<CellId>, cell: Cell)
    requires m in s.msgs && s.msgs[m].content.Some? && s.msgs[m].content.value in s.cells && accepted !! s.msgs.Keys
    requires sent.kind == s.msgs[m].kind && sent.content == s.msgs[m].content
    ensures var t := WithSent(s, m, accepted, sent, cell);
            && Spread(s, t, m, accepted, false) && (forall x | x in accepted :: x in t.msgs && t.msgs[x] == sent)
            && t.cells[s.msgs[m].content.value] == cell
  {
  }

  lemma AddRefsKeeps(h: Handle<CellId>, n: nat)
    ensures AddRefs(h, n).kind == h.kind && AddRefs(h, n).content == h.content
  {
  }

  /** distribute takes one reference for every pipe, and gives back those of the pipes that refused. */
  lemma DistributedCounted(s: System, m: MsgId, accepted: set<MsgId>, failed: nat)
    requires Conserved(s) && Usable(s, m) && accepted !! s.msgs.Keys && Counted(s.msgs[m].kind) && |accepted| + failed > 0
    ensures Conserved(Distributed(s, m, accepted, failed))
  {
    Kinds(s);
    Counts(s, m, m);
    CellIs(s, m);
    DistributedCell(s.msgs[m], CellOf(s, m), |accepted|, failed);
    DistributedSpread(s, m, accepted, failed);
    hide Conserved, AddRefs, AddRefsCell, RmRefsCell, Users, CellOf, Spread, Distributed;
    SpreadConserves(s, Distributed(s, m, accepted, failed), m, accepted, false);
  }

  lemma DistributedPlain(s: System, m: MsgId, accepted: set<MsgId>, failed: nat)
    requires Conserved(s) && Usable(s, m) && accepted !! s.msgs.Keys && !Counted(s.msgs[m].kind) && |accepted| + failed > 0
    ensures Conserved(Distributed(s, m, accepted, failed))
  {
    var h := s.msgs[m];
    Kinds(s);
    PlainCopies(s, accepted, h);
    var copied := s.(msgs := WithCopies(s.msgs, accepted, h));
    hide Conserved;
    CloseConserves(copied, m);
    ReinitConserves(Closed(copied, m), m);
    ReinitConserves(copied, m);
    var n := |accepted| + failed - 1;
    assert WithCopies(s.msgs[m := h], accepted, h)[m := Init()] == copied.msgs[m := Init()];
  }

  lemma DistributeConserves(s: System, m: MsgId, accepted: set<MsgId>, failed: nat)
    requires Conserved(s) && Usable(s, m) && accepted !! s.msgs.Keys
    ensures Conserved(Distributed(s, m, accepted, failed))
  {
    if |accepted| + failed == 0 {
      assert accepted == {};
      CloseConserves(s, m);
      hide Conserved;
      ReinitConserves(Closed(s, m), m);
    } else if Counted(s.msgs[m].kind) {
      DistributedCounted(s, m, accepted, failed);
    } else {
      DistributedPlain(s, m, accepted, failed);
    }
  }

  lemma InitConserves(s: System, op: Op)
    requires Conserved(s) && Enabled(s, op) && (op.InitPlain? || op.InitCounted?)
    ensures Conserved(Step(s, op))
  {
    var t := Step(s, op);
    Kinds(s);
    if op.InitCounted? {
      assert forall x :: x in Holders(t, op.c) <==> x in t.msgs && t.msgs[x].content == Some(op.c);
      assert Holders(t, op.c) == {op.m};
      OneContent(s, t, Some(op.c));
    } else {
      OneContent(s, t, None);
    }
  }

  lemma StepConserves(s: System, op: Op)
    requires Conserved(s) && Enabled(s, op)
    ensures Conserved(Step(s, op))
  {
    hide Conserved;
    match op
    case InitPlain(m, kind) => InitConserves(s, op);
    case InitCounted(m, kind, c) => InitConserves(s, op);
    case Close(m) => CloseConserves(s, m);
    case Move(m, src) =>
      CloseConserves(s, m);
      TransferConserves(Closed(s, m), m, src);
    case Copy(m, src) =>
      CloseConserves(s, m);
      CopyConserves(Closed(s, m), m, src);
    case Distribute(m, accepted, failed) => DistributeConserves(s, m, accepted, failed);
  }

  function RunFrom(s: System, ops: seq<Op>): Option<System>
    decreases |ops|
  {
    if ops == [] then Some(s) else if !Enabled(s, ops[0]) then None else RunFrom(Step(s, ops[0]), ops[1..])
  }

  lemma {:induction false} RunConserves(s: System, ops: seq<Op>)
    requires Conserved(s)
    ensures RunFrom(s, ops).Some? ==> Conserved(RunFrom(s, ops).value)
    decreases |ops|
  {
    if ops != [] && Enabled(s, ops[0]) {
      StepConserves(s, ops[0]);
      RunConserves(Step(s, ops[0]), ops[1..]);
    }
  }

  /** Over every history of messages: no content is freed while a message holds it, every content without
      a holder was freed exactly once, and the counter of a shared content is the number of its holders. */
  lemma ContentsAreFreedOnce(ops: seq<Op>)
    requires RunFrom(System(map[], map[]), ops).Some?
    ensures var s := RunFrom(System(map[], map[]), ops).value;
            && (forall c | c in s.cells :: s.cells[c].frees == if Holders(s, c) == {} then 1 else 0)
            && (forall m | m in s.msgs && s.msgs[m].content.Some? ::
                  s.msgs[m].content.value in s.cells
                  && |Holders(s, s.msgs[m].content.value)| == if s.msgs[m].shared then s.cells[s.msgs[m].content.value].refcnt else 1)
  {
    RunConserves(System(map[], map[]), ops);
    var s := RunFrom(System(map[], map[]), ops).value;
    hide RunFrom;
    forall c | c in s.cells
      ensures s.cells[c].frees == if Holders(s, c) == {} then 1 else 0
    {
      assert CellOk(s, c);
    }
    forall m | m in s.msgs && s.msgs[m].content.Some?
      ensures s.msgs[m].content.value in s.cells
      ensures |Holders(s, s.msgs[m].content.value)| == if s.msgs[m].shared then s.cells[s.msgs[m].content.value].refcnt else 1
    {
      assert HandleOk(s, m);
    }
  }
}
