/** The reference counting of `msg.cpp`, on values.

    A `Handle` is one msg_t without metadata, a `Cell` the counter of the content it points to.  The
    counter only means something once the handle carries the shared flag. */
module MsgStep {
  import opened Options

  /** `Invalid` is a closed message; the others are the types of msg.hpp. */
  datatype Kind = Invalid | Vsm | Long | Delimiter | Const | ZeroCopy | Join | Leave

  datatype Handle<+C> = Handle(kind: Kind, shared: bool, more: bool, content: Option<C>)

  datatype Cell = Cell(refcnt: int, frees: nat)

  predicate Counted(k: Kind) {
    k.Long? || k.ZeroCopy?
  }

  function Init(): Handle {
    Handle(Vsm, false, false, None)
  }

  function Free(cell: Cell): Cell {
    cell.(frees := cell.frees + 1)
  }

  /** refcnt.sub, and the deallocation if it reached zero. */
  function Sub(cell: Cell, n: nat): Cell {
    var less := cell.(refcnt := cell.refcnt - n);
    if less.refcnt == 0 then Free(less) else less
  }

  /** What close does to the content. */
  function CloseCell(h: Handle, cell: Cell): Cell {
    if !Counted(h.kind) then cell else if !h.shared then Free(cell) else Sub(cell, 1)
  }

  function CloseHandle<C>(h: Handle<C>): Handle<C> {
    h.(kind := Invalid, content := None)
  }

  /** What being copied does to the source and its content. */
  function Share<C>(h: Handle<C>): Handle<C> {
    if Counted(h.kind) then h.(shared := true) else h
  }

  function CopyCell(h: Handle, cell: Cell): Cell {
    if !Counted(h.kind) then cell else if h.shared then cell.(refcnt := cell.refcnt + 1) else cell.(refcnt := 2)
  }

  function AddRefsCell(h: Handle, cell: Cell, n: nat): Cell {
    if n == 0 || !Counted(h.kind) then cell
    else if h.shared then cell.(refcnt := cell.refcnt + n) else cell.(refcnt := n + 1)
  }

  function AddRefs<C>(h: Handle<C>, n: nat): Handle<C> {
    if n == 0 then h else Share(h)
  }

  function RmRefsCell(h: Handle, cell: Cell, n: nat): Cell {
    if n == 0 then cell else if !Counted(h.kind) || !h.shared then CloseCell(h, cell) else Sub(cell, n)
  }

  /** rm_refs closes the handle only in the unshared case; the caller initialises it anyway. */
  function RmRefs<C>(h: Handle<C>, n: nat): Handle<C> {
    if n == 0 || (Counted(h.kind) && h.shared) then h else CloseHandle(h)
  }

  /** The number of handles that a content accounts for. */
  function Users(h: Handle, cell: Cell): int {
    if h.shared then cell.refcnt else 1
  }

  /** The counter after distribute: one user less for the message, one more for every pipe that took it. */
  lemma DistributedCell<C>(h: Handle<C>, cell: Cell, taken: nat, failed: nat)
    requires Counted(h.kind) && taken + failed > 0 && Users(h, cell) >= 1
    ensures var sent := AddRefs(h, taken + failed - 1);
            var after := RmRefsCell(sent, AddRefsCell(h, cell, taken + failed - 1), failed);
            var n := Users(h, cell) + taken - 1;
            && sent.kind == h.kind && sent.content == h.content
            && after.frees == cell.frees + (if n == 0 then 1 else 0)
            && (taken > 0 ==> Users(sent, after) == n) && (h.shared ==> after.refcnt == n)
  {
  }
}
