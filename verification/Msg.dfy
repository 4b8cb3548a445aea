/** The message of `msg.cpp`, updated in place; its content is shared with the copies of the message. */
module Msg {
  import opened Options
  import opened MsgStep
  import S = MsgStep

  /** The largest message that fits into the handle, with pointers of eight bytes. */
  const MAX_VSM_SIZE := 64 - (8 + 3 + 16 + 4)

  class ContentT {
    var refcnt: int
    var frees: nat

    ghost function Abs(): Cell
      reads this
    {
      Cell(refcnt, frees)
    }

    constructor ()
      ensures Abs() == Cell(0, 0)
    {
      refcnt, frees := 0, 0;
    }

    /** atomic_counter_t::sub: false if the counter dropped to zero. */
    method Sub(n: nat) returns (left: bool)
      modifies `refcnt
      ensures refcnt == old(refcnt) - n && left == (refcnt != 0)
    {
      refcnt := refcnt - n;
      left := refcnt != 0;
    }

    method Free()
      modifies `frees
      ensures frees == old(frees) + 1
    {
      frees := frees + 1;
    }
  }

  class MsgT {
    var kind: Kind
    var shared: bool
    var more: bool
    var content: Option<ContentT>

    ghost predicate Valid()
      reads this
    {
      Counted(kind) ==> content.Some?
    }

    ghost function Abs(): Handle<ContentT>
      reads this
    {
      Handle(kind, shared, more, content)
    }

    ghost function Contents(): set<ContentT>
      reads this
    {
      if content.Some? then {content.value} else {}
    }

    constructor ()
      ensures Valid() && Abs() == S.Init()
    {
      kind, shared, more, content := Vsm, false, false, None;
    }

    method Init()
      modifies this
      ensures Valid() && Abs() == S.Init()
    {
      kind, shared, more, content := Vsm, false, false, None;
    }

    /** init_size: a small message keeps its data in the handle, a larger one gets a content of its own. */
    method InitSize(size: nat)
      modifies this
      ensures Valid() && (size <= MAX_VSM_SIZE ==> Abs() == S.Init())
      ensures size > MAX_VSM_SIZE ==>
                Abs() == Handle(Long, false, false, content) && content.Some? && fresh(content.value) && content.value.Abs() == Cell(0, 0)
    {
      if size <= MAX_VSM_SIZE {
        Init();
      } else {
        var c := new ContentT();
        kind, shared, more, content := Long, false, false, Some(c);
      }
    }

    /** init_external_storage: the caller provides the content, which is counted from now on. */
    method InitExternalStorage(c: ContentT)
      modifies this, c`refcnt
      ensures Valid() && Abs() == Handle(ZeroCopy, false, false, Some(c)) && c.Abs() == old(c.Abs()).(refcnt := 0)
    {
      c.refcnt := 0;
      kind, shared, more, content := ZeroCopy, false, false, Some(c);
    }

    /** False stands for EFAULT. */
    method Close() returns (ok: bool)
      requires Valid()
      modifies this, Contents()
      ensures ok == (old(kind) != Invalid)
      ensures !ok ==> Abs() == old(Abs())
      ensures ok ==> Abs() == S.CloseHandle(old(Abs()))
      ensures old(content).Some? ==>
                old(content).value.Abs() == (if ok then S.CloseCell(old(Abs()), old(content.value.Abs())) else old(content.value.Abs()))
    {
      if kind == Invalid {
        return false;
      }
      if Counted(kind) {
        var last := !shared;
        if shared {
          var left := content.value.Sub(1);
          last := !left;
        }
        if last {
          content.value.Free();
        }
      }
      kind := Invalid;
      content := None;
      ok := true;
    }

    method Move(src: MsgT) returns (ok: bool)
      requires Valid() && src.Valid() && src != this
      modifies this, src, Contents()
      ensures ok == (old(src.kind) != Invalid && old(kind) != Invalid)
      ensures ok ==> Abs() == old(src.Abs()) && src.Abs() == S.Init()
      ensures !ok ==> src.Abs() == old(src.Abs()) && Abs() == old(Abs())
      ensures ok && old(content).Some? ==> old(content).value.Abs() == S.CloseCell(old(Abs()), old(content.value.Abs()))
    {
      if src.kind == Invalid {
        return false;
      }
      ok := Close();
      if !ok {
        return false;
      }
      kind, shared, more, content := src.kind, src.shared, src.more, src.content;
      src.Init();
    }

    /** The old content is released before the new one is counted; they may be the same. */
    method Copy(src: MsgT) returns (ok: bool)
      requires Valid() && src.Valid() && src != this
      modifies this, src, Contents(), src.Contents()
      ensures ok == (old(src.kind) != Invalid && old(kind) != Invalid)
      ensures !ok ==> src.Abs() == old(src.Abs()) && Abs() == old(Abs())
      ensures ok ==> src.Abs() == S.Share(old(src.Abs())) && Abs() == src.Abs()
      ensures ok && old(src.content).Some? ==>
                var was := old(src.content.value.Abs());
                src.content.value.Abs() == S.CopyCell(old(src.Abs()), if old(content) == old(src.content) then S.CloseCell(old(Abs()), was) else was)
      ensures ok && old(content).Some? && old(content) != old(src.content) ==>
                old(content).value.Abs() == S.CloseCell(old(Abs()), old(content.value.Abs()))
    {
      if src.kind == Invalid {
        return false;
      }
      ok := Close();
      if !ok {
        return false;
      }
      if Counted(src.kind) {
        if src.shared {
          src.content.value.refcnt := src.content.value.refcnt + 1;
        } else {
          src.shared := true;
          src.content.value.refcnt := 2;
        }
      }
      kind, shared, more, content := src.kind, src.shared, src.more, src.content;
    }

    method AddRefs(refs: nat)
      requires Valid()
      modifies this`shared, Contents()
      ensures Valid() && Abs() == S.AddRefs(old(Abs()), refs)
      ensures content.Some? ==> content.value.Abs() == S.AddRefsCell(old(Abs()), old(content.value.Abs()), refs)
    {
      if refs == 0 {
        return;
      }
      if Counted(kind) {
        if shared {
          content.value.refcnt := content.value.refcnt + refs;
        } else {
          content.value.refcnt := refs + 1;
          shared := true;
        }
      }
    }

    /** False if no reference is left, or if there was only the message itself. */
    method RmRefs(refs: nat) returns (left: bool)
      requires Valid() && kind != Invalid
      modifies this, Contents()
      ensures Abs() == S.RmRefs(old(Abs()), refs)
      ensures old(content).Some? ==> old(content).value.Abs() == S.RmRefsCell(old(Abs()), old(content.value.Abs()), refs)
      ensures left == (refs == 0 || (old(Counted(kind) && shared) && old(content).value.refcnt != 0))
    {
      if refs == 0 {
        return true;
      }
      if !Counted(kind) || !shared {
        var ok := Close();
        return false;
      }
      left := content.value.Sub(refs);
      if !left {
        content.value.Free();
      }
    }
  }
}
