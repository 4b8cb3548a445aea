/** The multi-trie node of `mtrie.cpp`, updated in place.

    A node keeps its children as nothing, as one pointer or as a table.  `model` is the value that the
    node stands for; every method is proved against the function of `MtrieStep` with the same name. */
module Mtrie {
  import opened Bytes
  import opened Options
  import opened MtrieStep
  import opened MtrieTable
  import opened MtrieRelation
  import opened MtrieCalls
  import opened MtrieLevels
  import S = MtrieStep

  /** The buffer that rm(pipe) shares between all levels of its recursion. */
  class Buffer {
    var data: seq<Byte>

    constructor ()
      ensures data == []
    {
      data := [];
    }

    method Realloc(size: nat)
      modifies this
      ensures |data| == size
      ensures forall i | 0 <= i < size && i < |old(data)| :: data[i] == old(data)[i]
    {
      if size <= |data| {
        data := data[..size];
      } else {
        data := data + seq(size - |data|, i => 0);
      }
    }
  }

  class MTrie {
    var pipes: Option<set<Pipe>>
    var min: Byte
    var count: nat
    var live: int
    var node: MTrie?
    var table: seq<MTrie?>
    ghost var model: Trie
    ghost var Repr: set<object>

    ghost function Slots(): seq<MTrie?>
      reads `count, `node, `table
    {
      if count == 0 then [] else if count == 1 then [node] else table
    }

    /** `k` is null where the model has no child, and otherwise a subtrie apart from `parent` that stands for the child. */
    static ghost predicate Stands(k: MTrie?, m: Option<Trie>, parent: MTrie)
      reads k, if k == null then {} else k.Repr
      decreases if k == null then {} else k.Repr, 1
    {
      if k == null then m == None else parent !in k.Repr && m == Some(k.model) && k.Valid()
    }

    ghost predicate Inside(k: MTrie?)
      reads this, k
    {
      k != null ==> k in Repr && k in k.Repr && k.Repr <= Repr && this !in k.Repr
    }

    static ghost predicate Apart(s: seq<MTrie?>)
      reads s
    {
      forall i, j | 0 <= i < j < |s| && s[i] != null && s[j] != null :: s[i].Repr !! s[j].Repr
    }

    ghost predicate Shape()
      reads this
    {
      this in Repr && |Slots()| == count && |model.slots| == count && model == Trie(pipes, min, live, model.slots)
    }

    ghost predicate Valid()
      reads this, Repr
      decreases Repr, 0
    {
      && Shape()
      && (forall k | k in Slots() && k != null :: k in Repr)
      && (forall i {:trigger Inside(Slots()[i])} | 0 <= i < count :: Inside(Slots()[i]))
      && (forall i {:trigger model.slots[i]} | 0 <= i < count :: Inside(Slots()[i]) && Stands(Slots()[i], model.slots[i], this))
      && Apart(Slots())
    }

    lemma Unfold()
      requires Valid()
      ensures Shape() && Apart(Slots())
      ensures forall i {:trigger Slots()[i]} | 0 <= i < count :: Inside(Slots()[i]) && Stands(Slots()[i], model.slots[i], this)
      ensures forall i {:trigger Slots()[i]} | 0 <= i < count ::
                model.slots[i] == if Slots()[i] == null then None else Some(Slots()[i].model)
    {
    }

    static lemma Standing(k: MTrie, parent: MTrie)
      ensures parent !in k.Repr && k.Valid() <==> Stands(k, Some(k.model), parent)
      ensures k.Valid() ==> k in k.Repr
    {
    }

    lemma Fold()
      requires Shape() && Apart(Slots())
      requires forall i {:trigger Slots()[i]} | 0 <= i < count :: Inside(Slots()[i]) && Stands(Slots()[i], model.slots[i], this)
      ensures Valid()
    {
    }

    /** The slots of the node are those of `slots`, moved by `d`, or null. */
    lemma Reslot(slots: seq<MTrie?>, ms: seq<Option<Trie>>, d: int)
      requires |slots| == |ms| && Shape() && Apart(slots)
      requires forall i {:trigger slots[i]} | 0 <= i < |slots| :: Inside(slots[i]) && Stands(slots[i], ms[i], this)
      requires forall i {:trigger Slots()[i]} | 0 <= i < count ::
                 || (Slots()[i] == null && model.slots[i] == None)
                 || (0 <= i - d < |slots| && Slots()[i] == slots[i - d] && model.slots[i] == ms[i - d])
      ensures Valid()
    {
      assert Stands(null, None, this);
      hide Stands;
    }

    constructor ()
      ensures Valid() && model == S.Empty() && Repr == {this}
    {
      pipes, min, count, live, node, table := None, 0, 0, 0, null, [];
      model := S.Empty();
      Repr := {this};
    }

    predicate IsRedundant()
      reads this
    {
      pipes == None && live == 0
    }

    method NullTable(n: nat) returns (t: seq<MTrie?>)
      ensures |t| == n && forall i | 0 <= i < n :: t[i] == null
    {
      t := [];
      while |t| < n
        invariant |t| <= n && forall i | 0 <= i < |t| :: t[i] == null
      {
        t := t + [null];
      }
    }

    /** Extends the table so that it covers `c`: a single child becomes a table, a table is reallocated. */
    method GrowTable(c: Byte)
      requires |Slots()| == count && !(min <= c < min + count)
      modifies `min, `count, `node, `table
      ensures |Slots()| == count
      ensures old(count) == 0 ==> min == c && Slots() == [null]
      ensures old(count) > 0 && old(min) < c ==>
                min == old(min) && count == c - min + 1 && count > old(count)
                && forall i | 0 <= i < count :: Slots()[i] == if i < old(count) then old(Slots())[i] else null
      ensures old(count) > 0 && c < old(min) ==>
                min == c && count == old(min) - c + old(count)
                && forall i | 0 <= i < count :: Slots()[i] == if i < old(min) - c then null else old(Slots())[i - (old(min) - c)]
    {
      if count == 0 {
        min := c;
        count := 1;
        node := null;
      } else if count == 1 {
        var oldc, oldp := min, node;
        count := (if min < c then c - min else min - c) + 1;
        table := NullTable(count);
        min := if c < min then c else min;
        table := table[oldc - min := oldp];
      } else if min < c {
        var oldCount := count;
        count := c - min + 1;
        var rest := NullTable(count - oldCount);
        table := table + rest;
      } else {
        var oldCount := count;
        count := min + oldCount - c;
        var rest := NullTable(min - c);
        table := rest + table;
        min := c;
      }
    }

    method Grow(c: Byte)
      requires Valid() && !(min <= c < min + count)
      modifies this
      ensures Valid() && model == S.Grow(old(model), c) && Repr == old(Repr) && min <= c < min + count
    {
      hide Valid, Stands, Apart, Slots;
      Unfold();
      ghost var slots, ms := Slots(), model.slots;
      assert forall k | k in slots && k != null :: k != this;
      ghost var d := if count > 0 && c < min then min - c else 0;
      GrowTable(c);
      assert Apart(slots);
      model := S.Grow(model, c);
      Reslot(slots, ms, d);
    }

    /** Creates the child of `c` if there is none. */
    method Ensure(c: Byte)
      requires Valid() && min <= c < min + count
      modifies this
      ensures Valid() && fresh(Repr - old(Repr)) && Repr >= old(Repr)
      ensures min == old(min) && count == old(count) && Slots()[c - min] != null
      ensures model == Ensured(old(model), c)
    {
      hide Valid, Stands, Apart;
      Unfold();
      ghost var slots, ms := Slots(), model.slots;
      if (if count == 1 then node else table[c - min]) == null {
        assert slots[c - min] == null;
        var child := new MTrie();
        if count == 1 {
          node := child;
        } else {
          table := table[c - min := child];
        }
        live := live + 1;
        model := Ensured(model, c);
        Repr := Repr + {child};
        assert Slots() == slots[c - min := child];
        Standing(child, this);
        Fold();
      } else {
        Fold();
      }
    }

    /** A child was changed below its own footprint. */
    lemma Refold(i: nat)
      requires Shape() && Apart(Slots()) && i < count && Slots()[i] != null && Inside(Slots()[i])
      requires Slots()[i].Valid() && model.slots[i] == Some(Slots()[i].model)
      requires forall j {:trigger Slots()[j]} | 0 <= j < count && j != i :: Inside(Slots()[j]) && Stands(Slots()[j], model.slots[j], this)
      ensures Valid()
    {
      Standing(Slots()[i], this);
      Fold();
    }

    method AddHere(pipe: Pipe) returns (isNew: bool)
      requires Valid()
      modifies `pipes, `model
      ensures Valid() && isNew == old(model).pipes.None?
      ensures model == old(model).(pipes := Some((if old(model).pipes.Some? then old(model).pipes.value else {}) + {pipe}))
    {
      hide Valid, Stands, Apart;
      Unfold();
      isNew := pipes == None;
      if pipes == None {
        pipes := Some({});
      }
      pipes := Some(pipes.value + {pipe});
      model := model.(pipes := pipes);
      Fold();
    }

    method AddHelper(prefix: Prefix, pipe: Pipe) returns (isNew: bool)
      requires Valid()
      modifies Repr
      ensures Valid() && fresh(Repr - old(Repr)) && Repr >= old(Repr)
      ensures model == S.Add(old(model), prefix, pipe) && isNew == IsNew(old(model), prefix)
      decreases |prefix|, 0
    {
      hide Valid, Stands, Apart, S.Add, IsNew, Ensured, S.Grow;
      if |prefix| == 0 {
        Unfold();
        AddEmpty(model, pipe);
        isNew := AddHere(pipe);
        return;
      }
      var c := prefix[0];
      AddStep(model, prefix, pipe);
      Unfold();
      if c < min || c >= min + count {
        Grow(c);
      }
      Ensure(c);
      Unfold();
      isNew := AddBelow(c, prefix[1..], pipe);
    }

    /** The recursive call. */
    method AddBelow(c: Byte, rest: Prefix, pipe: Pipe) returns (isNew: bool)
      requires Valid() && min <= c < min + count && |model.slots| == count && model.min == min && model.slots[c - min].Some?
      modifies Repr
      ensures Valid() && fresh(Repr - old(Repr)) && Repr >= old(Repr)
      ensures var i := c - old(min); var was := old(model).slots[i].value;
              && model == old(model).(slots := old(model).slots[i := Some(S.Add(was, rest, pipe))])
              && isNew == IsNew(was, rest)
      decreases |rest|, 1
    {
      hide Valid, Stands, Apart, S.Add, IsNew;
      Unfold();
      ghost var i := c - min;
      var child := if count == 1 then node else table[c - min];
      assert child == Slots()[i] && Inside(child);
      Standing(child, this);
      isNew := child.AddHelper(rest, pipe);
      model := model.(slots := model.slots[i := Some(child.model)]);
      Repr := Repr + child.Repr;
      Refold(i);
    }

    // rm(prefix)

    /** Compacts a table after the child of `c` was deleted; returns where the live children begin and end. */
    method CompactTable(c: Byte, ghost ms: seq<Option<Trie>>) returns (ghost a: nat, ghost b: nat)
      requires count > 1 && |table| == count == |ms| && min + count <= 256 && live == Live(ms) > 0
      requires forall i | 0 <= i < count :: table[i] == null <==> ms[i] == None
      requires min <= c < min + count && ms[c - min] == None
      requires (c == min || ms[0].Some?) && (c == min + count - 1 || ms[count - 1].Some?)
      modifies `min, `count, `node, `table
      ensures a <= b < |ms| && ms[a].Some? && ms[b].Some? && forall i | 0 <= i < |ms| && !(a <= i <= b) :: ms[i] == None
      ensures min == old(min) + a && count == b - a + 1 && |Slots()| == count
      ensures forall i | 0 <= i < count :: Slots()[i] == old(table)[a + i]
    {
      NoLive(ms);
      var i: nat;
      a, b := 0, count - 1;
      if live == 1 {
        i := 0;
        while i < count && table[i] == null
          invariant i <= count && forall j | 0 <= j < i :: table[j] == null
        {
          i := i + 1;
        }
        assert i < count;
        OneLive(ms, i);
        a, b := i, i;
        min := min + i;
        count := 1;
        node := table[i];
      } else if c == min {
        i := 1;
        while i < count && table[i] == null
          invariant i <= count && forall j | 0 <= j < i :: table[j] == null
        {
          i := i + 1;
        }
        assert i < count;
        OneLive(ms, count - 1);
        a := i;
        min := min + i;
        count := count - i;
        table := table[i..];
      } else if c == min + count - 1 {
        i := 1;
        while i < count && table[count - 1 - i] == null
          invariant i <= count && forall j | count - i <= j < count :: table[j] == null
        {
          i := i + 1;
        }
        assert i < count;
        OneLive(ms, 0);
        b := count - 1 - i;
        count := count - i;
        table := table[..count];
      }
    }

    ghost predicate Tight()
      reads this
    {
      && model.min + |model.slots| <= 256 && model.live == Live(model.slots)
      && (model.slots != [] ==> model.slots[0].Some? && model.slots[|model.slots| - 1].Some?)
    }

    /** What deleting the child of `c` leaves in the model. */
    ghost function Cut(c: Byte): Trie
      requires Tight() && model.min <= c < model.min + |model.slots|
      reads this
    {
      S.Trim(model.(slots := model.slots[c - model.min := None], live := model.live - 1))
    }

    /** Clears the slot of `c` in a table and compacts; slot `i` is then what was in slot `a + i`. */
    method ClearEntry(c: Byte) returns (ghost a: nat, ghost b: nat)
      requires Tight() && Shape() && count > 1 && min <= c < min + count && model.slots[c - min].Some?
      requires forall i {:trigger table[i]} | 0 <= i < count :: table[i] == null <==> model.slots[i] == None
      modifies `min, `count, `node, `table, `live
      ensures var ms := model.slots[c - old(min) := None];
              a <= b < |ms| && ms[a].Some? && ms[b].Some? && forall i | 0 <= i < |ms| && !(a <= i <= b) :: ms[i] == None
      ensures min == old(min) + a && count == b - a + 1 && |Slots()| == count && live == old(live) - 1
      ensures forall i | 0 <= i < count :: Slots()[i] == if a + i == c - old(min) then null else old(table)[a + i]
    {
      hide Live;
      LiveUpdate(model.slots, c - min, None);
      TwoLive(model.slots);
      table := table[c - min := null];
      assert live > 1;
      live := live - 1;
      a, b := CompactTable(c, model.slots[c - min := None]);
    }

    lemma CutIs(c: Byte)
      requires Tight() && model.min <= c < model.min + |model.slots|
      ensures Cut(c) == S.Trim(model.(slots := model.slots[c - model.min := None], live := model.live - 1))
    {
    }

    /** Deletes the redundant child of `c`. */
    method ClearNode(c: Byte)
      requires Tight() && Shape() && count == 1 && c == min && model.slots[0].Some?
      modifies `count, `node, `live
      ensures count == 0 && old(Cut(c)) == Trie(pipes, min, live, [])
    {
      ghost var ms := model.slots[0 := None];
      LiveUpdate(model.slots, 0, None);
      NoLive(ms);
      TrimEmpty(model.(slots := ms, live := model.live - 1));
      node := null;
      count := 0;
      live := live - 1;
      assert live == 0;
    }

    lemma SlotsAreTable()
      ensures count > 1 ==> Slots() == table
    {
    }

    method UnlinkEntry(c: Byte)
      requires Valid() && Tight() && count > 1 && min <= c < min + count && count == |model.slots| && model.min == min
      requires model.slots[c - min].Some?
      modifies this
      ensures Valid() && Repr == old(Repr) && model == old(Cut(c))
    {
      hide Valid, Stands, Apart, Cut, S.Trim, Live, Slots;
      CutIs(c);
      SlotsAreTable();
      Unfold();
      ghost var slots, ms, cut := Slots(), model.slots, Cut(c);
      ghost var after := model.(slots := ms[c - min := None], live := live - 1);
      assert forall k | k in slots && k != null :: k != this;
      ghost var a, b := ClearEntry(c);
      assert Apart(slots);
      TrimIs(after, a, b);
      model := cut;
      Reslot(slots, ms, -(a as int));
    }

    method Unlink(c: Byte)
      requires Valid() && Tight() && min <= c < min + count && count == |model.slots| && model.min == min
      requires model.slots[c - min].Some?
      modifies this
      ensures Valid() && Repr == old(Repr) && model == old(Cut(c))
    {
      hide Valid, Stands, Apart, Cut;
      if count == 1 {
        Unfold();
        ghost var cut := Cut(c);
        ClearNode(c);
        model := cut;
        Fold();
      } else {
        UnlinkEntry(c);
      }
    }

    method RmHere(pipe: Pipe) returns (gone: bool)
      requires Valid() && (model.pipes.Some? ==> pipe in model.pipes.value)
      modifies `pipes, `model
      ensures Valid() && model == old(model).(pipes := Without(old(model).pipes, pipe)) && gone == model.pipes.None?
    {
      hide Valid, Stands, Apart;
      Unfold();
      if pipes.Some? {
        assert pipe in pipes.value;
        pipes := Some(pipes.value - {pipe});
        if pipes.value == {} {
          pipes := None;
        }
      }
      model := model.(pipes := pipes);
      Fold();
      gone := pipes == None;
    }

    method RmHelper(prefix: Prefix, pipe: Pipe) returns (gone: bool)
      requires Valid() && WellFormed(model) && MayRemove(model, prefix, pipe)
      modifies Repr
      ensures Valid() && Repr == old(Repr) && model == S.Rm(old(model), prefix, pipe) && gone == IsGone(old(model), prefix, pipe)
      decreases |prefix|, 0
    {
      hide Valid, Stands, Apart, WellFormed, MayRemove, IsGone, S.Rm, Cut;
      Unfold();
      if |prefix| == 0 {
        RmEmpty(model, pipe);
        gone := RmHere(pipe);
        return;
      }
      var c := prefix[0];
      RmStep(model, prefix, pipe);
      if count == 0 || c < min || c >= min + count {
        return false;
      }
      var next := if count == 1 then node else table[c - min];
      assert next == Slots()[c - min];
      if next == null {
        return false;
      }
      gone := RmBelow(c, prefix[1..], pipe);
      Unfold();
      CutIs(c);
      PruneBelow(c, next);
    }

    /** Deletes the child of `c` if it was made redundant. */
    method PruneBelow(c: Byte, next: MTrie)
      requires Valid() && Tight() && min <= c < min + count && count == |model.slots| && model.min == min && next == Slots()[c - min]
      requires model.slots[c - min].Some?
      modifies this
      ensures Valid() && Repr == old(Repr)
      ensures model == if Redundant(old(model).slots[c - old(min)].value) then old(Cut(c)) else old(model)
    {
      hide Valid, Stands, Apart, Cut;
      Unfold();
      Standing(next, this);
      next.Unfold();
      if next.IsRedundant() {
        Unlink(c);
      }
    }

    /** The recursive call. */
    method RmBelow(c: Byte, rest: Prefix, pipe: Pipe) returns (gone: bool)
      requires Valid() && min <= c < min + count && |model.slots| == count && model.min == min && model.slots[c - min].Some?
      requires WellFormed(model.slots[c - min].value) && MayRemove(model.slots[c - min].value, rest, pipe)
      modifies Repr
      ensures Valid() && Repr == old(Repr) && unchanged(`count, `min, `node, `table)
      ensures var i := c - old(min); var was := old(model).slots[i].value;
              && model == old(model).(slots := old(model).slots[i := Some(S.Rm(was, rest, pipe))])
              && gone == IsGone(was, rest, pipe)
      decreases |rest|, 1
    {
      hide Valid, Stands, Apart, WellFormed, MayRemove, IsGone, S.Rm;
      Unfold();
      ghost var i := c - min;
      var child := if count == 1 then node else table[c - min];
      assert child == Slots()[i] && Inside(child);
      Standing(child, this);
      gone := child.RmHelper(rest, pipe);
      model := model.(slots := model.slots[i := Some(child.model)]);
      Refold(i);
    }

    // rm(pipe)

    /** Removes the pipe from this node and reports the node if asked to. */
    method RmReport(pipe: Pipe, path: Prefix, uniq: bool) returns (calls: seq<Prefix>)
      requires Valid() && (model.pipes.Some? ==> model.pipes.value != {})
      modifies `pipes, `model
      ensures Valid() && model == old(model).(pipes := Without(old(model).pipes, pipe))
      ensures calls == if Reports(old(model), pipe, uniq) then [path] else []
    {
      hide Valid, Stands, Apart;
      Unfold();
      calls := [];
      assert pipes.Some? && pipe !in pipes.value ==> pipes.value - {pipe} == pipes.value;
      if pipes.Some? && pipe in pipes.value {
        pipes := Some(pipes.value - {pipe});
        if !uniq || pipes.value == {} {
          calls := [path];
        }
        if pipes.value == {} {
          pipes := None;
        }
      }
      assert pipes == Without(model.pipes, pipe);
      model := model.(pipes := pipes);
      Fold();
    }

    /** The buffer always has room for one more character: `maxbuffsize` is what this level knows about it. */
    method RmPipeHelper(pipe: Pipe, buff: Buffer, buffsize: nat, maxbuffsize: nat, uniq: bool) returns (calls: seq<Prefix>)
      requires Valid() && WellFormed(model) && buff !in Repr && buffsize <= maxbuffsize <= |buff.data|
      modifies Repr, buff
      ensures Valid() && Repr == old(Repr) && model == S.RmPipe(old(model), pipe)
      ensures calls == S.Calls(old(model), pipe, uniq, old(buff.data)[..buffsize])
      ensures |buff.data| >= maxbuffsize && buff.data[..buffsize] == old(buff.data)[..buffsize]
      decreases Repr, 3
    {
      hide Valid, Stands, Apart, WellFormed, S.RmPipe, S.Calls, Reports, Without;
      Unfold();
      RmPipeLevel(model, pipe, uniq, buff.data[..buffsize]);
      calls := RmReport(pipe, buff.data[..buffsize], uniq);
      var room := maxbuffsize;
      if buffsize >= room {
        room := buffsize + 256;
        buff.Realloc(room);
      }
      assert buff.data[..buffsize] == old(buff.data)[..buffsize];
      Unfold();
      if count == 0 {
        return;
      }
      var more;
      if count == 1 {
        more := RmOnly(pipe, buff, buffsize, room, uniq);
      } else {
        more := RmTable(pipe, buff, buffsize, room, uniq);
      }
      calls := calls + more;
    }

    /** The recursion into the child in slot `i`; prunes the child if that made it redundant. */
    method RmSlot(i: nat, pipe: Pipe, buff: Buffer, buffsize: nat, room: nat, uniq: bool) returns (calls: seq<Prefix>, kept: bool)
      requires Valid() && buff !in Repr && buffsize < room <= |buff.data|
      requires i < count == |model.slots| && min + i < 256 && model.slots[i].Some? && WellFormed(model.slots[i].value)
      requires buff.data[buffsize] == min + i && live == Live(model.slots)
      modifies Repr, buff
      ensures Valid() && Repr == old(Repr) && unchanged(`count, `min, `pipes)
      ensures var child := S.RmPipe(old(model).slots[i].value, pipe);
              && kept == !Redundant(child)
              && model == old(model).(slots := old(model).slots[i := Prune(child)], live := Live(model.slots))
      ensures calls == S.Calls(old(model).slots[i].value, pipe, uniq, old(buff.data)[..buffsize] + [min + i])
      ensures |buff.data| >= room && buff.data[..buffsize] == old(buff.data)[..buffsize]
      decreases Repr, 0
    {
      hide Valid, Stands, Apart, WellFormed, S.RmPipe, S.Calls, Live;
      Unfold();
      ghost var ms := model.slots;
      assert buff.data[..buffsize + 1] == buff.data[..buffsize] + [min + i];
      assert buff.data[..buffsize + 1][..buffsize] == buff.data[..buffsize];
      LiveUpdate(model.slots, i, Some(S.RmPipe(model.slots[i].value, pipe)));
      LiveUpdate(model.slots, i, None);
      var child := if count == 1 then node else table[i];
      assert child == Slots()[i] && Inside(child);
      Standing(child, this);
      calls := child.RmPipeHelper(pipe, buff, buffsize + 1, room, uniq);
      assert buff.data[..buffsize] == buff.data[..buffsize + 1][..buffsize];
      model := model.(slots := model.slots[i := Some(child.model)]);
      Refold(i);
      Unfold();
      child.Unfold();
      kept := !child.IsRedundant();
      if !kept {
        DropSlot(i);
        assert ms[i := Some(child.model)][i := None] == ms[i := None];
      }
    }

    /** Deletes the child in slot `i`, leaving a hole. */
    method DropSlot(i: nat)
      requires Valid() && i < count == |model.slots| && live > 0
      modifies this
      ensures Valid() && Repr == old(Repr) && unchanged(`count, `min, `pipes)
      ensures model == old(model).(slots := old(model).slots[i := None], live := old(live) - 1)
    {
      hide Valid, Stands, Apart;
      Unfold();
      ghost var slots, ms := Slots(), model.slots;
      assert forall k | k in slots && k != null :: k != this;
      if count == 1 {
        node := null;
      } else {
        table := table[i := null];
      }
      live := live - 1;
      assert Slots() == slots[i := null];
      assert Apart(slots);
      model := model.(slots := ms[i := None], live := live);
      Reslot(slots, ms, 0);
    }

    /** A node with a single child. */
    method RmOnly(pipe: Pipe, buff: Buffer, buffsize: nat, room: nat, uniq: bool) returns (calls: seq<Prefix>)
      requires Valid() && WellFormed(model) && count == 1 && buff !in Repr && buffsize < room <= |buff.data|
      requires model.pipes == Without(model.pipes, pipe)
      modifies Repr, buff
      ensures Valid() && Repr == old(Repr) && model == S.RmPipe(old(model), pipe)
      ensures calls == S.SlotCalls(old(model), pipe, uniq, old(buff.data)[..buffsize], |old(model).slots|)
      ensures |buff.data| >= room && buff.data[..buffsize] == old(buff.data)[..buffsize]
      decreases Repr, 1
    {
      hide Valid, Stands, Apart, WellFormed, S.RmPipe, S.Calls, Live, Without;
      Unfold();
      RmOneChild(model, pipe, uniq, buff.data[..buffsize]);
      buff.data := buff.data[buffsize := min];
      assert buff.data[..buffsize] == old(buff.data)[..buffsize];
      var kept;
      calls, kept := RmSlot(0, pipe, buff, buffsize, room, uniq);
      assert model.slots == [Prune(S.RmPipe(old(model).slots[0].value, pipe))];
      Unfold();
      if !kept {
        count := 0;
        assert live == 0;
        model := model.(slots := []);
        Fold();
      }
    }

    /** Cuts a table down to the range of its live children. */
    method CutTable(newMin: Byte, newMax: Byte, ghost ms: seq<Option<Trie>>)
      requires count > 1 && |table| == count == |ms| && min + count <= 256 && live == Live(ms)
      requires forall i | 0 <= i < count :: table[i] == null <==> ms[i] == None
      requires live > 0 ==> SpansLive(ms, newMin - min, newMax - min)
      modifies `min, `count, `node, `table
      ensures |Slots()| == count
      ensures live == 0 ==> count == 0 && min == old(min)
      ensures live > 0 ==> min == newMin && count == newMax - newMin + 1
      ensures forall i | 0 <= i < count :: Slots()[i] == old(table)[newMin - old(min) + i]
    {
      if live == 0 {
        table := [];
        count := 0;
      } else if live == 1 {
        OneLive(ms, newMin - min);
        assert newMin == newMax;
        var only := table[newMin - min];
        assert only != null;
        node := only;
        count := 1;
        min := newMin;
      } else if newMin > min || newMax < min + count - 1 {
        OneLive(ms, newMin - min);
        assert newMax - newMin + 1 > 1;
        assert newMax - newMin + 1 < count;
        table := table[newMin - min..newMax - min + 1];
        count := newMax - newMin + 1;
        min := newMin;
      }
    }

    method Compact(newMin: Byte, newMax: Byte)
      requires Valid() && count > 1 && count == |model.slots| && min == model.min && min + count <= 256 && live == Live(model.slots)
      requires live > 0 ==> SpansLive(model.slots, newMin - min, newMax - min)
      modifies this
      ensures Valid() && Repr == old(Repr) && model == S.Trim(old(model))
    {
      hide Valid, Stands, Apart, S.Trim, Live, Slots, WellFormed, SpansLive;
      SlotsAreTable();
      Unfold();
      ghost var slots, ms, was := Slots(), model.slots, model;
      assert forall k | k in slots && k != null :: k != this;
      TrimSpan(was, newMin - min, newMax - min);
      ghost var d := newMin - min;
      CutTable(newMin, newMax, ms);
      assert Apart(slots);
      model := S.Trim(was);
      Reslot(slots, ms, -d);
    }

    /** The first `c` slots of the table of `t` have been dealt with. */
    ghost predicate Partway(t: Trie, pipe: Pipe, c: nat, newMin: Byte, newMax: Byte)
      requires WellFormed(t)
      reads this
    {
      && 1 < count == |t.slots| && min == t.min && c <= count
      && model == Trie(t.pipes, t.min, Live(model.slots), S.RmSlots(t, pipe, c) + t.slots[c..])
      && Bounds(model.slots, c, newMin - min, newMax - min)
    }

    /** One iteration of the loop over the table. */
    method RmEntry(ghost t: Trie, c: nat, pipe: Pipe, buff: Buffer, buffsize: nat, room: nat, uniq: bool, min0: Byte, max0: Byte)
      returns (calls: seq<Prefix>, newMin: Byte, newMax: Byte)
      requires Valid() && WellFormed(t) && Partway(t, pipe, c, min0, max0) && c < count
      requires buff !in Repr && buffsize < room <= |buff.data|
      modifies Repr, buff
      ensures Valid() && Repr == old(Repr) && Partway(t, pipe, c + 1, newMin, newMax) && count == old(count)
      ensures S.SlotCalls(t, pipe, uniq, old(buff.data)[..buffsize], c) + calls == S.SlotCalls(t, pipe, uniq, old(buff.data)[..buffsize], c + 1)
      ensures |buff.data| >= room && buff.data[..buffsize] == old(buff.data)[..buffsize]
      decreases Repr, 1
    {
      hide Valid, Stands, Apart, WellFormed, S.RmPipe, S.Calls, S.SlotCalls, S.RmSlots, Live, Bounds;
      Unfold();
      ghost var path := buff.data[..buffsize];
      RmTableStep(t, pipe, uniq, path, c);
      WellFormedFacts(t);
      newMin, newMax, calls := min0, max0, [];
      buff.data := buff.data[buffsize := min + c];
      assert buff.data[..buffsize] == path;
      ghost var v := if t.slots[c].Some? then Prune(S.RmPipe(t.slots[c].value, pipe)) else None;
      BoundsStep(model.slots, c, newMin - min, newMax - min, v);
      assert Slots()[c] == table[c];
      if table[c] != null {
        var kept;
        calls, kept := RmSlot(c, pipe, buff, buffsize, room, uniq);
        if kept {
          if c + min < newMin {
            newMin := c + min;
          }
          if c + min > newMax {
            newMax := c + min;
          }
        }
      } else {
        assert model.slots == model.slots[c := None];
      }
    }

    /** A node with a table. */
    method RmTable(pipe: Pipe, buff: Buffer, buffsize: nat, room: nat, uniq: bool) returns (calls: seq<Prefix>)
      requires Valid() && WellFormed(model) && count > 1 && buff !in Repr && buffsize < room <= |buff.data|
      requires model.pipes == Without(model.pipes, pipe)
      modifies Repr, buff
      ensures Valid() && Repr == old(Repr) && model == S.RmPipe(old(model), pipe)
      ensures calls == S.SlotCalls(old(model), pipe, uniq, old(buff.data)[..buffsize], |old(model).slots|)
      ensures |buff.data| >= room && buff.data[..buffsize] == old(buff.data)[..buffsize]
      decreases Repr, 2
    {
      hide *;
      StartPartway(pipe, uniq, buff.data[..buffsize]);
      ghost var t, path := model, buff.data[..buffsize];
      var newMin: Byte, newMax: Byte := min + count - 1, min;
      var c := 0;
      calls := [];
      while c != count
        invariant c <= |t.slots| == count && Valid() && Repr == old(Repr) && Partway(t, pipe, c, newMin, newMax)
        invariant calls == S.SlotCalls(t, pipe, uniq, path, c)
        invariant |buff.data| >= room && buff.data[..buffsize] == path
        decreases |t.slots| - c
      {
        var more;
        more, newMin, newMax := RmEntry(t, c, pipe, buff, buffsize, room, uniq, newMin, newMax);
        calls := calls + more;
        c := c + 1;
      }
      FinishTable(t, pipe, newMin, newMax);
    }

    /** What is left after the loop over the table. */
    method FinishTable(ghost t: Trie, pipe: Pipe, newMin: Byte, newMax: Byte)
      requires Valid() && WellFormed(t) && t.pipes == Without(t.pipes, pipe) && Partway(t, pipe, |t.slots|, newMin, newMax)
      modifies this
      ensures Valid() && Repr == old(Repr) && model == S.RmPipe(t, pipe)
    {
      hide Valid, Stands, Apart, S.RmPipe, S.RmSlots, Live, Without, S.Trim, Bounds, SpansLive;
      Unfold();
      WellFormedFacts(t);
      RmTableEnd(t, pipe);
      BoundsSpan(model.slots, newMin - min, newMax - min);
      hide WellFormed;
      Compact(newMin, newMax);
    }

    lemma StartPartway(pipe: Pipe, uniq: bool, path: Prefix)
      requires Valid() && WellFormed(model) && count > 1
      ensures this in Repr && min + count <= 256 && |model.slots| == count && Partway(model, pipe, 0, min + count - 1, min)
      ensures S.SlotCalls(model, pipe, uniq, path, 0) == []
    {
      hide Stands, Apart, S.RmSlots, Live;
      Unfold();
      WellFormedFacts(model);
      RmTableStart(model, pipe, uniq, path);
    }

    // match

    /** Calls back for every pipe of one node. */
    method SignalNode(all: set<Pipe>, depth: nat) returns (signals: seq<(nat, Pipe)>)
      ensures forall s :: s in signals <==> s.0 == depth && s.1 in all
      ensures forall i, j | 0 <= i < j < |signals| :: signals[i] != signals[j]
    {
      signals := [];
      var rest := all;
      while rest != {}
        invariant rest <= all
        invariant forall s :: s in signals <==> s.0 == depth && s.1 in all - rest
        invariant forall i, j | 0 <= i < j < |signals| :: signals[i] != signals[j]
        decreases rest
      {
        var x :| x in rest;
        assert (depth, x) !in signals;
        signals := signals + [(depth, x)];
        rest := rest - {x};
      }
    }

    method Match(data: Prefix) returns (signals: seq<(nat, Pipe)>)
      requires Valid() && WellFormed(model)
      ensures forall k: nat, x: Pipe :: (k, x) in signals <==> k <= |data| && Has(model, data[..k], x)
      ensures forall i, j | 0 <= i < j < |signals| :: signals[i].0 <= signals[j].0 && signals[i] != signals[j]
    {
      hide Valid, Stands, Apart, WellFormed;
      signals := [];
      var current: MTrie := this;
      var depth := 0;
      while true
        invariant depth <= |data| && current.Valid() && WellFormed(current.model)
        invariant S.Find(model, data[..depth]) == Some(current.model)
        invariant Upto(model, data, depth, signals)
        decreases |data| - depth
      {
        current.Unfold();
        if current.pipes.Some? {
          var more := SignalNode(current.pipes.value, depth);
          SignalStep(model, data, depth, signals, more);
          signals := signals + more;
        } else {
          SignalStep(model, data, depth, signals, []);
          assert signals + [] == signals;
        }
        if depth == |data| {
          break;
        }
        WellFormedFacts(current.model);
        FindStep(model, data, depth);
        NoFurther(model, data, depth + 1, signals);
        FineChild(current.model, data[depth]);
        if current.count == 0 {
          break;
        }
        var next: MTrie?;
        if current.count == 1 {
          if data[depth] != current.min {
            break;
          }
          next := current.node;
          assert next == current.Slots()[0];
        } else {
          if data[depth] < current.min || data[depth] >= current.min + current.count {
            break;
          }
          next := current.table[data[depth] - current.min];
          assert next == current.Slots()[data[depth] - current.min];
          if next == null {
            break;
          }
        }
        Standing(next, current);
        current := next;
        depth := depth + 1;
      }
    }

    // The calls of the users of a multi-trie

    method Add(prefix: Prefix, pipe: Pipe) returns (isNew: bool)
      requires Valid() && WellFormed(model)
      modifies Repr
      ensures Valid() && WellFormed(model) && fresh(Repr - old(Repr)) && model == S.Add(old(model), prefix, pipe)
      ensures forall q: Prefix, y: Pipe :: Has(model, q, y) <==> Has(old(model), q, y) || (q == prefix && y == pipe)
      ensures isNew <==> forall y: Pipe :: !Has(old(model), prefix, y)
    {
      AddIsWellFormed(model, prefix, pipe);
      NewMeansNobody(model, prefix);
      forall q: Prefix, y: Pipe
        ensures Has(S.Add(model, prefix, pipe), q, y) <==> Has(model, q, y) || (q == prefix && y == pipe)
      {
        AddHas(model, prefix, pipe, q, y);
      }
      hide Valid, WellFormed, Has, S.Add, IsNew;
      isNew := AddHelper(prefix, pipe);
    }

    method Rm(prefix: Prefix, pipe: Pipe) returns (gone: bool)
      requires Valid() && WellFormed(model) && MayRemove(model, prefix, pipe)
      modifies Repr
      ensures Valid() && WellFormed(model) && Repr == old(Repr) && model == S.Rm(old(model), prefix, pipe)
      ensures forall q: Prefix, y: Pipe :: Has(model, q, y) <==> Has(old(model), q, y) && !(q == prefix && y == pipe)
      ensures Has(old(model), prefix, pipe) ==> (gone <==> forall y: Pipe :: !Has(model, prefix, y))
      ensures gone <==> (prefix == [] || Begins(old(model), prefix)) && forall y: Pipe | Has(old(model), prefix, y) :: y == pipe
    {
      RmIsWellFormed(model, prefix, pipe);
      RmAnswer(model, prefix, pipe);
      if Has(model, prefix, pipe) {
        GoneMeansLast(model, prefix, pipe);
      }
      forall q: Prefix, y: Pipe
        ensures Has(S.Rm(model, prefix, pipe), q, y) <==> Has(model, q, y) && !(q == prefix && y == pipe)
      {
        RmHas(model, prefix, pipe, q, y);
      }
      hide Valid, WellFormed, Has, S.Rm, IsGone, MayRemove, Begins;
      gone := RmHelper(prefix, pipe);
    }

    method RmAll(pipe: Pipe, uniq: bool) returns (calls: seq<Prefix>)
      requires Valid() && WellFormed(model)
      modifies Repr
      ensures Valid() && WellFormed(model) && Repr == old(Repr) && model == S.RmPipe(old(model), pipe)
      ensures forall q: Prefix, y: Pipe :: Has(model, q, y) <==> Has(old(model), q, y) && y != pipe
      ensures forall q :: q in calls <==> Has(old(model), q, pipe) && (uniq ==> Nobody(model, q))
      ensures Ascending(calls)
    {
      RmPipeIsWellFormed(model, pipe);
      forall q: Prefix, y: Pipe
        ensures Has(S.RmPipe(model, pipe), q, y) <==> Has(model, q, y) && y != pipe
      {
        RmPipeHas(model, pipe, q, y);
      }
      var none: Prefix := [];
      CallsAreExact(model, pipe, uniq, none);
      forall q: Prefix
        ensures q in S.Calls(model, pipe, uniq, none) <==> Has(model, q, pipe) && (uniq ==> Nobody(S.RmPipe(model, pipe), q))
      {
        CallsAreExact(model, pipe, uniq, q);
      }
      hide Valid, WellFormed, Has, S.RmPipe, S.Calls, Nobody, Ascending;
      var buff := new Buffer();
      assert buff.data[..0] == none;
      calls := RmPipeHelper(pipe, buff, 0, 0, uniq);
    }
  }
}
