/** One object of the ownership tree (`own.cpp`, with the sequence counting of `object.cpp`).

    The functions on `Node` say what each handler does to the object. */
module OwnStep {
  import opened Options

  type Id = nat

  datatype Node = Node(
    owner: Option<Id>, owned: set<Id>, terminating: bool, termAcks: int,
    sentSeqnum: nat, processedSeqnum: nat, destroyed: bool)

  /** Commands an object sends; the first argument is the destination. */
  datatype Command =
    | SendPlug(dest: Id)
    | SendOwn(dest: Id, object_: Id)
    | SendTermReq(dest: Id, object_: Id)
    | SendTerm(dest: Id)
    | SendTermAck(dest: Id)

  function Create(): Node {
    Node(None, {}, false, 0, 0, 0, false)
  }

  predicate Finished(n: Node) {
    n.terminating && n.processedSeqnum == n.sentSeqnum && n.termAcks == 0
  }

  function CheckTermAcks(n: Node): Node {
    if Finished(n) then n.(destroyed := true) else n
  }

  function IncSeqnum(n: Node): Node {
    n.(sentSeqnum := n.sentSeqnum + 1)
  }

  function ProcessSeqnum(n: Node): Node {
    CheckTermAcks(n.(processedSeqnum := n.processedSeqnum + 1))
  }

  function ProcessOwn(n: Node, child: Id): Node {
    if n.terminating then n.(termAcks := n.termAcks + 1) else n.(owned := n.owned + {child})
  }

  function ProcessTermReq(n: Node, child: Id): Node {
    if n.terminating || child !in n.owned then n
    else n.(owned := n.owned - {child}, termAcks := n.termAcks + 1)
  }

  function ProcessTerm(n: Node): Node
    requires !n.terminating
  {
    CheckTermAcks(n.(termAcks := n.termAcks + |n.owned|, owned := {}, terminating := true))
  }

  function UnregisterTermAck(n: Node): Node
    requires n.termAcks > 0
  {
    CheckTermAcks(n.(termAcks := n.termAcks - 1))
  }

  /** The acknowledgement that check_term_acks sends when the object goes away. */
  function LastWords(before: Node, after: Node): seq<Command> {
    if after.destroyed && !before.destroyed && after.owner.Some? then [SendTermAck(after.owner.value)] else []
  }
}
