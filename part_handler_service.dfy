/**
 * Handler lookup for a command, climbing the containment chain of parts.
 *
 * A part is a value that carries its own handler list and its parent part,
 * so every containment chain is finite and acyclic by construction.
 */
module PartHandlerService {
  import opened Wrappers

  type CommandId = nat

  /** A handler bound to a command; `command` is `None` for an unbound handler. */
  datatype Handler = Handler(id: nat, command: Option<CommandId>)

  /** A part: its handlers in list order and its parent in the model, if any. */
  datatype Part = Part(id: nat, handlers: seq<Handler>, parent: Option<Part>)

  /** A handler matches `c` when its command equals `c` (a handler with no command never does). */
  predicate Matches(h: Handler, c: CommandId) {
    h.command == Some(c)
  }

  /** The parts from `p` up to the root of its containment chain, `p` first. */
  function Chain(p: Option<Part>): (r: seq<Part>)
    decreases p
  {
    match p
    case None => []
    case Some(q) => [q] + Chain(q.parent)
  }

  /** The handler lists of the chain, concatenated in lookup order. */
  function ChainHandlers(p: Option<Part>): seq<Handler>
    decreases p
  {
    match p
    case None => []
    case Some(q) => q.handlers + ChainHandlers(q.parent)
  }

  /** The reference definition of a lookup: the first handler of `hs` that matches `c`. */
  function FirstFor(hs: seq<Handler>, c: CommandId): (r: Option<Handler>)
    ensures r.Some? ==> r.value in hs && Matches(r.value, c)
    ensures r.None? <==> forall h :: h in hs ==> !Matches(h, c)
  {
    if hs == [] then None
    else if Matches(hs[0], c) then Some(hs[0])
    else
      var rest := FirstFor(hs[1..], c);
      assert forall h :: h in hs[1..] ==> h in hs;
      rest
  }

  /** What the lookup finds is the earliest match: it sits at some index before which nothing matches. */
  lemma {:induction false} FirstForIsFirst(hs: seq<Handler>, c: CommandId)
    requires FirstFor(hs, c).Some?
    ensures exists k :: 0 <= k < |hs| && hs[k] == FirstFor(hs, c).value &&
                        forall i :: 0 <= i < k ==> !Matches(hs[i], c)
  {
    if !Matches(hs[0], c) {
      var tail := hs[1..];
      FirstForIsFirst(tail, c);
      var k :| 0 <= k < |tail| && tail[k] == FirstFor(tail, c).value &&
               forall i :: 0 <= i < k ==> !Matches(tail[i], c);
      assert hs[k + 1] == tail[k];
      assert forall i :: 0 <= i < k + 1 ==> !Matches(hs[i], c) by {
        forall i | 0 <= i < k + 1
          ensures !Matches(hs[i], c)
        {
          if i > 0 { assert hs[i] == tail[i - 1]; }
        }
      }
    } else {
      assert hs[0] == FirstFor(hs, c).value;
    }
  }

  /** Looking in `a` and then in `b` is the same as looking in `a + b`. */
  lemma {:induction false} FirstForAppend(a: seq<Handler>, b: seq<Handler>, c: CommandId)
    ensures FirstFor(a, c).Some? ==> FirstFor(a + b, c) == FirstFor(a, c)
    ensures FirstFor(a, c).None? ==> FirstFor(a + b, c) == FirstFor(b, c)
  {
    if a != [] {
      assert (a + b)[1..] == a[1..] + b;
      FirstForAppend(a[1..], b, c);
    } else {
      assert a + b == b;
    }
  }

  /**
   * The lookup of PartHandlerService.findFirstHandlerFor: scan the part's own
   * handlers in order, and when none matches, continue from its parent.
   */
  method FindFirstHandlerFor(p: Option<Part>, c: CommandId) returns (h: Option<Handler>)
    ensures h == FirstFor(ChainHandlers(p), c)
    ensures p.None? ==> h.None?
    decreases p
  {
    if p.None? {
      return None;
    }
    var part := p.value;
    var i := 0;
    while i < |part.handlers|
      invariant 0 <= i <= |part.handlers|
      invariant forall k :: 0 <= k < i ==> !Matches(part.handlers[k], c)
    {
      var candidate := part.handlers[i];
      if candidate.command == Some(c) {
        FirstPrefix(part.handlers, i, c);
        FirstForAppend(part.handlers, ChainHandlers(part.parent), c);
        return Some(candidate);
      }
      i := i + 1;
    }
    NoneInList(part.handlers, c);
    FirstForAppend(part.handlers, ChainHandlers(part.parent), c);
    h := FindFirstHandlerFor(part.parent, c);
  }

  /** When the first `k` handlers do not match and `hs[k]` does, `hs[k]` is the first match. */
  lemma {:induction false} FirstPrefix(hs: seq<Handler>, k: nat, c: CommandId)
    requires k < |hs| && Matches(hs[k], c)
    requires forall i :: 0 <= i < k ==> !Matches(hs[i], c)
    ensures FirstFor(hs, c) == Some(hs[k])
  {
    if k > 0 {
      FirstPrefix(hs[1..], k - 1, c);
    }
  }

  /** When no handler of `hs` matches, the lookup in `hs` finds nothing. */
  lemma NoneInList(hs: seq<Handler>, c: CommandId)
    requires forall i :: 0 <= i < |hs| ==> !Matches(hs[i], c)
    ensures FirstFor(hs, c).None?
  {
  }

  /** A service bound to one part: `getHandler` looks up from that part. */
  datatype Service = Service(part: Option<Part>) {

    method GetHandler(c: CommandId) returns (h: Option<Handler>)
      ensures h == FirstFor(ChainHandlers(part), c)
    {
      h := FindFirstHandlerFor(part, c);
    }
  }

  /** A part whose own handlers match `c` answers with the first of them, whatever its ancestors hold. */
  lemma OwnHandlerWins(q: Part, c: CommandId)
    requires FirstFor(q.handlers, c).Some?
    ensures FirstFor(ChainHandlers(Some(q)), c) == FirstFor(q.handlers, c)
  {
    FirstForAppend(q.handlers, ChainHandlers(q.parent), c);
  }

  /** A part none of whose handlers match `c` answers exactly as its parent does. */
  lemma NoOwnHandlerDefersToParent(q: Part, c: CommandId)
    requires forall h :: h in q.handlers ==> !Matches(h, c)
    ensures FirstFor(ChainHandlers(Some(q)), c) == FirstFor(ChainHandlers(q.parent), c)
  {
    FirstForAppend(q.handlers, ChainHandlers(q.parent), c);
  }

  /** Every handler found along the chain belongs to some part of the chain, and conversely. */
  lemma {:induction false} ChainHandlersOfChain(p: Option<Part>, h: Handler)
    ensures h in ChainHandlers(p) <==> exists q :: q in Chain(p) && h in q.handlers
    decreases p
  {
    match p
    case None =>
    case Some(q) =>
      ChainHandlersOfChain(q.parent, h);
      assert Chain(p) == [q] + Chain(q.parent);
      assert forall r :: r in Chain(p) <==> r == q || r in Chain(q.parent);
  }

  /** When no part on the chain has a handler for `c`, the lookup yields nothing. */
  lemma NoHandlerOnChain(p: Option<Part>, c: CommandId)
    requires forall q, h :: q in Chain(p) && h in q.handlers ==> !Matches(h, c)
    ensures FirstFor(ChainHandlers(p), c).None?
  {
    forall h | h in ChainHandlers(p)
      ensures !Matches(h, c)
    {
      ChainHandlersOfChain(p, h);
    }
  }

  /** Conversely, a lookup that yields nothing means no part on the chain has a handler for `c`. */
  lemma NothingFoundMeansNoHandler(p: Option<Part>, c: CommandId)
    requires FirstFor(ChainHandlers(p), c).None?
    ensures forall q, h :: q in Chain(p) && h in q.handlers ==> !Matches(h, c)
  {
    forall q, h | q in Chain(p) && h in q.handlers
      ensures !Matches(h, c)
    {
      ChainHandlersOfChain(p, h);
    }
  }
}
