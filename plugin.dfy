/**
 * Operation plugins (`BasePlugin`): each plugin keeps one singly linked
 * chain of operation nodes per lifecycle hook. `add_operation` walks a chain
 * to its tail and links a new node there; running a hook walks its chain and
 * invokes every callable node in order, and a node that raises stops the
 * walk. What the operations do is abstract: an operation is known by the
 * name of its function and the positional arguments its signature takes,
 * and whether its body raises is the oracle `fails`.
 */
module Plugin {
  import opened Wrappers

  /** `PluginMethodType`: the five lifecycle hooks, each with its own chain. */
  datatype Hook = BeforeExec | AfterExec | OnExec | OnError | OnSuccess

  /**
   * What a node holds: a callable, known by the name of its function, the
   * number of positional arguments it cannot do without, and the number it
   * accepts at most (None for a `*args` signature); or a value that is not
   * callable.
   */
  datatype Operation = Callable(fn: string, required: nat, accepted: Option<nat>) | NotCallable

  /** A call with `argc` positional arguments fits the callable's signature. */
  predicate Accepts(op: Operation, argc: nat)
    requires op.Callable?
  {
    op.required <= argc && (op.accepted.None? || argc <= op.accepted.value)
  }

  /**
   * Invoked with `argc` positional arguments, a callable raises when they do
   * not fit its signature (a `TypeError`) or when its body raises.
   */
  predicate Raises(op: Operation, argc: nat, fails: string -> bool) {
    op.Callable? && (!Accepts(op, argc) || fails(op.fn))
  }

  /** The callable operations, in order. */
  function Callables(ops: seq<Operation>): (r: seq<Operation>)
    ensures |r| <= |ops| && forall i :: 0 <= i < |r| ==> r[i].Callable?
  {
    if ops == [] then []
    else if ops[0].Callable? then [ops[0]] + Callables(ops[1..])
    else Callables(ops[1..])
  }

  /** The filter keeps exactly the callable operations. */
  lemma {:induction false} CallablesExact(ops: seq<Operation>)
    ensures forall o :: o in Callables(ops) <==> o in ops && o.Callable?
  {
    if ops != [] {
      CallablesExact(ops[1..]);
      assert forall o :: o in ops <==> o == ops[0] || o in ops[1..];
    }
  }

  /** Filtering keeps order: the callables of `a + b` are those of `a`, then those of `b`. */
  lemma {:induction false} CallablesConcat(a: seq<Operation>, b: seq<Operation>)
    ensures Callables(a + b) == Callables(a) + Callables(b)
  {
    if a != [] {
      assert (a + b)[0] == a[0] && (a + b)[1..] == a[1..] + b;
      CallablesConcat(a[1..], b);
      if a[0].Callable? {
        assert Callables(a + b) == [a[0]] + Callables(a[1..] + b);
        assert Callables(a) == [a[0]] + Callables(a[1..]);
        assert [a[0]] + (Callables(a[1..]) + Callables(b)) == ([a[0]] + Callables(a[1..])) + Callables(b);
      } else {
        assert Callables(a + b) == Callables(a[1..] + b);
      }
    } else {
      assert a + b == b;
    }
  }

  /** The invocations a chain walk made, and whether the last of them raised. */
  datatype ChainRun = ChainRun(ran: seq<Operation>, raised: bool)

  /**
   * `execute_operation_chain` on a chain holding `ops`: each callable is
   * invoked in turn, non-callables are passed over, and the first invocation
   * that raises ends the walk with the exception.
   */
  function RunChain(ops: seq<Operation>, argc: nat, fails: string -> bool): (r: ChainRun)
  {
    if ops == [] then ChainRun([], false)
    else if ops[0].NotCallable? then RunChain(ops[1..], argc, fails)
    else if Raises(ops[0], argc, fails) then ChainRun([ops[0]], true)
    else
      var rest := RunChain(ops[1..], argc, fails);
      ChainRun([ops[0]] + rest.ran, rest.raised)
  }

  /** Some callable operation of `ops` raises when invoked. */
  predicate SomeFails(ops: seq<Operation>, argc: nat, fails: string -> bool) {
    exists i :: 0 <= i < |ops| && Raises(ops[i], argc, fails)
  }

  /** When no invocation raises, every callable runs exactly once, in order, and non-callables are skipped. */
  lemma {:induction false} RunChainAll(ops: seq<Operation>, argc: nat, fails: string -> bool)
    requires !SomeFails(ops, argc, fails)
    ensures RunChain(ops, argc, fails) == ChainRun(Callables(ops), false)
  {
    if ops != [] {
      assert !SomeFails(ops[1..], argc, fails) by {
        forall i | 0 <= i < |ops[1..]| ensures !Raises(ops[1..][i], argc, fails) {
          assert ops[1..][i] == ops[i + 1];
        }
      }
      RunChainAll(ops[1..], argc, fails);
    }
  }

  /** A walk raises exactly when some callable of the chain raises. */
  lemma {:induction false} RunChainRaises(ops: seq<Operation>, argc: nat, fails: string -> bool)
    ensures RunChain(ops, argc, fails).raised <==> SomeFails(ops, argc, fails)
  {
    if ops != [] {
      RunChainRaises(ops[1..], argc, fails);
      if SomeFails(ops[1..], argc, fails) {
        var i :| 0 <= i < |ops[1..]| && Raises(ops[1..][i], argc, fails);
        assert ops[i + 1] == ops[1..][i];
      }
      if SomeFails(ops, argc, fails) && !Raises(ops[0], argc, fails) {
        var i :| 0 <= i < |ops| && Raises(ops[i], argc, fails);
        assert i > 0 && ops[1..][i - 1] == ops[i];
      }
    }
  }

  /**
   * What a walk ran is a prefix of the callables; when it raised, its last
   * invocation is the one that raised and none before it did.
   */
  lemma {:induction false} RunChainPrefix(ops: seq<Operation>, argc: nat, fails: string -> bool)
    ensures RunChain(ops, argc, fails).ran <= Callables(ops)
    ensures RunChain(ops, argc, fails).raised ==>
              var ran := RunChain(ops, argc, fails).ran;
              |ran| > 0 && Raises(ran[|ran| - 1], argc, fails) && forall i :: 0 <= i < |ran| - 1 ==> !Raises(ran[i], argc, fails)
  {
    if ops != [] {
      RunChainPrefix(ops[1..], argc, fails);
    }
  }

  /** One step of a walk that starts at position `k` of `ops`. */
  lemma RunChainAt(ops: seq<Operation>, k: nat, argc: nat, fails: string -> bool)
    requires k < |ops|
    ensures RunChain(ops[k..], argc, fails) ==
              if ops[k].NotCallable? then RunChain(ops[k + 1..], argc, fails)
              else if Raises(ops[k], argc, fails) then ChainRun([ops[k]], true)
              else Then([ops[k]], RunChain(ops[k + 1..], argc, fails))
  {
    assert ops[k..][1..] == ops[k + 1..];
  }

  /** `OperationNode`: an operation, its name, and the link to the next node. */
  class OperationNode {
    const operation: Operation
    const name: string
    var next: OperationNode?
    /** The hook whose chain the node was made for, and its position there; the program never reads them. */
    ghost const hook: Hook
    ghost const pos: nat

    constructor (operation: Operation, name: string, ghost hook: Hook, ghost pos: nat)
      ensures this.operation == operation && this.name == name && next == null
      ensures this.hook == hook && this.pos == pos
    {
      this.operation := operation;
      this.name := name;
      this.hook := hook;
      this.pos := pos;
      next := null;
    }
  }

  /**
   * `nodes` are, in order, the nodes reachable from `head`, each tagged with
   * `h` and its position (so no node is listed twice).
   */
  ghost predicate IsChain(head: OperationNode?, nodes: seq<OperationNode>, h: Hook)
    reads nodes`next
  {
    && head == (if nodes == [] then null else nodes[0])
    && (forall i :: 0 <= i < |nodes| ==> nodes[i].hook == h && nodes[i].pos == i)
    && (forall i :: 0 <= i < |nodes| ==> nodes[i].next == (if i + 1 < |nodes| then nodes[i + 1] else null))
  }

  /** The link out of the node at position `k` of a chain. */
  lemma ChainNext(head: OperationNode?, nodes: seq<OperationNode>, h: Hook, k: nat)
    requires IsChain(head, nodes, h) && k < |nodes|
    ensures nodes[k].next == (if k + 1 < |nodes| then nodes[k + 1] else null)
  {
  }

  /** The operations held by `nodes`, in order. */
  function Operations(nodes: seq<OperationNode>): (ops: seq<Operation>)
    ensures |ops| == |nodes| && forall i :: 0 <= i < |nodes| ==> ops[i] == nodes[i].operation
  {
    seq(|nodes|, i requires 0 <= i < |nodes| => nodes[i].operation)
  }

  lemma OperationsAppend(nodes: seq<OperationNode>, n: OperationNode)
    ensures Operations(nodes + [n]) == Operations(nodes) + [n.operation]
  {
  }

  class BasePlugin {
    var beforeExecChain: OperationNode?
    var afterExecChain: OperationNode?
    var onExecChain: OperationNode?
    var onErrorChain: OperationNode?
    var onSuccessChain: OperationNode?
    /** The nodes of each chain, head first. */
    ghost var chains: map<Hook, seq<OperationNode>>
    /** Every node of every chain. */
    ghost var repr: set<OperationNode>

    /** `getattr(self, f"{method_name}_chain")`. */
    function Head(h: Hook): OperationNode?
      reads this`beforeExecChain, this`afterExecChain, this`onExecChain, this`onErrorChain, this`onSuccessChain
    {
      match h
      case BeforeExec => beforeExecChain
      case AfterExec => afterExecChain
      case OnExec => onExecChain
      case OnError => onErrorChain
      case OnSuccess => onSuccessChain
    }

    /** The nodes of hook `g`'s chain. */
    ghost function Chain(g: Hook): seq<OperationNode>
      reads this`chains
    {
      if g in chains then chains[g] else []
    }

    /** Every chain is well linked from its head, and its nodes are among `repr`. */
    ghost predicate Valid()
      reads this`chains, this`repr, repr`next
      reads this`beforeExecChain, this`afterExecChain, this`onExecChain, this`onErrorChain, this`onSuccessChain
    {
      && (forall g, i :: 0 <= i < |Chain(g)| ==> Chain(g)[i] in repr)
      && (forall g :: IsChain(Head(g), Chain(g), g))
    }

    /** The operations of hook `h`'s chain, in append order. */
    ghost function Ops(h: Hook): seq<Operation>
      reads this
    {
      Operations(Chain(h))
    }

    /** A new plugin: all five chains are empty. */
    constructor ()
      ensures Valid() && fresh(repr)
      ensures forall h :: Head(h) == null && Ops(h) == []
    {
      beforeExecChain := null;
      afterExecChain := null;
      onExecChain := null;
      onErrorChain := null;
      onSuccessChain := null;
      chains := map[];
      repr := {};
    }

    /** `setattr(self, f"{method_name}_chain", node)`. */
    method SetHead(h: Hook, node: OperationNode?)
      modifies this`beforeExecChain, this`afterExecChain, this`onExecChain, this`onErrorChain, this`onSuccessChain
      ensures Head(h) == node && forall g :: g != h ==> Head(g) == old(Head(g))
    {
      match h
      case BeforeExec => beforeExecChain := node;
      case AfterExec => afterExecChain := node;
      case OnExec => onExecChain := node;
      case OnError => onErrorChain := node;
      case OnSuccess => onSuccessChain := node;
    }

    /**
     * `add_operation`: link a new node after the last node of `h`'s chain,
     * or make it the head of an empty chain. The other chains do not change.
     */
    method AddOperation(h: Hook, operation: Operation, name: string)
      requires Valid()
      modifies this, repr
      ensures Valid() && fresh(repr - old(repr))
      ensures Ops(h) == old(Ops(h)) + [operation]
      ensures forall g :: g != h ==> Ops(g) == old(Ops(g))
    {
      var node := new OperationNode(operation, name, h, |Chain(h)|);
      assert forall i :: 0 <= i < |Chain(h)| ==> Chain(h)[i] in repr;
      Link(h, node);
      Record(h, node);
    }

    /** The ghost part of `add_operation`: `node` is listed last in `h`'s chain. */
    ghost method Record(h: Hook, node: OperationNode)
      requires IsChain(Head(h), Chain(h) + [node], h)
      requires forall g :: g != h ==> IsChain(Head(g), Chain(g), g)
      requires forall g, i :: 0 <= i < |Chain(g)| ==> Chain(g)[i] in repr
      modifies this`chains, this`repr
      ensures Valid() && repr == old(repr) + {node}
      ensures Chain(h) == old(Chain(h)) + [node] && Ops(h) == old(Ops(h)) + [node.operation]
      ensures forall g :: g != h ==> Chain(g) == old(Chain(g))
    {
      ghost var was := Chain(h);
      chains := chains[h := was + [node]];
      repr := repr + {node};
      OperationsAppend(was, node);
      forall g, i | 0 <= i < |Chain(g)|
        ensures Chain(g)[i] in repr
      {
        if g != h {
          assert Chain(g) == old(Chain(g)) && old(Chain(g)[i] in repr);
        } else if i < |was| {
          assert Chain(g)[i] == was[i] && old(was[i] in repr);
        }
      }
    }

    /** The last node of a chain, as a set: the only node whose link `add_operation` rewrites. */
    ghost function LastOf(nodes: seq<OperationNode>): set<OperationNode> {
      if nodes == [] then {} else {nodes[|nodes| - 1]}
    }

    /**
     * The heap part of `add_operation`: `node` becomes the new last node of
     * `h`'s chain, and every other chain stays as it was.
     */
    method Link(h: Hook, node: OperationNode)
      requires Valid() && node !in repr && node.next == null && node.hook == h && node.pos == |Chain(h)|
      modifies this`beforeExecChain, this`afterExecChain, this`onExecChain, this`onErrorChain, this`onSuccessChain
      modifies LastOf(Chain(h))`next
      ensures IsChain(Head(h), Chain(h) + [node], h)
      ensures forall g :: g != h ==> IsChain(Head(g), Chain(g), g)
    {
      ghost var ns := Chain(h);
      assert IsChain(Head(h), ns, h);
      var head := Head(h);
      if head == null {
        SetHead(h, node);
      } else {
        var last := Tail(head, ns, h);
        last.next := node;
      }
      forall g | g != h
        ensures IsChain(Head(g), Chain(g), g)
      {
        assert old(IsChain(Head(g), Chain(g), g));
        assert forall n :: n in LastOf(ns) ==> n.hook == h;
        assert forall i :: 0 <= i < |Chain(g)| ==> Chain(g)[i].hook == g && Chain(g)[i] !in LastOf(ns);
      }
    }

    /** The `while current.next` walk of `add_operation`: the last node of a non-empty chain. */
    method Tail(head: OperationNode, ghost nodes: seq<OperationNode>, ghost h: Hook) returns (last: OperationNode)
      requires IsChain(head, nodes, h)
      ensures nodes != [] && last == nodes[|nodes| - 1]
    {
      last := head;
      ghost var k := 0;
      ChainNext(head, nodes, h, k);
      while last.next != null
        invariant 0 <= k < |nodes| && last == nodes[k]
        invariant last.next == (if k < |nodes| - 1 then nodes[k + 1] else null)
        decreases |nodes| - k
      {
        last := last.next;
        k := k + 1;
        ChainNext(head, nodes, h, k);
      }
    }

    /**
     * `execute_operation_chain(head, *args)` with `argc` positional arguments,
     * on a chain whose nodes are `nodes`: the walk's invocations and outcome
     * are those of `RunChain`.
     */
    method ExecuteOperationChain(head: OperationNode?, ghost nodes: seq<OperationNode>, ghost h: Hook,
                                 argc: nat, fails: string -> bool)
      returns (r: ChainRun)
      requires IsChain(head, nodes, h)
      ensures r == RunChain(Operations(nodes), argc, fails)
    {
      var current := head;
      var ran: seq<Operation> := [];
      ghost var ops := Operations(nodes);
      ghost var k := 0;
      while current != null
        invariant 0 <= k <= |nodes| && current == (if k < |nodes| then nodes[k] else null)
        invariant RunChain(ops, argc, fails) == Then(ran, RunChain(ops[k..], argc, fails))
        decreases |nodes| - k
      {
        RunChainAt(ops, k, argc, fails);
        if current.operation.Callable? {
          if !Accepts(current.operation, argc) || fails(current.operation.fn) {
            return ChainRun(ran + [current.operation], true);
          }
          ran := ran + [current.operation];
        }
        ChainNext(head, nodes, h, k);
        current := current.next;
        k := k + 1;
      }
      r := ChainRun(ran, false);
    }

    /**
     * The hook method for `h` called with `argc` positional arguments. The
     * five hook methods take none, so an argument raises a `TypeError`
     * before the chain is touched; without arguments the hook runs its own
     * chain, passing no arguments on.
     */
    method Invoke(h: Hook, argc: nat, fails: string -> bool) returns (r: ChainRun)
      requires Valid()
      ensures r == HookRun(Ops(h), argc, fails)
    {
      if argc != 0 {
        return ChainRun([], true);
      }
      assert IsChain(Head(h), Chain(h), h);
      r := ExecuteOperationChain(Head(h), Chain(h), h, 0, fails);
    }

    /**
     * The hook method for `h` as evidently intended, `async def on_error(self,
     * *args)`: the arguments are passed on to every operation of the chain.
     */
    method InvokeForwarding(h: Hook, argc: nat, fails: string -> bool) returns (r: ChainRun)
      requires Valid()
      ensures r == RunChain(Ops(h), argc, fails)
    {
      assert IsChain(Head(h), Chain(h), h);
      r := ExecuteOperationChain(Head(h), Chain(h), h, argc, fails);
    }
  }

  /** One `add_operation(hook, operation, name)` call, as a plugin's constructor makes it. */
  datatype Registration = Registration(hook: Hook, operation: Operation, name: string)

  /** The operations the first `n` of `regs` register on hook `h`, in registration order. */
  function RegisteredOps(regs: seq<Registration>, n: nat, h: Hook): seq<Operation>
    requires n <= |regs|
  {
    if n == 0 then []
    else RegisteredOps(regs, n - 1, h) + (if regs[n - 1].hook == h then [regs[n - 1].operation] else [])
  }

  /** Three registrations: each lands on its own hook, in order. */
  lemma RegisteredThree(regs: seq<Registration>, h: Hook)
    requires |regs| == 3
    ensures RegisteredOps(regs, 3, h) ==
              (if regs[0].hook == h then [regs[0].operation] else []) +
              (if regs[1].hook == h then [regs[1].operation] else []) +
              (if regs[2].hook == h then [regs[2].operation] else [])
  {
    assert RegisteredOps(regs, 1, h) == if regs[0].hook == h then [regs[0].operation] else [];
  }

  /**
   * A plugin constructor: a new `BasePlugin` with all chains empty, then one
   * `add_operation` per registration, in order. Each chain then holds
   * exactly the operations registered on its hook, in registration order.
   */
  method NewPlugin(regs: seq<Registration>) returns (b: BasePlugin)
    ensures fresh(b) && fresh(b.repr) && b.Valid()
    ensures forall h :: b.Ops(h) == RegisteredOps(regs, |regs|, h)
  {
    b := new BasePlugin();
    var i := 0;
    while i < |regs|
      invariant 0 <= i <= |regs| && fresh(b.repr) && b.Valid()
      invariant forall h :: b.Ops(h) == RegisteredOps(regs, i, h)
    {
      Register(b, regs, i);
      i := i + 1;
    }
  }

  /** One step of a plugin constructor: the `add_operation` call for `regs[i]`. */
  method Register(b: BasePlugin, regs: seq<Registration>, i: nat)
    requires i < |regs| && b.Valid()
    requires forall h :: b.Ops(h) == RegisteredOps(regs, i, h)
    modifies b, b.repr
    ensures b.Valid() && fresh(b.repr - old(b.repr))
    ensures forall h :: b.Ops(h) == RegisteredOps(regs, i + 1, h)
  {
    b.AddOperation(regs[i].hook, regs[i].operation, regs[i].name);
  }

  /**
   * A hook method, as written, called with `argc` positional arguments on a
   * chain holding `ops`: without arguments it walks the chain; with any, the
   * call itself raises and nothing of the chain runs.
   */
  function HookRun(ops: seq<Operation>, argc: nat, fails: string -> bool): (r: ChainRun)
    ensures argc != 0 ==> r.raised && r.ran == []
  {
    if argc == 0 then RunChain(ops, 0, fails) else ChainRun([], true)
  }

  /** A walk result after `ran` has already been invoked. */
  function Then(ran: seq<Operation>, r: ChainRun): ChainRun {
    ChainRun(ran + r.ran, r.raised)
  }
}
