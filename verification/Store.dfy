/** The backend store: its actions and events, its history of changes, and the tree it is
    read from. A change at position n of the history has ModifiedIndex n + 1. */
module Store {
  import opened Paths

  datatype Action = ERROR | GET | SET | UPDATE | DELETE | INIT {
    function Name(): string {
      match this
      case GET => "get"
      case SET => "update"
      case UPDATE => "update"
      case DELETE => "delete"
      case INIT => "init"
      case ERROR => "error"
    }
  }

  datatype KVPair = KVPair(key: string, value: string, lastIndex: nat)

  datatype Event = Event(action: Action, key: string, modifiedIndex: nat, data: seq<KVPair>)

  // ----- the history of the store -----

  /** The operations etcd reports. */
  datatype Operation =
    OpGet | OpSet | OpCreate | OpUpdate | OpCompareAndSwap | OpDelete | OpExpire | OpCompareAndDelete | OpError | OpOther

  datatype Change = Change(op: Operation, key: string, value: string) {
    /** The change stores its value at the leaf key. */
    predicate Writes() {
      op.OpSet? || op.OpCreate? || op.OpUpdate? || op.OpCompareAndSwap?
    }

    /** The change removes the node at key with everything below it. */
    predicate Removes() {
      op.OpDelete? || op.OpExpire? || op.OpCompareAndDelete?
    }
  }

  type Contents = map<string, string>

  function Commit(store: Contents, c: Change): Contents
  {
    if c.Writes() then store[c.key := c.value]
    else if c.Removes() then map k | k in store && !Covers(c.key, k) :: store[k]
    else store
  }

  /** What the store holds after the first n changes. */
  function StoreAt(history: seq<Change>, n: nat): Contents
    requires n <= |history|
  {
    if n == 0 then map[] else Commit(StoreAt(history, n - 1), history[n - 1])
  }

  /** Later changes do not alter what the store held before. */
  lemma {:induction false} StoreAtPrefix(history: seq<Change>, longer: seq<Change>, n: nat)
    requires n <= |history| && history <= longer
    ensures StoreAt(history, n) == StoreAt(longer, n)
  {
    if n > 0 {
      StoreAtPrefix(history, longer, n - 1);
    }
  }

  // ----- what a recursive watch on a directory reports -----

  /** The table that turns etcd's action names into store actions; a name outside the table
      gives Go's zero value, GET. */
  function ActionMap(op: Operation): Action
  {
    match op
    case OpSet => UPDATE
    case OpCreate => UPDATE
    case OpUpdate => UPDATE
    case OpCompareAndSwap => UPDATE
    case OpDelete => DELETE
    case OpExpire => DELETE
    case OpCompareAndDelete => DELETE
    case OpError => ERROR
    case OpGet => GET
    case OpOther => GET
  }

  /** A watch on root reports changes of keys below it, and removals of the root, of anything
      below it, or of a directory above it. */
  predicate Visible(root: string, c: Change)
  {
    (c.Writes() && Under(root, c.key)) || (c.Removes() && (Covers(root, c.key) || Covers(c.key, root)))
  }

  /** The event the watch sends for the change with the given index. */
  function WatchEvent(c: Change, index: nat): Event
  {
    Event(ActionMap(c.op), c.key, index, [KVPair(c.key, c.value, index)])
  }

  /** An invisible change leaves every key below the root as it was. */
  lemma InvisibleIsHarmless(root: string, store: Contents, c: Change, k: string)
    requires !Visible(root, c) && Under(root, k)
    ensures k in store <==> k in Commit(store, c)
    ensures k in store ==> Commit(store, c)[k] == store[k]
  {
    if c.Removes() && Covers(c.key, k) {
      CoversChain(c.key, root, k);
    }
  }

  // ----- the tree GetTree reads -----

  datatype Node = Node(key: string, dir: bool, value: string, modifiedIndex: nat, nodes: seq<Node>)

  /** The leaves of a forest, in tree order. */
  function Leaves(nodes: seq<Node>): seq<KVPair>
  {
    if nodes == [] then []
    else
      (if nodes[0].dir then Leaves(nodes[0].nodes)
       else [KVPair(nodes[0].key, nodes[0].value, nodes[0].modifiedIndex)]) + Leaves(nodes[1..])
  }

  lemma LeavesStep(nodes: seq<Node>, i: nat)
    requires i < |nodes|
    ensures Leaves(nodes[i..]) == FirstLeaves(nodes[i]) + Leaves(nodes[i + 1..])
  {
    assert nodes[i..][1..] == nodes[i + 1..];
  }

  /** Appending what a node contributes to the pairs found before it. */
  lemma LeavesAfter(nodes: seq<Node>, i: nat, pairs: seq<KVPair>)
    requires i < |nodes|
    ensures pairs + Leaves(nodes[i..]) == pairs + FirstLeaves(nodes[i]) + Leaves(nodes[i + 1..])
  {
    LeavesStep(nodes, i);
    Regroup(pairs, FirstLeaves(nodes[i]), Leaves(nodes[i + 1..]));
  }

  lemma Regroup<T>(a: seq<T>, b: seq<T>, c: seq<T>)
    ensures a + (b + c) == (a + b) + c
  {
  }

  /** The pairs one node contributes. */
  function FirstLeaves(n: Node): seq<KVPair>
  {
    if n.dir then Leaves(n.nodes) else [KVPair(n.key, n.value, n.modifiedIndex)]
  }

  method TravelNodes(nodes: seq<Node>) returns (pairs: seq<KVPair>)
    ensures pairs == Leaves(nodes)
    decreases nodes
  {
    pairs := [];
    assert nodes[0..] == nodes && pairs + Leaves(nodes) == Leaves(nodes);
    for i := 0 to |nodes|
      invariant pairs + Leaves(nodes[i..]) == Leaves(nodes)
    {
      var node := nodes[i];
      LeavesAfter(nodes, i, pairs);
      if node.dir {
        var below := TravelNodes(node.nodes);
        assert below == FirstLeaves(node);
        pairs := pairs + below;
      } else {
        pairs := pairs + [KVPair(node.key, node.value, node.modifiedIndex)];
      }
    }
    assert Leaves(nodes[|nodes|..]) == [];
  }

  /** The pair is a file somewhere in the forest. */
  ghost predicate IsFile(nodes: seq<Node>, p: KVPair)
  {
    exists i :: 0 <= i < |nodes| &&
      if nodes[i].dir then IsFile(nodes[i].nodes, p)
      else p == KVPair(nodes[i].key, nodes[i].value, nodes[i].modifiedIndex)
  }

  /** Siblings have different keys one step below their directory, in every directory. */
  ghost predicate WellFormed(parent: string, nodes: seq<Node>)
    decreases nodes
  {
    && (forall i :: 0 <= i < |nodes| ==> ChildOf(parent, nodes[i].key))
    && (forall i, j :: 0 <= i < j < |nodes| ==> nodes[i].key != nodes[j].key)
    && (forall i :: 0 <= i < |nodes| ==> WellFormed(nodes[i].key, nodes[i].nodes))
  }

  predicate ChildOf(parent: string, key: string)
  {
    parent + "/" <= key && key != parent + "/" && '/' !in key[|parent| + 1..]
  }

  /** Flattening visits the trees of a forest one after the other; with one-node forests
      (a file gives its pair, a directory gives what is in it) this fixes the tree order. */
  lemma {:induction false} LeavesInOrder(a: seq<Node>, b: seq<Node>)
    ensures Leaves(a + b) == Leaves(a) + Leaves(b)
  {
    if a == [] {
      assert a + b == b;
    } else {
      assert (a + b)[1..] == a[1..] + b;
      LeavesInOrder(a[1..], b);
    }
  }

  /** The pairs listed are exactly the files of the forest: every file, and no directory. */
  lemma {:induction false} LeavesAreFiles(nodes: seq<Node>, p: KVPair)
    ensures p in Leaves(nodes) <==> IsFile(nodes, p)
    decreases nodes
  {
    if nodes != [] {
      var rest := nodes[1..];
      if nodes[0].dir {
        LeavesAreFiles(nodes[0].nodes, p);
      }
      LeavesAreFiles(rest, p);
      if IsFile(rest, p) {
        var i :| 0 <= i < |rest| &&
          if rest[i].dir then IsFile(rest[i].nodes, p)
          else p == KVPair(rest[i].key, rest[i].value, rest[i].modifiedIndex);
        assert nodes[i + 1] == rest[i];
        assert IsFile(nodes, p);
      }
      if IsFile(nodes, p) {
        var i :| 0 <= i < |nodes| &&
          if nodes[i].dir then IsFile(nodes[i].nodes, p)
          else p == KVPair(nodes[i].key, nodes[i].value, nodes[i].modifiedIndex);
        if i > 0 {
          assert rest[i - 1] == nodes[i];
          assert IsFile(rest, p);
        }
      }
    }
  }

  predicate DistinctKeys(pairs: seq<KVPair>)
  {
    forall i, j :: 0 <= i < j < |pairs| ==> pairs[i].key != pairs[j].key
  }

  /** In a well-formed tree every file lies below the directory and under one of its children. */
  lemma {:induction false} FilesBelow(parent: string, nodes: seq<Node>, p: KVPair)
    requires WellFormed(parent, nodes) && p in Leaves(nodes)
    ensures Under(parent, p.key)
    ensures exists i :: 0 <= i < |nodes| && Covers(nodes[i].key, p.key)
    decreases nodes
  {
    var n := nodes[0];
    assert ChildOf(parent, n.key);
    if n.dir && p in Leaves(n.nodes) {
      FilesBelow(n.key, n.nodes, p);
      assert Covers(n.key, p.key);
      assert parent + "/" <= n.key <= p.key by {
        CoversIsPrefix(n.key, p.key);
      }
    } else if !n.dir && p.key == n.key {
      assert Covers(n.key, p.key);
    } else {
      FilesBelow(parent, nodes[1..], p);
      var i :| 0 <= i < |nodes[1..]| && Covers(nodes[1..][i].key, p.key);
      assert nodes[i + 1] == nodes[1..][i];
    }
  }

  /** A child covers the keys that continue it with a slash, and has none in its own name. */
  lemma ChildStops(parent: string, a: string, k: string)
    requires ChildOf(parent, a) && Covers(a, k)
    ensures a <= k && |parent| < |a|
    ensures forall i :: |parent| < i < |a| ==> k[i] != '/'
    ensures |a| < |k| ==> k[|a|] == '/'
  {
    CoversIsPrefix(a, k);
    forall i | |parent| < i < |a|
      ensures k[i] != '/'
    {
      assert a[|parent| + 1..][i - |parent| - 1] == a[i] == k[i];
    }
    if a != k {
      assert (a + "/")[|a|] == '/';
    }
  }

  /** Two children of the same directory never cover the same key. */
  lemma ChildrenAreApart(parent: string, a: string, b: string, k: string)
    requires ChildOf(parent, a) && ChildOf(parent, b) && Covers(a, k) && Covers(b, k)
    ensures a == b
  {
    ChildStops(parent, a, k);
    ChildStops(parent, b, k);
  }

  /** No file is listed twice. */
  lemma {:induction false} LeavesDistinct(parent: string, nodes: seq<Node>)
    requires WellFormed(parent, nodes)
    ensures DistinctKeys(Leaves(nodes))
    decreases nodes
  {
    if nodes != [] {
      var n, rest := nodes[0], nodes[1..];
      var first := Leaves([n]);
      LeavesStep([n], 0);
      assert [n][0..] == [n] && first == FirstLeaves(n);
      LeavesDistinct(parent, rest);
      if n.dir {
        LeavesDistinct(n.key, n.nodes);
      }
      assert [n] + rest == nodes;
      LeavesInOrder([n], rest);
      forall x, y | x in first && y in Leaves(rest)
        ensures x.key != y.key
      {
        if n.dir {
          FilesBelow(n.key, n.nodes, x);
        }
        FilesBelow(parent, rest, y);
        if x.key == y.key {
          var i :| 0 <= i < |rest| && Covers(rest[i].key, y.key);
          assert rest[i] == nodes[i + 1];
          ChildrenAreApart(parent, n.key, rest[i].key, x.key);
        }
      }
    }
  }

  /** The pairs are the part of the store below root, each key once. */
  ghost predicate Enumerates(pairs: seq<KVPair>, store: Contents, root: string)
  {
    && DistinctKeys(pairs)
    && (forall i :: 0 <= i < |pairs| ==>
          Under(root, pairs[i].key) && pairs[i].key in store && store[pairs[i].key] == pairs[i].value)
    && (forall k :: k in store && Under(root, k) ==> exists i :: 0 <= i < |pairs| && pairs[i].key == k)
  }

  /** The tree below root is the store below root. */
  ghost predicate Represents(nodes: seq<Node>, store: Contents, root: string)
  {
    && (forall p :: IsFile(nodes, p) ==> p.key in store && store[p.key] == p.value)
    && (forall k :: k in store && Under(root, k) ==> exists p :: IsFile(nodes, p) && p.key == k)
  }

  /** Reading the tree gives each pair below the root once. */
  lemma {:induction false} TreeEnumerates(nodes: seq<Node>, store: Contents, root: string)
    requires WellFormed(root, nodes) && Represents(nodes, store, root)
    ensures Enumerates(Leaves(nodes), store, root)
  {
    var pairs := Leaves(nodes);
    LeavesDistinct(root, nodes);
    forall i | 0 <= i < |pairs|
      ensures Under(root, pairs[i].key) && pairs[i].key in store && store[pairs[i].key] == pairs[i].value
    {
      LeavesAreFiles(nodes, pairs[i]);
      FilesBelow(root, nodes, pairs[i]);
    }
    forall k | k in store && Under(root, k)
      ensures exists i :: 0 <= i < |pairs| && pairs[i].key == k
    {
      var p :| IsFile(nodes, p) && p.key == k;
      LeavesAreFiles(nodes, p);
    }
  }
}
