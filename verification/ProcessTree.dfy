/** The parent-link tree under one process, as the holder collects it before it
    decides whether a payload left descendants behind. */
module ProcessTree {
  import opened Wrappers

  type Pid = int

  /** A process table: every listed process with the parent it names. Nothing
      says the links are acyclic or that a parent is itself listed. */
  type Table = map<Pid, Pid>

  /** A walk down child links that starts at the root. */
  ghost predicate Trail(t: Table, root: Pid, trail: seq<Pid>)
  {
    && 0 < |trail|
    && trail[0] == root
    && forall i :: 0 < i < |trail| ==> trail[i] in t && t[trail[i]] == trail[i - 1]
  }

  ghost predicate Descends(t: Table, root: Pid, pid: Pid)
  {
    exists trail :: Trail(t, root, trail) && trail[|trail| - 1] == pid
  }

  /** The reflexive-transitive closure of the child relation, from the root. */
  ghost function Descendants(t: Table, root: Pid): (all: set<Pid>)
    ensures forall p :: p in all <==> Descends(t, root, p)
  {
    assert forall p :: Descends(t, root, p) ==> p in t.Keys + {root};
    set p | p in t.Keys + {root} && Descends(t, root, p)
  }

  lemma DescendsStep(t: Table, root: Pid, parent: Pid, child: Pid)
    requires Descends(t, root, parent)
    requires child in t && t[child] == parent
    ensures Descends(t, root, child)
  {
    var trail :| Trail(t, root, trail) && trail[|trail| - 1] == parent;
    assert Trail(t, root, trail + [child]);
    assert (trail + [child])[|trail|] == child;
  }

  /** Any set that holds the root and is closed under children holds every
      descendant: the closure is the least such set. */
  lemma {:induction false} DescendantsLeast(t: Table, root: Pid, closed: set<Pid>, trail: seq<Pid>)
    requires root in closed
    requires forall c :: c in t && t[c] in closed ==> c in closed
    requires Trail(t, root, trail)
    ensures trail[|trail| - 1] in closed
  {
    if |trail| > 1 {
      var shorter := trail[..|trail| - 1];
      assert Trail(t, root, shorter);
      DescendantsLeast(t, root, closed, shorter);
      assert t[trail[|trail| - 1]] == shorter[|shorter| - 1];
    }
  }

  function Children(children: map<Pid, seq<Pid>>, parent: Pid): seq<Pid>
  {
    if parent in children then children[parent] else []
  }

  /** Groups the table by parent. */
  method ChildLists(t: Table) returns (children: map<Pid, seq<Pid>>)
    ensures forall p, c :: c in Children(children, p) <==> c in t && t[c] == p
  {
    children := map[];
    var rest := t.Keys;
    while rest != {}
      invariant rest <= t.Keys
      invariant forall p, c :: c in Children(children, p) ==> c in t && c !in rest && t[c] == p
      invariant forall c :: c in t && c !in rest ==> c in Children(children, t[c])
      decreases rest
    {
      var pid := Pick(rest);
      rest := rest - {pid};
      ghost var before := children;
      children := children[t[pid] := Children(children, t[pid]) + [pid]];
      assert forall p :: Children(children, p) == if p == t[pid] then Children(before, p) + [pid] else Children(before, p);
    }
  }

  /** The stack walk. It ends on every table, cyclic parent links included,
      because each round shrinks the unseen processes or the stack. */
  method DescendantsOf(t: Table, root: Pid) returns (seen: set<Pid>)
    ensures seen == Descendants(t, root)
  {
    var children := ChildLists(t);
    seen := {};
    var stack := [root];
    assert Trail(t, root, [root]);
    assert Descends(t, root, root);
    while stack != []
      invariant forall p :: p in stack || p in seen ==> Descends(t, root, p)
      invariant root in stack || root in seen
      invariant forall c :: c in t && t[c] in seen ==> c in seen || c in stack
      decreases t.Keys + {root} - seen, |stack|
    {
      var current := stack[|stack| - 1];
      ghost var before := stack;
      stack := stack[..|stack| - 1];
      assert forall p :: p in before <==> p in stack || p == current;
      if current in seen {
        continue;
      }
      assert current in t.Keys + {root} by {
        var trail :| Trail(t, root, trail) && trail[|trail| - 1] == current;
      }
      seen := seen + {current};
      forall c | c in Children(children, current) ensures Descends(t, root, c) {
        DescendsStep(t, root, current, c);
      }
      stack := stack + Children(children, current);
    }
    forall p | Descends(t, root, p) ensures p in seen {
      var trail :| Trail(t, root, trail) && trail[|trail| - 1] == p;
      DescendantsLeast(t, root, seen, trail);
    }
    assert forall p :: p in seen <==> p in Descendants(t, root);
    assert seen == Descendants(t, root);
  }
}
