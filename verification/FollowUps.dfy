/** Counting the follow-ups under a question by walking parent pointers, as the execution service does
    before every turn. The pointers come from stored rows and are never trusted to be acyclic or closed. */
module FollowUps {
  import opened Domain

  /** Question id to parent question id; an id outside the map is a row that was not loaded. */
  type Parents = map<nat, Option<nat>>

  ghost function Unseen(parents: Parents, path: seq<nat>): set<nat> { parents.Keys - (set x | x in path) }

  lemma {:induction false} Shrinks(parents: Parents, path: seq<nat>, next: nat)
    requires next !in path
    ensures next in parents ==> Unseen(parents, path + [next]) < Unseen(parents, path)
    ensures next !in parents ==> Unseen(parents, path + [next]) == Unseen(parents, path)
  {
    assert forall x :: x in path + [next] <==> x in path || x == next;
    if next in parents {
      assert next in Unseen(parents, path) && next !in Unseen(parents, path + [next]);
    }
  }

  /** The ids visited from the last id of `path`, stopping at a root, at an id that is not in the map,
      or just before an id would be visited twice. */
  function Trail(parents: Parents, path: seq<nat>): (t: seq<nat>)
    requires path != []
    ensures path <= t
    decreases Unseen(parents, path), if path[|path| - 1] in parents then 1 else 0
  {
    var current := path[|path| - 1];
    if current !in parents || parents[current].None? || parents[current].value in path then path
    else
      var parent := parents[current].value;
      Shrinks(parents, path, parent);
      Trail(parents, path + [parent])
  }

  function RootOf(parents: Parents, q: nat): nat {
    var t := Trail(parents, [q]);
    t[|t| - 1]
  }

  /** The ids of the map, other than the root itself, whose walk ends where the walk from `q` ends. */
  function Siblings(parents: Parents, q: nat): set<nat> {
    set x | x in parents && x != RootOf(parents, q) && RootOf(parents, x) == RootOf(parents, q)
  }

  function CountFollowUps(parents: Parents, q: nat): nat { |Siblings(parents, q)| }

  // --- The loops of the service ---------------------------------------------

  method FindRoot(parents: Parents, q: nat) returns (root: nat)
    ensures root == RootOf(parents, q)
  {
    var seen := {q};
    var current := q;
    ghost var path := [q];
    while current in parents && parents[current].Some?
      invariant path != [] && current == path[|path| - 1]
      invariant seen == set x | x in path
      invariant Trail(parents, [q]) == Trail(parents, path)
      decreases parents.Keys - seen, if current in parents then 1 else 0
    {
      var parent := parents[current].value;
      if parent in seen {
        break;
      }
      seen := seen + {parent};
      path := path + [parent];
      current := parent;
      if current !in parents {
        return parent;
      }
    }
    return current;
  }

  method CountForRoot(parents: Parents, q: nat) returns (count: nat)
    ensures count == CountFollowUps(parents, q)
  {
    var root := FindRoot(parents, q);
    count := 0;
    var todo := parents.Keys;
    ghost var found := {};
    while todo != {}
      invariant todo <= parents.Keys && found !! todo
      invariant found == set x | x in parents && x !in todo && x != root && RootOf(parents, x) == root
      invariant count == |found|
      decreases todo
    {
      var x :| x in todo;
      todo := todo - {x};
      var r := FindRoot(parents, x);
      if x != root && r == root {
        found := found + {x};
        count := count + 1;
      }
    }
    assert found == Siblings(parents, q);
  }

  // --- What the walk means ---------------------------------------------------

  /** `y` is reached from `x` by following exactly `k` parent pointers. */
  ghost predicate Reaches(parents: Parents, x: nat, y: nat, k: nat)
    decreases k
  {
    if k == 0 then x == y
    else x in parents && parents[x].Some? && Reaches(parents, parents[x].value, y, k - 1)
  }

  ghost predicate Acyclic(parents: Parents) {
    forall x, k: nat :: k > 0 ==> !Reaches(parents, x, x, k)
  }

  ghost predicate Closed(parents: Parents) {
    forall x :: x in parents && parents[x].Some? ==> parents[x].value in parents
  }

  ghost predicate IsRoot(parents: Parents, r: nat) { r in parents && parents[r].None? }

  /** Every id from which `r` can be reached, `r` included. */
  ghost function Tree(parents: Parents, r: nat): set<nat> {
    set x | x in parents && exists k: nat :: Reaches(parents, x, r, k)
  }

  lemma {:induction false} ReachesExtend(parents: Parents, x: nat, y: nat, k: nat)
    requires Reaches(parents, x, y, k) && y in parents && parents[y].Some?
    ensures Reaches(parents, x, parents[y].value, k + 1)
    decreases k
  {
    if k == 0 {
      assert Reaches(parents, parents[y].value, parents[y].value, 0);
    } else {
      ReachesExtend(parents, parents[x].value, y, k - 1);
    }
  }

  lemma {:induction false} ReachesUnique(parents: Parents, x: nat, r: nat, j: nat, s: nat, k: nat)
    requires Reaches(parents, x, r, j) && IsRoot(parents, r)
    requires Reaches(parents, x, s, k) && IsRoot(parents, s)
    ensures r == s
    decreases j
  {
    if j != 0 && k != 0 {
      ReachesUnique(parents, parents[x].value, r, j - 1, s, k - 1);
    }
  }

  /** A path along which each id is the parent of the one before it. */
  ghost predicate Linked(parents: Parents, path: seq<nat>) {
    && (forall i :: 0 <= i < |path| - 1 ==> path[i] in parents && parents[path[i]] == Some(path[i + 1]))
    && (forall i, j :: 0 <= i < j < |path| ==> path[i] != path[j])
  }

  lemma {:induction false} LinkedReaches(parents: Parents, path: seq<nat>, i: nat)
    requires Linked(parents, path) && i < |path|
    ensures Reaches(parents, path[i], path[|path| - 1], |path| - 1 - i)
    decreases |path| - i
  {
    if i < |path| - 1 {
      LinkedReaches(parents, path, i + 1);
    }
  }

  /** On any map whatever, the walk visits distinct ids along parent pointers, and it stops only at a root,
      at an id that is not in the map, or where the next pointer would close a cycle. */
  lemma {:induction false} WalkOnAnyMap(parents: Parents, path: seq<nat>)
    requires path != [] && Linked(parents, path)
    ensures Linked(parents, Trail(parents, path)) && path <= Trail(parents, path)
    ensures var t := Trail(parents, path); var end := t[|t| - 1];
      end !in parents || parents[end].None? || parents[end].value in t
    decreases Unseen(parents, path), if path[|path| - 1] in parents then 1 else 0
  {
    var current := path[|path| - 1];
    if current in parents && parents[current].Some? && parents[current].value !in path {
      var longer := path + [parents[current].value];
      Shrinks(parents, path, parents[current].value);
      WalkOnAnyMap(parents, longer);
    }
  }

  /** On an acyclic closed map the walk from any loaded id ends at the one root it can reach. */
  lemma {:induction false} WalkEndsAtRoot(parents: Parents, q: nat) returns (k: nat)
    requires Acyclic(parents) && Closed(parents) && q in parents
    ensures IsRoot(parents, RootOf(parents, q)) && Reaches(parents, q, RootOf(parents, q), k)
  {
    WalkOnAnyMap(parents, [q]);
    var t := Trail(parents, [q]);
    var end := t[|t| - 1];
    k := |t| - 1;
    LinkedReaches(parents, t, 0);
    assert |t| > 1 ==> parents[t[|t| - 2]] == Some(end);
    if parents[end].Some? {
      var i :| 0 <= i < |t| && t[i] == parents[end].value;
      LinkedReaches(parents, t, i);
      ReachesExtend(parents, t[i], end, |t| - 1 - i);
      assert false;
    }
  }

  /** On an acyclic closed forest the count is the size of the tree that holds the question, minus its
      root, whichever question of the tree the count starts from. */
  lemma {:induction false} CountIsTreeSize(parents: Parents, q: nat, r: nat)
    requires Acyclic(parents) && Closed(parents)
    requires IsRoot(parents, r) && q in Tree(parents, r)
    ensures RootOf(parents, q) == r
    ensures CountFollowUps(parents, q) == |Tree(parents, r)| - 1
  {
    forall x | x in parents
      ensures RootOf(parents, x) == r <==> x in Tree(parents, r)
    {
      var k := WalkEndsAtRoot(parents, x);
      if x in Tree(parents, r) {
        var j: nat :| Reaches(parents, x, r, j);
        ReachesUnique(parents, x, RootOf(parents, x), k, r, j);
      }
    }
    assert Reaches(parents, r, r, 0);
    assert Tree(parents, r) == Siblings(parents, q) + {r};
  }
}
