/**
 * Removing the cgroups nested in a run root: list them without following
 * links, order them deepest first, remove them one by one.
 */
module CgroupTree {
  import opened Common

  /** A path by its components. */
  type Path = seq<string>

  /** A directory entry. Only directories with a process list are cgroups. */
  datatype Entry = Symlink(name: string) | File(name: string) | PlainDir(name: string)
                 | Cgroup(name: string, children: seq<Entry>)

  predicate StrictlyInside(root: Path, path: Path)
  {
    root < path
  }

  /** The names in a directory are distinct, all the way down. */
  predicate DistinctNames(entries: seq<Entry>)
  {
    entries == [] ||
    (&& (forall other | other in entries[1..] :: other.name != entries[0].name)
     && (entries[0].Cgroup? ==> DistinctNames(entries[0].children))
     && DistinctNames(entries[1..]))
  }

  /** The nested cgroups in the order in which the listing finds them: children before their parent. */
  function Collect(entries: seq<Entry>, at: Path): seq<Path>
  {
    if entries == [] then []
    else
      var entry := entries[0];
      (if entry.Cgroup? then Collect(entry.children, at + [entry.name]) + [at + [entry.name]] else [])
      + Collect(entries[1..], at)
  }

  /** The cgroups below a directory, as a set. */
  function Descendants(entries: seq<Entry>, at: Path): set<Path>
  {
    if entries == [] then {}
    else
      var entry := entries[0];
      (if entry.Cgroup? then Descendants(entry.children, at + [entry.name]) + {at + [entry.name]} else {})
      + Descendants(entries[1..], at)
  }

  predicate DeepestFirst(paths: seq<Path>)
  {
    forall i, j | 0 <= i < j < |paths| :: |paths[i]| >= |paths[j]|
  }

  /** An order in which the nested cgroups can be removed. */
  ghost predicate RemovalOrder(todo: seq<Path>, nested: set<Path>)
  {
    NoDuplicates(todo) && (forall p :: p in todo <==> p in nested) && DeepestFirst(todo)
  }

  // ---- sorting ----

  function InsertByDepth(path: Path, sorted: seq<Path>): seq<Path>
  {
    if sorted == [] then [path]
    else if |path| >= |sorted[0]| then [path] + sorted
    else [sorted[0]] + InsertByDepth(path, sorted[1..])
  }

  /** The stable sort by component count, largest first. */
  function SortDeepestFirst(paths: seq<Path>): seq<Path>
  {
    if paths == [] then [] else InsertByDepth(paths[0], SortDeepestFirst(paths[1..]))
  }

  predicate NoDeeper(paths: seq<Path>, depth: nat)
  {
    forall i | 0 <= i < |paths| :: |paths[i]| <= depth
  }

  lemma {:induction false} InsertNoDeeper(path: Path, sorted: seq<Path>, depth: nat)
    requires NoDeeper(sorted, depth) && |path| <= depth
    ensures NoDeeper(InsertByDepth(path, sorted), depth)
  {
    if sorted != [] && |path| < |sorted[0]| {
      InsertNoDeeper(path, sorted[1..], depth);
    }
  }

  lemma {:induction false} InsertKeepsOrder(path: Path, sorted: seq<Path>)
    requires DeepestFirst(sorted)
    ensures DeepestFirst(InsertByDepth(path, sorted))
  {
    if sorted != [] && |path| < |sorted[0]| {
      assert NoDeeper(sorted[1..], |sorted[0]|);
      InsertKeepsOrder(path, sorted[1..]);
      InsertNoDeeper(path, sorted[1..], |sorted[0]|);
    }
  }

  lemma InsertFacts(path: Path, sorted: seq<Path>)
    requires DeepestFirst(sorted)
    ensures var r := InsertByDepth(path, sorted); DeepestFirst(r) && multiset(r) == multiset(sorted) + multiset{path}
  {
    hide DeepestFirst; hide InsertByDepth;
    InsertKeepsOrder(path, sorted);
    InsertKeepsElements(path, sorted);
  }

  lemma InsertKeepsElements(path: Path, sorted: seq<Path>)
    ensures multiset(InsertByDepth(path, sorted)) == multiset(sorted) + multiset{path}
  {
    if sorted != [] {
      assert sorted == [sorted[0]] + sorted[1..];
    }
  }

  lemma SortFacts(paths: seq<Path>)
    ensures var r := SortDeepestFirst(paths); DeepestFirst(r) && multiset(r) == multiset(paths)
  {
    if paths != [] {
      SortFacts(paths[1..]);
      InsertFacts(paths[0], SortDeepestFirst(paths[1..]));
      assert paths == [paths[0]] + paths[1..];
    }
  }

  lemma SameElements(a: seq<Path>, b: seq<Path>)
    requires multiset(a) == multiset(b) && NoDuplicates(a)
    ensures NoDuplicates(b) && forall p :: p in b <==> p in a
  {
    forall i, j | 0 <= i < j < |b|
      ensures b[i] != b[j]
    {
      if b[i] == b[j] {
        TwiceInMultiset(b, i, j);
        assert b[i] in multiset(a);
        OnceInMultiset(a, b[i]);
      }
    }
    forall p
      ensures p in b <==> p in a
    {
      assert p in b <==> p in multiset(b);
      assert p in a <==> p in multiset(a);
    }
  }

  lemma TwiceInMultiset(xs: seq<Path>, i: nat, j: nat)
    requires i < j < |xs| && xs[i] == xs[j]
    ensures multiset(xs)[xs[i]] >= 2
  {
    assert xs == xs[..j] + [xs[j]] + xs[j + 1..];
    assert xs[..j][i] == xs[i];
    assert xs[i] in multiset(xs[..j]);
  }

  lemma OnceInMultiset(xs: seq<Path>, x: Path)
    requires NoDuplicates(xs)
    ensures multiset(xs)[x] <= 1
  {
    if xs != [] {
      assert xs == [xs[0]] + xs[1..];
      OnceInMultiset(xs[1..], x);
      assert xs[0] !in xs[1..];
    }
  }

  // ---- listing ----

  /** Everything listed below `at` lies strictly inside it, through one of its entries. */
  lemma CollectInside(entries: seq<Entry>, at: Path, p: Path)
    requires p in Collect(entries, at)
    ensures StrictlyInside(at, p) && exists entry :: entry in entries && entry.name == p[|at|]
  {
    var entry := entries[0];
    var below := at + [entry.name];
    if entry.Cgroup? && p in Collect(entry.children, below) {
      CollectInside(entry.children, below, p);
      assert p[|at|] == below[|at|];
      assert entry in entries;
    } else if entry.Cgroup? && p == below {
      assert entry in entries;
    } else {
      CollectInside(entries[1..], at, p);
      var other :| other in entries[1..] && other.name == p[|at|];
      assert other in entries;
    }
  }

  lemma {:induction false} CollectFacts(entries: seq<Entry>, at: Path)
    requires DistinctNames(entries)
    ensures NoDuplicates(Collect(entries, at))
    ensures forall p :: p in Collect(entries, at) <==> p in Descendants(entries, at)
  {
    if entries != [] {
      var entry, rest := entries[0], entries[1..];
      CollectFacts(rest, at);
      if entry.Cgroup? {
        var below := at + [entry.name];
        CollectFacts(entry.children, below);
        var inner := Collect(entry.children, below);
        forall p | p in inner
          ensures p != below && below <= p
        {
          CollectInside(entry.children, below, p);
        }
        forall p | p in Collect(rest, at)
          ensures !(below <= p)
        {
          CollectInside(rest, at, p);
          assert below[|at|] == entry.name;
        }
        Disjoint(inner, [below]);
        Disjoint(inner + [below], Collect(rest, at));
      }
    }
  }

  lemma Disjoint(a: seq<Path>, b: seq<Path>)
    requires NoDuplicates(a) && NoDuplicates(b) && forall p | p in a :: p !in b
    ensures NoDuplicates(a + b)
  {
    forall i, j | 0 <= i < j < |a + b|
      ensures (a + b)[i] != (a + b)[j]
    {
      if i < |a| <= j {
        assert (a + b)[i] in a && (a + b)[j] in b;
      }
    }
  }

  /** Listing and sorting gives every nested cgroup exactly once, in an order in which it can be removed. */
  lemma CollectedIsRemovalOrder(entries: seq<Entry>, at: Path)
    requires DistinctNames(entries)
    ensures RemovalOrder(SortDeepestFirst(Collect(entries, at)), Descendants(entries, at))
    ensures forall p | p in Descendants(entries, at) :: StrictlyInside(at, p)
  {
    var found := Collect(entries, at);
    CollectFacts(entries, at);
    SortFacts(found);
    SameElements(found, SortDeepestFirst(found));
    forall p | p in Descendants(entries, at)
      ensures StrictlyInside(at, p)
    {
      CollectInside(entries, at, p);
    }
  }

  // ---- removing ----

  ghost predicate Childless(dirs: set<Path>, p: Path)
  {
    forall q | q in dirs :: !StrictlyInside(p, q)
  }

  ghost function Elements(xs: seq<Path>): set<Path>
  {
    set x | x in xs
  }

  /** What a removal loop does: whether it gets to its end, what is left, and what it removed, in order. */
  datatype Sweep = Sweep(ok: bool, left: set<Path>, log: seq<Path>)

  /**
   * Removing listed cgroups one after the other, whatever the tree is by now:
   * one that is gone is passed over, and one that has a child ends the loop.
   */
  ghost function Swept(nested: set<Path>, order: seq<Path>): Sweep
    decreases |order|
  {
    if order == [] then Sweep(true, nested, [])
    else if order[0] !in nested then Swept(nested, order[1..])
    else if !Childless(nested, order[0]) then Sweep(false, nested, [])
    else
      var rest := Swept(nested - {order[0]}, order[1..]);
      rest.(log := [order[0]] + rest.log)
  }

  /** One removal after the other, of a directory that is there and has no child. */
  ghost predicate IsRemoval(before: set<Path>, log: seq<Path>, after: set<Path>)
  {
    && NoDuplicates(log) && Elements(log) <= before && after == before - Elements(log)
    && forall i | 0 <= i < |log| :: Childless(before - Elements(log[..i]), log[i])
  }

  lemma NothingRemoved(dirs: set<Path>)
    ensures IsRemoval(dirs, [], dirs)
  {
    assert Elements([]) == {};
  }

  lemma FirstRemoved(before: set<Path>, p: Path, log: seq<Path>, after: set<Path>)
    requires p in before && Childless(before, p) && IsRemoval(before - {p}, log, after)
    ensures IsRemoval(before, [p] + log, after)
  {
    var all := [p] + log;
    assert Elements(all) == {p} + Elements(log);
    assert forall q | q in log :: q in Elements(log);
    forall i | 0 <= i < |all|
      ensures Childless(before - Elements(all[..i]), all[i])
    {
      if i == 0 {
        assert Elements(all[..0]) == {};
      } else {
        assert all[..i] == [p] + log[..i - 1];
        assert before - Elements(all[..i]) == before - {p} - Elements(log[..i - 1]);
      }
    }
  }

  /**
   * Whatever was listed, the loop removes only listed cgroups, each once and
   * when it has no child; it ends early only at one that has a child.
   */
  lemma {:induction false} SweptOnceAndChildless(nested: set<Path>, order: seq<Path>)
    ensures var r := Swept(nested, order);
      && IsRemoval(nested, r.log, r.left) && r.left <= nested
      && (forall p | p in r.log :: p in order)
      && (r.ok ==> r.left == nested - Elements(order))
      && (!r.ok ==> exists p | p in order :: p in r.left && !Childless(r.left, p))
    decreases |order|
  {
    hide IsRemoval; hide Childless;
    if order == [] {
      NothingRemoved(nested);
      assert Elements(order) == {};
    } else {
      var p, rest := order[0], order[1..];
      assert Elements(order) == {p} + Elements(rest);
      if p !in nested {
        SweptOnceAndChildless(nested, rest);
      } else if Childless(nested, p) {
        SweptOnceAndChildless(nested - {p}, rest);
        var r := Swept(nested - {p}, rest);
        FirstRemoved(nested, p, r.log, r.left);
      } else {
        NothingRemoved(nested);
      }
    }
  }

  /** Everything below a listed cgroup that is there was listed too. */
  ghost predicate CoversOne(order: seq<Path>, nested: set<Path>, p: Path)
  {
    p in nested ==> forall q | q in nested && StrictlyInside(p, q) :: q in order
  }

  ghost predicate Covers(order: seq<Path>, nested: set<Path>)
  {
    forall p | p in order :: CoversOne(order, nested, p)
  }

  /** In an order that is deepest first nothing below its head is listed. */
  lemma HeadCovered(order: seq<Path>, nested: set<Path>)
    requires order != [] && DeepestFirst(order) && order[0] in nested
    ensures CoversOne(order, nested, order[0]) <==> Childless(nested, order[0])
  {
  }

  lemma RestCovered(order: seq<Path>, nested: set<Path>)
    requires order != [] && NoDuplicates(order) && CoversOne(order, nested, order[0])
    ensures Covers(order, nested) <==> Covers(order[1..], nested - {order[0]})
  {
    var p, rest := order[0], order[1..];
    assert order == [p] + rest && p !in rest;
    forall q | q in rest
      ensures CoversOne(order, nested, q) <==> CoversOne(rest, nested - {p}, q)
    {
    }
  }

  /** Deepest first, the loop gets to its end exactly when everything below a listed cgroup was listed. */
  lemma {:induction false} SweptIffCovered(nested: set<Path>, order: seq<Path>)
    requires NoDuplicates(order) && DeepestFirst(order)
    ensures Swept(nested, order).ok <==> Covers(order, nested)
    decreases |order|
  {
    hide CoversOne; hide Covers; hide Childless;
    if order == [] {
      NothingToCover(nested);
    } else {
      var p, rest := order[0], order[1..];
      if p in nested {
        HeadCovered(order, nested);
        if Childless(nested, p) {
          RestCovered(order, nested);
          SweptIffCovered(nested - {p}, rest);
        } else {
          CoversHead(order, nested);
        }
      } else {
        AbsentCovered(order, nested);
        RestCovered(order, nested);
        assert nested - {p} == nested;
        SweptIffCovered(nested, rest);
      }
    }
  }

  lemma NothingToCover(nested: set<Path>)
    ensures Covers([], nested)
  {
  }

  lemma CoversHead(order: seq<Path>, nested: set<Path>)
    requires order != []
    ensures Covers(order, nested) ==> CoversOne(order, nested, order[0])
  {
  }

  lemma AbsentCovered(order: seq<Path>, nested: set<Path>)
    requires order != [] && order[0] !in nested
    ensures CoversOne(order, nested, order[0])
  {
  }

  /**
   * Sweeping a whole listing leaves nothing exactly when everything was
   * listed; then it removes exactly what was there.
   */
  lemma SweptClean(nested: set<Path>, order: seq<Path>, listed: set<Path>)
    requires RemovalOrder(order, listed)
    ensures var r := Swept(nested, order);
      && (r.ok && r.left == {} <==> nested <= listed)
      && (nested <= listed ==> Elements(r.log) == nested)
  {
    SweptOnceAndChildless(nested, order);
    SweptIffCovered(nested, order);
    assert Elements(order) == listed;
    assert forall p | p in nested :: p in listed || p in nested - listed;
  }
}
