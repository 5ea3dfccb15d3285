/**
 * The component registry's two depth-first searches: the circular-dependency check and the dependency order.
 * The registry is what load_components leaves behind: names in registration order and what each requires.
 * A required name need not be registered.
 */
module ComponentRegistry {

  type Name = string

  datatype Registry = Registry(order: seq<Name>, deps: map<Name, seq<Name>>) {
    /** A dictionary: each name once, in the order of insertion. */
    ghost predicate Valid() {
      && (forall c :: c in order <==> c in deps)
      && Distinct(order)
    }

    /** component.get('requires', []) for a registered component. */
    predicate Edge(u: Name, v: Name) {
      u in deps && v in deps[u]
    }

    ghost function Universe(): (r: set<Name>)
      ensures forall u, v :: Edge(u, v) ==> u in r && v in r
    {
      deps.Keys + set u, v | u in deps && v in deps[u] :: v
    }

    /** Each name on the path requires the next. */
    ghost predicate IsPath(p: seq<Name>) {
      forall i :: 0 <= i < |p| - 1 ==> Edge(p[i], p[i + 1])
    }

    ghost predicate IsCycle(p: seq<Name>) {
      |p| >= 2 && IsPath(p) && p[0] == p[|p| - 1]
    }

    ghost predicate OnCycle(c: Name) {
      exists p :: IsCycle(p) && p[0] == c
    }

    ghost predicate Acyclic() {
      forall p :: !IsCycle(p)
    }

    /** Every registered name that `s[i]` requires stands before it. */
    ghost predicate DepsBefore(s: seq<Name>) {
      forall i, v :: 0 <= i < |s| && v in deps && Edge(s[i], v) ==> v in s[..i]
    }
  }

  ghost predicate Distinct(s: seq<Name>) {
    forall i, j :: 0 <= i < j < |s| ==> s[i] != s[j]
  }

  ghost function Members(s: seq<Name>): set<Name> {
    set c | c in s
  }

  // ----- what an order says about cycles

  ghost function Position(s: seq<Name>, c: Name): (i: nat)
    requires c in s
    ensures i < |s| && s[i] == c
  {
    var i :| 0 <= i < |s| && s[i] == c;
    i
  }

  lemma EdgeGoesBack(reg: Registry, s: seq<Name>, u: Name, v: Name)
    requires Distinct(s) && reg.DepsBefore(s) && u in s && v in reg.deps && reg.Edge(u, v)
    ensures v in s && Position(s, v) < Position(s, u)
  {
    var i := Position(s, u);
    assert v in s[..i];
    var j :| 0 <= j < i && s[..i][j] == v;
    assert s[j] == v;
  }

  /** Along a path of registered names positions only fall. */
  lemma {:induction false} PathGoesBack(reg: Registry, s: seq<Name>, p: seq<Name>)
    requires Distinct(s) && reg.DepsBefore(s) && |p| >= 1 && reg.IsPath(p)
    requires (forall c :: c in reg.deps ==> c in s) && p[|p| - 1] in reg.deps
    ensures p[0] in s && p[|p| - 1] in s
    ensures |p| >= 2 ==> Position(s, p[|p| - 1]) < Position(s, p[0])
    decreases |p|
  {
    if |p| >= 2 {
      assert reg.Edge(p[0], p[1]);
      if |p| == 2 {
        EdgeGoesBack(reg, s, p[0], p[1]);
      } else {
        PathGoesBack(reg, s, p[1..]);
        assert reg.Edge(p[1], p[2]);
        EdgeGoesBack(reg, s, p[0], p[1]);
      }
    }
  }

  /** A list of all components with dependencies first can only exist without cycles. */
  lemma OrderMeansAcyclic(reg: Registry, s: seq<Name>)
    requires Distinct(s) && reg.DepsBefore(s) && forall c :: c in reg.deps ==> c in s
    ensures reg.Acyclic()
  {
    forall p ensures !reg.IsCycle(p) {
      if reg.IsCycle(p) {
        assert reg.Edge(p[0], p[1]);
        PathGoesBack(reg, s, p);
      }
    }
  }

  /** The names being visited, with one that comes round again, form a cycle. */
  lemma ClosedPath(reg: Registry, path: seq<Name>, c: Name)
    requires c in path && reg.IsPath(path + [c])
    ensures reg.OnCycle(c) && !reg.Acyclic()
  {
    var k :| 0 <= k < |path| && path[k] == c;
    var all := path + [c];
    var p := all[k..];
    forall i | 0 <= i < |p| - 1 ensures reg.Edge(p[i], p[i + 1]) {
      assert reg.Edge(all[k + i], all[k + i + 1]);
    }
    assert reg.IsCycle(p);
  }

  lemma ExtendPath(reg: Registry, path: seq<Name>, u: Name, v: Name)
    requires reg.IsPath(path + [u]) && reg.Edge(u, v)
    ensures reg.IsPath((path + [u]) + [v])
  {
    var p, q := path + [u], (path + [u]) + [v];
    forall i | 0 <= i < |q| - 1 ensures reg.Edge(q[i], q[i + 1]) {
      if i < |p| - 1 {
        assert reg.Edge(p[i], p[i + 1]);
      }
    }
  }

  lemma AppendKeepsOrder(reg: Registry, s: seq<Name>, c: Name)
    requires Distinct(s) && reg.DepsBefore(s) && c !in s
    requires forall v :: v in reg.deps && reg.Edge(c, v) ==> v in s
    ensures Distinct(s + [c]) && reg.DepsBefore(s + [c])
  {
    var t := s + [c];
    forall i, v | 0 <= i < |t| && v in reg.deps && reg.Edge(t[i], v) ensures v in t[..i] {
      if i < |s| {
        assert v in s[..i] && t[..i] == s[..i];
      } else {
        assert t[..i] == s;
      }
    }
  }

  // ----- check_circular_dependencies

  class CycleCheck {
    const reg: Registry
    var visited: set<Name>
    var recStack: set<Name>
    ghost var finished: seq<Name>   // names left for good, in that order

    constructor (reg: Registry)
      ensures this.reg == reg && visited == {} && recStack == {} && finished == []
    {
      this.reg := reg;
      visited, recStack, finished := {}, {}, [];
    }

    /** `path` holds the calls in progress; every other visited name is finished, after all it requires. */
    ghost predicate Valid(path: seq<Name>)
      reads this
    {
      && recStack == Members(path)
      && visited == recStack + Members(finished)
      && recStack !! Members(finished)
      && Distinct(finished) && reg.DepsBefore(finished)
    }

    /** has_cycle */
    method HasCycle(c: Name, ghost path: seq<Name>) returns (found: bool)
      requires Valid(path) && c in reg.Universe() && reg.IsPath(path + [c])
      modifies this
      ensures found ==> !reg.Acyclic()
      ensures !found ==> Valid(path) && c in finished && old(visited) <= visited
      ensures !found ==> forall d :: d in old(finished) ==> d in finished
      decreases reg.Universe() - visited
    {
      if c in recStack {
        ClosedPath(reg, path, c);
        return true;
      }
      if c in visited {
        return false;
      }
      visited := visited + {c};
      recStack := recStack + {c};
      ghost var path' := path + [c];
      assert Members(path') == Members(path) + {c};
      if c in reg.deps {
        var deps := reg.deps[c];
        for i := 0 to |deps|
          invariant Valid(path') && old(visited) + {c} <= visited
          invariant forall d :: d in old(finished) ==> d in finished
          invariant forall j :: 0 <= j < i ==> deps[j] in finished
        {
          assert reg.Edge(c, deps[i]);
          ExtendPath(reg, path, c, deps[i]);
          var cyclic := HasCycle(deps[i], path');
          if cyclic { return true; }
        }
      }
      recStack := recStack - {c};
      assert c !in finished;
      AppendKeepsOrder(reg, finished, c);
      assert Members(finished + [c]) == Members(finished) + {c};
      finished := finished + [c];
      return false;
    }
  }

  /** check_circular_dependencies: true exactly when no component requires itself, however indirectly. */
  method CheckCircularDependencies(reg: Registry) returns (ok: bool)
    requires reg.Valid()
    ensures ok <==> reg.Acyclic()
  {
    var search := new CycleCheck(reg);
    for i := 0 to |reg.order|
      invariant fresh(search) && search.reg == reg && search.Valid([])
      invariant forall j :: 0 <= j < i ==> reg.order[j] in search.finished
    {
      var c := reg.order[i];
      assert c in reg.deps;
      if c !in search.visited {
        var found := search.HasCycle(c, []);
        if found { return false; }
      }
    }
    OrderMeansAcyclic(reg, search.finished);
    return true;
  }

  // ----- get_dependency_order

  /** A ValueError names the component it was raised for. */
  datatype Visit = Done | CircularDependency(name: Name)

  class TopologicalSort {
    const reg: Registry
    var visited: set<Name>
    var tempMark: set<Name>
    var result: seq<Name>

    constructor (reg: Registry)
      ensures this.reg == reg && visited == {} && tempMark == {} && result == []
    {
      this.reg := reg;
      visited, tempMark, result := {}, {}, [];
    }

    ghost predicate Valid(path: seq<Name>)
      reads this
    {
      && tempMark == Members(path)
      && visited == Members(result)
      && visited !! tempMark
      && visited + tempMark <= reg.deps.Keys
      && Distinct(result) && reg.DepsBefore(result)
    }

    /** visit */
    method Visit(c: Name, ghost path: seq<Name>) returns (r: Visit)
      requires Valid(path) && c in reg.deps && reg.IsPath(path + [c])
      modifies this
      ensures r.CircularDependency? ==> reg.OnCycle(r.name)
      ensures r.Done? ==> Valid(path) && c in result && old(result) <= result
      decreases reg.deps.Keys - tempMark
    {
      if c in tempMark {
        ClosedPath(reg, path, c);
        return CircularDependency(c);
      }
      if c in visited {
        return Done;
      }
      tempMark := tempMark + {c};
      ghost var path' := path + [c];
      assert Members(path') == Members(path) + {c};
      var deps := reg.deps[c];
      for i := 0 to |deps|
        invariant Valid(path') && old(result) <= result
        invariant forall j :: 0 <= j < i && deps[j] in reg.deps ==> deps[j] in result
      {
        if deps[i] in reg.deps {
          assert reg.Edge(c, deps[i]);
          ExtendPath(reg, path, c, deps[i]);
          r := Visit(deps[i], path');
          if r.CircularDependency? { return r; }
        }
      }
      tempMark := tempMark - {c};
      visited := visited + {c};
      AppendKeepsOrder(reg, result, c);
      assert Members(result + [c]) == Members(result) + {c};
      result := result + [c];
      return Done;
    }
  }

  datatype OrderResult = Ordered(names: seq<Name>) | ValueError(name: Name)

  /**
   * get_dependency_order: an error exactly when there is a cycle, naming a component on one; otherwise each
   * registered component once, after every registered component it requires.
   */
  method GetDependencyOrder(reg: Registry) returns (r: OrderResult)
    requires reg.Valid()
    ensures r.Ordered? <==> reg.Acyclic()
    ensures r.ValueError? ==> reg.OnCycle(r.name)
    ensures r.Ordered? ==> Distinct(r.names) && Members(r.names) == reg.deps.Keys && reg.DepsBefore(r.names)
  {
    var search := new TopologicalSort(reg);
    for i := 0 to |reg.order|
      invariant fresh(search) && search.reg == reg && search.Valid([])
      invariant forall j :: 0 <= j < i ==> reg.order[j] in search.result
    {
      var c := reg.order[i];
      assert c in reg.deps;
      if c !in search.visited {
        var v := search.Visit(c, []);
        if v.CircularDependency? {
          assert reg.OnCycle(v.name);
          return ValueError(v.name);
        }
      }
    }
    assert Members(search.result) == reg.deps.Keys;
    OrderMeansAcyclic(reg, search.result);
    return Ordered(search.result);
  }
}
