/** The check that a value can be written as JSON, on object graphs that may share and may
    be cyclic. */
module JsonGraph {
  type Ref = nat

  /** Primitive values and references; `Other` stands for undefined, functions, symbols and
      big integers. */
  datatype Value = Null | Str | Bool | Number(finite: bool) | Other | Object(ref: Ref)

  datatype Prototype = Plain | NoPrototype | Custom

  datatype Cell = List(items: seq<Value>) | Record(prototype: Prototype, values: seq<Value>)

  type Graph = map<Ref, Cell>

  predicate ValueIn(g: Graph, v: Value) {
    v.Object? ==> v.ref in g
  }

  /** Every reference of the graph leads to a cell of the graph. */
  ghost predicate Closed(g: Graph) {
    forall r, v :: r in g && v in Children(g, r) ==> ValueIn(g, v)
  }

  function Children(g: Graph, r: Ref): seq<Value>
    requires r in g
  {
    match g[r]
    case List(items) => items
    case Record(_, values) => values
  }

  /** The value by itself is of a JSON kind: what it refers to is not looked at. */
  predicate LocallyJson(g: Graph, v: Value)
    requires ValueIn(g, v)
  {
    match v
    case Number(finite) => finite
    case Other => false
    case Object(r) => g[r].Record? ==> g[r].prototype != Custom
    case _ => true
  }

  /** What the recursion computes below the given ancestors. */
  ghost predicate Accepts(g: Graph, v: Value, ancestors: set<Ref>)
    requires Closed(g) && ValueIn(g, v) && ancestors <= g.Keys
    decreases |g.Keys - ancestors|
  {
    LocallyJson(g, v) &&
    (v.Object? ==>
       v.ref !in ancestors &&
       (Smaller(g.Keys, ancestors, v.ref);
        forall child :: child in Children(g, v.ref) ==> Accepts(g, child, ancestors + {v.ref})))
  }

  /** Kind by kind: null, text and truth values are accepted, a number iff it is finite, and nothing
      else that is not an object; an array iff all its items are, a record iff it has no prototype
      of its own and all its fields are, each below one more ancestor. */
  lemma {:induction false} AcceptsByKind(g: Graph, v: Value, ancestors: set<Ref>)
    requires Closed(g) && ValueIn(g, v) && ancestors <= g.Keys
    ensures match v
            case Null => Accepts(g, v, ancestors)
            case Str => Accepts(g, v, ancestors)
            case Bool => Accepts(g, v, ancestors)
            case Number(finite) => Accepts(g, v, ancestors) <==> finite
            case Other => !Accepts(g, v, ancestors)
            case Object(r) =>
              Accepts(g, v, ancestors) <==>
                r !in ancestors &&
                (match g[r]
                 case List(items) => AcceptsAll(g, items, ancestors + {r})
                 case Record(prototype, values) => prototype in {Plain, NoPrototype} && AcceptsAll(g, values, ancestors + {r}))
  {
    if v.Object? && v.ref !in ancestors {
      Smaller(g.Keys, ancestors, v.ref);
      var children := Children(g, v.ref);
      if AcceptsAll(g, children, ancestors + {v.ref}) {
        forall child | child in children ensures Accepts(g, child, ancestors + {v.ref}) {
          var i :| 0 <= i < |children| && children[i] == child;
        }
      } else if forall child :: child in children ==> Accepts(g, child, ancestors + {v.ref}) {
        forall i | 0 <= i < |children| ensures ValueIn(g, children[i]) && Accepts(g, children[i], ancestors + {v.ref}) {
          assert children[i] in children;
        }
      }
    }
  }

  ghost predicate AcceptsAll(g: Graph, values: seq<Value>, ancestors: set<Ref>)
    requires Closed(g) && ancestors <= g.Keys
  {
    forall i :: 0 <= i < |values| ==> ValueIn(g, values[i]) && Accepts(g, values[i], ancestors)
  }

  lemma {:induction false} Smaller(all: set<Ref>, ancestors: set<Ref>, r: Ref)
    requires r in all && r !in ancestors
    ensures |all - (ancestors + {r})| < |all - ancestors|
  {
    assert all - ancestors == (all - (ancestors + {r})) + {r};
  }

  // ---- The independent reading: paths through the graph. ----

  /** A way down from a value: each value is a child of the one before. */
  ghost predicate IsPath(g: Graph, path: seq<Value>)
    requires Closed(g)
  {
    path != [] && ValueIn(g, path[0]) &&
    (|path| > 1 ==> path[0].Object? && path[1] in Children(g, path[0].ref) && IsPath(g, path[1..]))
  }

  ghost predicate PathFrom(g: Graph, v: Value, path: seq<Value>)
    requires Closed(g)
  {
    IsPath(g, path) && path[0] == v
  }

  ghost predicate EndsJson(g: Graph, path: seq<Value>)
    requires Closed(g) && IsPath(g, path)
  {
    PathStaysIn(g, path);
    LocallyJson(g, path[|path| - 1])
  }

  lemma {:induction false} PathStaysIn(g: Graph, path: seq<Value>)
    requires Closed(g) && IsPath(g, path)
    ensures ValueIn(g, path[|path| - 1])
  {
    if |path| > 1 {
      PathStaysIn(g, path[1..]);
    }
  }

  /** The path meets no object twice, and none of the given ones. */
  ghost predicate Fresh(path: seq<Value>, ancestors: set<Ref>) {
    path == [] ||
    (if path[0].Object? then path[0].ref !in ancestors && Fresh(path[1..], ancestors + {path[0].ref})
     else Fresh(path[1..], ancestors))
  }

  /** Everything reachable is of a JSON kind and no way down meets an object twice. */
  ghost predicate JsonBelow(g: Graph, v: Value, ancestors: set<Ref>)
    requires Closed(g)
  {
    forall path :: PathFrom(g, v, path) ==> EndsJson(g, path) && Fresh(path, ancestors)
  }

  lemma {:induction false} AcceptsPaths(g: Graph, v: Value, ancestors: set<Ref>, path: seq<Value>)
    requires Closed(g) && ValueIn(g, v) && ancestors <= g.Keys
    requires Accepts(g, v, ancestors) && PathFrom(g, v, path)
    ensures EndsJson(g, path) && Fresh(path, ancestors)
    decreases |path|
  {
    if |path| > 1 {
      AcceptsPaths(g, path[1], ancestors + {v.ref}, path[1..]);
    }
  }

  lemma {:induction false} PathsAccept(g: Graph, v: Value, ancestors: set<Ref>)
    requires Closed(g) && ValueIn(g, v) && ancestors <= g.Keys
    requires JsonBelow(g, v, ancestors)
    ensures Accepts(g, v, ancestors)
    decreases |g.Keys - ancestors|
  {
    assert PathFrom(g, v, [v]);
    assert EndsJson(g, [v]) && Fresh([v], ancestors);
    if v.Object? {
      Smaller(g.Keys, ancestors, v.ref);
      forall child | child in Children(g, v.ref) ensures Accepts(g, child, ancestors + {v.ref}) {
        forall path | PathFrom(g, child, path) ensures EndsJson(g, path) && Fresh(path, ancestors + {v.ref}) {
          var longer := [v] + path;
          assert longer[1..] == path;
          assert PathFrom(g, v, longer);
          assert EndsJson(g, longer) && Fresh(longer, ancestors);
        }
        PathsAccept(g, child, ancestors + {v.ref});
      }
    }
  }

  /** A path that comes back to an object where it has been is not fresh. */
  lemma {:induction false} CycleNotFresh(path: seq<Value>, ancestors: set<Ref>, i: nat, j: nat)
    requires i < j < |path| && path[i].Object? && path[i] == path[j]
    ensures !Fresh(path, ancestors)
  {
    if i > 0 {
      CycleNotFresh(path[1..], if path[0].Object? then ancestors + {path[0].ref} else ancestors, i - 1, j - 1);
    } else {
      MetNotFresh(path[1..], ancestors + {path[0].ref}, j - 1);
    }
  }

  lemma {:induction false} MetNotFresh(path: seq<Value>, ancestors: set<Ref>, j: nat)
    requires j < |path| && path[j].Object? && path[j].ref in ancestors
    ensures !Fresh(path, ancestors)
  {
    if j > 0 {
      MetNotFresh(path[1..], if path[0].Object? then ancestors + {path[0].ref} else ancestors, j - 1);
    }
  }

  /** Conversely, a path on which no object comes twice is fresh. */
  lemma {:induction false} DistinctIsFresh(path: seq<Value>, ancestors: set<Ref>)
    requires forall i, j :: 0 <= i < j < |path| && path[i].Object? ==> path[i] != path[j]
    requires forall i :: 0 <= i < |path| && path[i].Object? ==> path[i].ref !in ancestors
    ensures Fresh(path, ancestors)
  {
    if path != [] {
      var rest := path[1..];
      forall i | 0 <= i < |rest| && rest[i].Object? ensures path[0].Object? ==> rest[i].ref != path[0].ref {
        assert path[i + 1] == rest[i];
      }
      DistinctIsFresh(rest, if path[0].Object? then ancestors + {path[0].ref} else ancestors);
    }
  }

  /** No object comes twice on the path. */
  ghost predicate NoRepeat(path: seq<Value>) {
    forall i, j :: 0 <= i < j < |path| && path[i].Object? ==> path[i] != path[j]
  }

  /** What the check is for: everything reachable is of a JSON kind, and no cycle is reachable.
      Sharing without a cycle is allowed. */
  ghost predicate IsJsonGraph(g: Graph, v: Value)
    requires Closed(g)
  {
    forall path :: PathFrom(g, v, path) ==> EndsJson(g, path) && NoRepeat(path)
  }

  lemma {:induction false} FreshIffNoRepeat(path: seq<Value>)
    ensures Fresh(path, {}) <==> NoRepeat(path)
  {
    if NoRepeat(path) {
      DistinctIsFresh(path, {});
    } else {
      var i, j :| 0 <= i < j < |path| && path[i].Object? && path[i] == path[j];
      CycleNotFresh(path, {}, i, j);
    }
  }

  /** The recursion accepts a value exactly when it is a JSON graph. */
  lemma {:induction false} AcceptsIffJson(g: Graph, v: Value)
    requires Closed(g) && ValueIn(g, v)
    ensures Accepts(g, v, {}) <==> IsJsonGraph(g, v)
  {
    if Accepts(g, v, {}) {
      forall path | PathFrom(g, v, path) ensures EndsJson(g, path) && NoRepeat(path) {
        AcceptsPaths(g, v, {}, path);
        FreshIffNoRepeat(path);
      }
    }
    if IsJsonGraph(g, v) {
      forall path | PathFrom(g, v, path) ensures EndsJson(g, path) && Fresh(path, {}) {
        FreshIffNoRepeat(path);
      }
      PathsAccept(g, v, {});
    }
  }

  /** The shared set of objects on the way down. */
  class WeakSet {
    var members: set<Ref>

    constructor ()
      ensures members == {}
    {
      members := {};
    }
  }

  /** The objects on a path. */
  function Objects(path: seq<Value>): set<Ref> {
    if path == [] then {}
    else Objects(path[..|path| - 1]) + (if path[|path| - 1].Object? then {path[|path| - 1].ref} else {})
  }

  lemma {:induction false} PathExtends(g: Graph, path: seq<Value>, child: Value)
    requires Closed(g) && IsPath(g, path)
    requires (PathStaysIn(g, path); path[|path| - 1].Object? && child in Children(g, path[|path| - 1].ref))
    ensures IsPath(g, path + [child])
  {
    if |path| == 1 {
      assert (path + [child])[1..] == [child];
    } else {
      PathExtends(g, path[1..], child);
      assert (path + [child])[1..] == path[1..] + [child];
    }
  }

  /** The way down to a value: its ancestors, in order, and then the value. */
  ghost predicate LeadsTo(g: Graph, ancestors: seq<Value>, value: Value)
    requires Closed(g)
  {
    IsPath(g, ancestors + [value])
  }

  lemma {:induction false} LeadsFurther(g: Graph, ancestors: seq<Value>, value: Value, child: Value)
    requires Closed(g) && ValueIn(g, value) && LeadsTo(g, ancestors, value) && value.Object? && child in Children(g, value.ref)
    ensures LeadsTo(g, ancestors + [value], child) && Objects(ancestors + [value]) == Objects(ancestors) + {value.ref}
  {
    PathExtends(g, ancestors + [value], child);
    assert (ancestors + [value])[..|ancestors|] == ancestors;
  }

  /** The recursive check. Whenever it is called, the shared set holds exactly the objects on the
      way down to the value; on every return, early or not, it holds them again. */
  method IsJsonValue(g: Graph, value: Value, seen: WeakSet, ghost ancestors: seq<Value>) returns (valid: bool)
    requires Closed(g) && ValueIn(g, value) && LeadsTo(g, ancestors, value)
    requires seen.members == Objects(ancestors) && seen.members <= g.Keys
    modifies seen
    ensures seen.members == Objects(ancestors)
    ensures valid <==> Accepts(g, value, Objects(ancestors))
    decreases |g.Keys - seen.members|, 1
  {
    match value {
      case Null => return true;
      case Str => return true;
      case Bool => return true;
      case Number(finite) => return finite;
      case Other => return false;
      case Object(r) =>
        if r in seen.members {
          return false;
        }
        Smaller(g.Keys, seen.members, r);
        seen.members := seen.members + {r};
        if g[r].Record? && g[r].prototype == Custom {
          seen.members := seen.members - {r};
          return false;
        }
        BelowIs(g, ancestors, value);
        valid := Every(g, Children(g, r), seen, ancestors + [value]);
        seen.members := seen.members - {r};
        AcceptsObject(g, value, Objects(ancestors));
    }
  }

  lemma {:induction false} BelowIs(g: Graph, ancestors: seq<Value>, value: Value)
    requires Closed(g) && ValueIn(g, value) && LeadsTo(g, ancestors, value) && value.Object?
    ensures Objects(ancestors + [value]) == Objects(ancestors) + {value.ref}
    ensures forall child :: child in Children(g, value.ref) ==> LeadsTo(g, ancestors + [value], child)
  {
    assert (ancestors + [value])[..|ancestors|] == ancestors;
    forall child | child in Children(g, value.ref) ensures LeadsTo(g, ancestors + [value], child) {
      LeadsFurther(g, ancestors, value, child);
    }
  }

  lemma {:induction false} AcceptsObject(g: Graph, value: Value, ancestors: set<Ref>)
    requires Closed(g) && ValueIn(g, value) && ancestors <= g.Keys && value.Object? && value.ref !in ancestors
    ensures Accepts(g, value, ancestors) <==>
            LocallyJson(g, value) &&
            (Smaller(g.Keys, ancestors, value.ref);
             forall child :: child in Children(g, value.ref) ==> Accepts(g, child, ancestors + {value.ref}))
  {
    Smaller(g.Keys, ancestors, value.ref);
  }

  /** `every`, which stops at the first value that fails. */
  method Every(g: Graph, values: seq<Value>, seen: WeakSet, ghost ancestors: seq<Value>) returns (valid: bool)
    requires Closed(g) && (forall v :: v in values ==> ValueIn(g, v) && LeadsTo(g, ancestors, v))
    requires seen.members == Objects(ancestors) && seen.members <= g.Keys
    modifies seen
    ensures seen.members == Objects(ancestors)
    ensures valid <==> forall v :: v in values ==> Accepts(g, v, Objects(ancestors))
    decreases |g.Keys - seen.members|, 2
  {
    var i := 0;
    while i < |values|
      invariant 0 <= i <= |values|
      invariant seen.members == Objects(ancestors)
      invariant forall v :: v in values[..i] ==> Accepts(g, v, Objects(ancestors))
    {
      var item := IsJsonValue(g, values[i], seen, ancestors);
      if !item {
        return false;
      }
      i := i + 1;
    }
    return true;
  }

  /** The public entry: a new set, and the answer the check is for. */
  method IsJson(g: Graph, value: Value) returns (valid: bool)
    requires Closed(g) && ValueIn(g, value)
    ensures valid <==> IsJsonGraph(g, value)
  {
    var seen := new WeakSet();
    assert [] + [value] == [value];
    valid := IsJsonValue(g, value, seen, []);
    AcceptsIffJson(g, value);
  }
}
