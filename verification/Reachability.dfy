/** The call-path closure of the reachability gate (tools/reachability.py). */
module Reachability {
  import opened Wrappers
  import opened Text

  datatype Definition = Definition(qualname: string, references: set<string>, frameworkEntered: bool)

  /** The two tables of a source tree: by qualified name, with the order the keys are held in, and
      by simple name, where a name that is defined twice is listed twice. */
  datatype Tables = Tables(byQual: map<string, Definition>, order: seq<string>,
                           bySimple: map<string, seq<Definition>>) {
    /** What reading a source tree leaves: each key holds its own definition, and of the
        definitions listed under one qualified name the key holds the last. */
    ghost predicate Valid() {
      && (forall q :: q in order <==> q in byQual)
      && (forall q :: q in byQual ==> byQual[q].qualname == q)
      && (forall name :: name in bySimple ==> Settled(byQual, bySimple[name]))
    }

    /** No two definitions of the tree have one qualified name. */
    ghost predicate Unique() {
      forall name :: name in bySimple ==>
        forall i | 0 <= i < |bySimple[name]| :: Kept(byQual, bySimple[name][i])
    }

    function Listed(name: string): seq<Definition> {
      if name in bySimple then bySimple[name] else []
    }
  }

  ghost predicate Kept(byQual: map<string, Definition>, d: Definition) {
    d.qualname in byQual && byQual[d.qualname] == d
  }

  /** Every definition that lost its key stands before the one that has it. */
  ghost predicate Settled(byQual: map<string, Definition>, ds: seq<Definition>) {
    forall i :: 0 <= i < |ds| ==>
      ds[i].qualname in byQual && (Kept(byQual, ds[i]) || byQual[ds[i].qualname] in ds[i + 1..])
  }

  // ---------------------------------------------------------------- lexical nesting

  /** What stands before the last `sep`, and after it. */
  function RPartition(s: string, sep: char): Option<(string, string)> {
    if s == "" then None
    else if s[|s| - 1] == sep then Some((s[..|s| - 1], ""))
    else
      match RPartition(s[..|s| - 1], sep)
      case None => None
      case Some(cut) => Some((cut.0, cut.1 + [s[|s| - 1]]))
  }

  function Enclosing(qualname: string): Option<string> {
    var (top, inner) := Partition(qualname, ':');
    if inner.None? then None
    else
      match RPartition(inner.value, '.')
      case None => Some(top)
      case Some(cut) => Some(top + ":" + cut.0)
  }

  /** The name a definition gets inside another. */
  function Nested(prefix: string, name: string): string {
    prefix + (if ':' in prefix then "." else ":") + name
  }

  lemma {:induction false} RPartitionLast(head: string, sep: char, tail: string)
    requires sep !in tail
    ensures RPartition(head + [sep] + tail, sep) == Some((head, tail))
    decreases tail
  {
    var s := head + [sep] + tail;
    if tail == "" {
      assert s[..|s| - 1] == head;
    } else {
      var shorter := tail[..|tail| - 1];
      assert s[..|s| - 1] == head + [sep] + shorter;
      RPartitionLast(head, sep, shorter);
      assert tail == shorter + [tail[|tail| - 1]];
    }
  }

  lemma {:induction false} RPartitionParts(s: string, sep: char)
    ensures match RPartition(s, sep)
            case None => sep !in s
            case Some(cut) => sep !in cut.1 && s == cut.0 + [sep] + cut.1
  {
    if s != "" {
      RPartitionParts(s[..|s| - 1], sep);
      assert s == s[..|s| - 1] + [s[|s| - 1]];
    }
  }

  lemma {:induction false} PartitionParts(s: string, sep: char)
    ensures var (head, tail) := Partition(s, sep);
            sep !in head && s == if tail.None? then head else head + [sep] + tail.value
  {
    if s != "" {
      PartitionParts(s[1..], sep);
      assert s == [s[0]] + s[1..];
    }
  }

  /** The encloser read back from a name is the prefix the name was built on. */
  lemma EnclosingOfNested(prefix: string, name: string)
    requires '.' !in name
    ensures Enclosing(Nested(prefix, name)) == Some(prefix)
  {
    var (top, inner) := Partition(prefix, ':');
    PartitionParts(prefix, ':');
    if inner.None? {
      PartitionFirst(prefix, ':', name);
      RPartitionParts(name, '.');
    } else {
      PartitionFirst(top, ':', inner.value + "." + name);
      assert Nested(prefix, name) == top + [':'] + (inner.value + "." + name);
      RPartitionLast(inner.value, '.', name);
    }
  }

  /** A name that has an encloser was built on it. */
  lemma EnclosedIsNested(qualname: string) returns (name: string)
    requires Enclosing(qualname).Some?
    ensures '.' !in name && qualname == Nested(Enclosing(qualname).value, name)
  {
    var (top, inner) := Partition(qualname, ':');
    PartitionParts(qualname, ':');
    RPartitionParts(inner.value, '.');
    name := match RPartition(inner.value, '.') case None => inner.value case Some(cut) => cut.1;
  }

  /** A definition encloses another exactly when the other's name was built on its own. */
  lemma EnclosingIsNesting(qualname: string, prefix: string)
    ensures Enclosing(qualname) == Some(prefix) <==> exists name :: '.' !in name && qualname == Nested(prefix, name)
  {
    if Enclosing(qualname) == Some(prefix) {
      var name := EnclosedIsNested(qualname);
    }
    if name :| '.' !in name && qualname == Nested(prefix, name) {
      EnclosingOfNested(prefix, name);
    }
  }

  // ---------------------------------------------------------------- the closure

  /** The set holds the roots and is closed under lexical children and under the names that its
      definitions refer to. */
  ghost predicate Closed(t: Tables, entries: seq<string>, s: set<string>) {
    && (forall e :: e in entries && e in t.byQual ==> e in s)
    && (forall q :: q in t.byQual && t.byQual[q].frameworkEntered ==> q in s)
    && (forall q :: q in t.byQual && Enclosing(q).Some? && Enclosing(q).value in s && Enclosing(q).value in t.byQual ==>
          q in s)
    && (forall q, name :: q in s && q in t.byQual && name in t.byQual[q].references ==> HasAll(s, t.Listed(name)))
  }

  ghost predicate HasAll(s: set<string>, ds: seq<Definition>) {
    forall i :: 0 <= i < |ds| ==> ds[i].qualname in s
  }

  ghost predicate Least(t: Tables, entries: seq<string>, s: set<string>) {
    Closed(t, entries, s) && forall other :: Closed(t, entries, other) ==> s <= other
  }

  /** The definitions under `parent`, in listing order. */
  function ChildrenAmong(t: Tables, keys: seq<string>, parent: string): seq<Definition>
  {
    if keys == [] then []
    else
      var last := keys[|keys| - 1];
      ChildrenAmong(t, keys[..|keys| - 1], parent) +
      (if last in t.byQual && Enclosing(last) == Some(parent) then [t.byQual[last]] else [])
  }

  lemma {:induction false} ChildrenAreEnclosed(t: Tables, keys: seq<string>, parent: string, d: Definition)
    ensures d in ChildrenAmong(t, keys, parent) <==>
            exists q :: q in keys && q in t.byQual && Enclosing(q) == Some(parent) && t.byQual[q] == d
  {
    if keys != [] {
      var last := keys[|keys| - 1];
      assert keys == keys[..|keys| - 1] + [last];
      ChildrenAreEnclosed(t, keys[..|keys| - 1], parent, d);
    }
  }

  function Under(children: map<string, seq<Definition>>, parent: string): seq<Definition> {
    if parent in children then children[parent] else []
  }

  ghost predicate TableOf(t: Tables, keys: seq<string>, children: map<string, seq<Definition>>)
  {
    forall parent :: parent in t.byQual ==> ChildrenAmong(t, keys, parent) == Under(children, parent)
  }

  lemma OneMoreChild(t: Tables, keys: seq<string>, last: string, before: map<string, seq<Definition>>,
                     after: map<string, seq<Definition>>)
    requires last in t.byQual && TableOf(t, keys, before)
    requires var parent := Enclosing(last);
             after == if parent.Some? && parent.value in t.byQual
                      then before[parent.value := Under(before, parent.value) + [t.byQual[last]]] else before
    ensures TableOf(t, keys + [last], after)
  {
    assert (keys + [last])[..|keys|] == keys;
  }

  lemma Longer<T>(s: seq<T>, k: nat)
    requires k < |s|
    ensures s[..k + 1] == s[..k] + [s[k]]
  {
  }

  /** One key more: its definition is put under its encloser, if that is known. */
  method AddChild(t: Tables, ghost keys: seq<string>, q: string, children: map<string, seq<Definition>>)
      returns (more: map<string, seq<Definition>>)
    requires q in t.byQual && TableOf(t, keys, children)
    ensures TableOf(t, keys + [q], more)
  {
    var parent := Enclosing(q);
    more := children;
    if parent.Some? && parent.value in t.byQual {
      more := children[parent.value := Under(children, parent.value) + [t.byQual[q]]];
    }
    OneMoreChild(t, keys, q, children, more);
  }

  method ChildTable(t: Tables) returns (children: map<string, seq<Definition>>)
    requires t.Valid()
    ensures TableOf(t, t.order, children)
  {
    children := map[];
    for k := 0 to |t.order|
      invariant TableOf(t, t.order[..k], children)
    {
      assert t.order[k] in t.order;
      children := AddChild(t, t.order[..k], t.order[k], children);
      Longer(t.order, k);
    }
    assert t.order[..|t.order|] == t.order;
  }

  /** The entry points that exist, and the names of those that do not. */
  method NamedRoots(t: Tables, entries: seq<string>) returns (frontier: seq<Definition>, missing: seq<string>)
    requires t.Valid()
    ensures forall e :: e in entries && e in t.byQual ==> t.byQual[e] in frontier
    ensures forall d :: d in frontier ==> Kept(t.byQual, d) && d.qualname in entries
    ensures missing == Absent(t, entries)
  {
    frontier, missing := [], [];
    for k := 0 to |entries|
      invariant forall i :: 0 <= i < k && entries[i] in t.byQual ==> t.byQual[entries[i]] in frontier
      invariant forall d :: d in frontier ==> Kept(t.byQual, d) && d.qualname in entries
      invariant missing == Absent(t, entries[..k])
    {
      assert entries[..k + 1][..k] == entries[..k];
      if entries[k] in t.byQual {
        frontier := frontier + [t.byQual[entries[k]]];
      } else {
        missing := missing + [entries[k]];
      }
    }
    assert entries[..|entries|] == entries;
  }

  /** The handlers that a framework registers, in the order of the keys. */
  method Handlers(t: Tables) returns (handlers: seq<Definition>)
    requires t.Valid()
    ensures forall q :: q in t.byQual && t.byQual[q].frameworkEntered ==> t.byQual[q] in handlers
    ensures forall d :: d in handlers ==> Kept(t.byQual, d) && d.frameworkEntered
  {
    handlers := [];
    for k := 0 to |t.order|
      invariant forall d :: d in handlers ==> Kept(t.byQual, d) && d.frameworkEntered
      invariant forall i :: 0 <= i < k ==>
                  t.order[i] in t.byQual && (t.byQual[t.order[i]].frameworkEntered ==> t.byQual[t.order[i]] in handlers)
    {
      assert t.order[k] in t.order;
      if t.byQual[t.order[k]].frameworkEntered {
        handlers := handlers + [t.byQual[t.order[k]]];
      }
    }
    forall q | q in t.byQual && t.byQual[q].frameworkEntered ensures t.byQual[q] in handlers {
      assert q in t.order;
    }
  }

  method Roots(t: Tables, entries: seq<string>) returns (frontier: seq<Definition>, missing: seq<string>)
    requires t.Valid()
    ensures forall e :: e in entries && e in t.byQual ==> t.byQual[e] in frontier
    ensures forall q :: q in t.byQual && t.byQual[q].frameworkEntered ==> t.byQual[q] in frontier
    ensures forall d :: d in frontier ==> Kept(t.byQual, d) && (d.qualname in entries || d.frameworkEntered)
    ensures missing == Absent(t, entries)
  {
    frontier, missing := NamedRoots(t, entries);
    var handlers := Handlers(t);
    frontier := frontier + handlers;
  }

  /** The declared entry points that do not exist, in the order they are declared. */
  function Absent(t: Tables, entries: seq<string>): seq<string> {
    if entries == [] then []
    else
      var last := entries[|entries| - 1];
      Absent(t, entries[..|entries| - 1]) + (if last in t.byQual then [] else [last])
  }

  /** A definition is accounted for: reached by name, or still to be taken up. */
  ghost predicate Pending(d: Definition, frontier: seq<Definition>, reached: set<string>) {
    d.qualname in reached || d in frontier
  }

  ghost predicate AllPending(ds: seq<Definition>, frontier: seq<Definition>, reached: set<string>) {
    forall i :: 0 <= i < |ds| ==> Pending(ds[i], frontier, reached)
  }

  /** On a settled frontier the last definition of an unreached name is the one its key holds. */
  ghost predicate Fresh(t: Tables, frontier: seq<Definition>, reached: set<string>) {
    forall i :: 0 <= i < |frontier| ==>
      var d := frontier[i];
      && d.qualname in t.byQual
      && (d.qualname in reached || Kept(t.byQual, d) || t.byQual[d.qualname] in frontier[i + 1..])
  }

  lemma FreshBoth(t: Tables, a: seq<Definition>, b: seq<Definition>, reached: set<string>)
    requires Fresh(t, a, reached) && (Fresh(t, b, reached) || Settled(t.byQual, b))
    ensures Fresh(t, a + b, reached)
  {
    forall i | 0 <= i < |a + b|
      ensures var d := (a + b)[i];
              && d.qualname in t.byQual
              && (d.qualname in reached || Kept(t.byQual, d) || t.byQual[d.qualname] in (a + b)[i + 1..])
    {
      if i < |a| {
        assert (a + b)[i + 1..] == a[i + 1..] + b;
      } else {
        assert (a + b)[i + 1..] == b[i - |a| + 1..];
      }
    }
  }

  lemma FreshTaken(t: Tables, frontier: seq<Definition>, reached: set<string>)
    requires t.Valid() && frontier != [] && Fresh(t, frontier, reached)
    ensures var last := frontier[|frontier| - 1];
            && (last.qualname in reached || Kept(t.byQual, last))
            && Fresh(t, frontier[..|frontier| - 1], reached + {last.qualname})
  {
    var was, last := frontier[..|frontier| - 1], frontier[|frontier| - 1];
    assert frontier[|frontier|..] == [];
    forall i | 0 <= i < |was|
      ensures was[i].qualname in t.byQual
      ensures was[i].qualname in reached + {last.qualname} || Kept(t.byQual, was[i]) ||
              t.byQual[was[i].qualname] in was[i + 1..]
    {
      assert frontier[i] == was[i] && frontier[i + 1..] == was[i + 1..] + [last];
    }
  }

  /** Every definition listed under the names is on the frontier. */
  ghost predicate AllOn(t: Tables, names: set<string>, frontier: seq<Definition>) {
    forall name :: name in names ==> forall d :: d in t.Listed(name) ==> d in frontier
  }

  /** The frontier has grown, and only by definitions listed under the names. */
  ghost predicate GrownBy(t: Tables, names: set<string>, before: seq<Definition>, frontier: seq<Definition>) {
    && before <= frontier
    && forall d :: d in frontier ==> d in before || exists name :: name in names && d in t.Listed(name)
  }

  lemma OneMoreName(t: Tables, names: set<string>, all: set<string>, name: string, before: seq<Definition>,
                    frontier: seq<Definition>)
    requires AllOn(t, names, frontier) && GrownBy(t, all, before, frontier) && name in all
    ensures AllOn(t, names + {name}, frontier + t.Listed(name)) && GrownBy(t, all, before, frontier + t.Listed(name))
  {
  }

  /** The names of one definition that are not expanded yet, put on the frontier. */
  method ExpandNames(t: Tables, references: set<string>, expanded: set<string>, frontier: seq<Definition>,
                     ghost reached: set<string>)
      returns (nowExpanded: set<string>, nowFrontier: seq<Definition>)
    requires t.Valid() && Fresh(t, frontier, reached)
    ensures nowExpanded == expanded + references && Fresh(t, nowFrontier, reached)
    ensures AllOn(t, references - expanded, nowFrontier) && GrownBy(t, references, frontier, nowFrontier)
  {
    nowExpanded, nowFrontier := expanded, frontier;
    var todo := references;
    while todo != {}
      invariant todo <= references && nowExpanded == expanded + (references - todo)
      invariant Fresh(t, nowFrontier, reached)
      invariant AllOn(t, references - todo - expanded, nowFrontier) && GrownBy(t, references, frontier, nowFrontier)
      decreases |todo|
    {
      var name :| name in todo;
      ghost var done := references - todo - expanded;
      RestAfter(references, todo, expanded, name);
      todo := todo - {name};
      if name !in nowExpanded {
        FreshBoth(t, nowFrontier, t.Listed(name), reached);
        OneMoreName(t, done, references, name, frontier, nowFrontier);
        nowExpanded := nowExpanded + {name};
        nowFrontier := nowFrontier + t.Listed(name);
      }
    }
    assert references - {} - expanded == references - expanded;
  }

  lemma RestAfter(references: set<string>, todo: set<string>, expanded: set<string>, name: string)
    requires todo <= references && name in todo
    ensures var rest, done := references - (todo - {name}), references - todo - expanded;
            && expanded + rest == expanded + (references - todo) + {name}
            && rest - expanded == if name in expanded then done else done + {name}
  {
  }

  // ---------------------------------------------------------------- the worklist

  /** What is still owed is on the frontier. */
  ghost predicate Working(t: Tables, entries: seq<string>, frontier: seq<Definition>, reached: set<string>,
                          expanded: set<string>) {
    && reached <= t.byQual.Keys
    && (forall e :: e in entries && e in t.byQual ==> Pending(t.byQual[e], frontier, reached))
    && (forall q :: q in t.byQual && t.byQual[q].frameworkEntered ==> Pending(t.byQual[q], frontier, reached))
    && (forall q :: q in t.byQual && Enclosing(q).Some? && Enclosing(q).value in reached ==>
          Pending(t.byQual[q], frontier, reached))
    && (forall q :: q in reached ==> t.byQual[q].references <= expanded)
    && (forall name :: name in expanded ==> AllPending(t.Listed(name), frontier, reached))
  }

  /** Nothing is reached or owed that the closure does not need. */
  ghost predicate Needed(t: Tables, entries: seq<string>, frontier: seq<Definition>, reached: set<string>) {
    forall s :: Closed(t, entries, s) ==> reached <= s && forall d :: d in frontier ==> d.qualname in s
  }

  ghost predicate Going(t: Tables, entries: seq<string>, frontier: seq<Definition>, reached: set<string>,
                        expanded: set<string>) {
    && Working(t, entries, frontier, reached, expanded)
    && Needed(t, entries, frontier, reached)
    && Fresh(t, frontier, reached)
  }

  lemma InPrefix(a: seq<Definition>, b: seq<Definition>, whole: seq<Definition>, d: Definition)
    requires a + b <= whole && (d in a || d in b)
    ensures d in whole
  {
    if d in a {
      var k :| 0 <= k < |a| && a[k] == d;
      assert whole[k] == d;
    } else {
      var k :| 0 <= k < |b| && b[k] == d;
      assert whole[|a| + k] == (a + b)[|a| + k] == d;
    }
  }

  /** Taking a definition up: its children and its names' definitions are all that becomes owed. */
  lemma TakenUp(t: Tables, entries: seq<string>, was: seq<Definition>, current: Definition,
                reached: set<string>, expanded: set<string>, children: seq<Definition>, frontier: seq<Definition>)
    requires t.Valid() && Working(t, entries, was + [current], reached, expanded)
    requires Kept(t.byQual, current)
    requires children == ChildrenAmong(t, t.order, current.qualname)
    requires was + children <= frontier
    requires AllOn(t, current.references - expanded, frontier)
    ensures Working(t, entries, frontier, reached + {current.qualname}, expanded + current.references)
  {
    var now := reached + {current.qualname};
    forall d | Pending(d, was + [current], reached) ensures Pending(d, frontier, now) {
      if d in was + [current] && d.qualname !in reached && d != current {
        assert d in was;
        InPrefix(was, children, frontier, d);
      }
    }
    forall q | q in t.byQual && Enclosing(q).Some? && Enclosing(q).value in now
      ensures Pending(t.byQual[q], frontier, now)
    {
      if Enclosing(q).value == current.qualname {
        assert q in t.order;
        ChildrenAreEnclosed(t, t.order, current.qualname, t.byQual[q]);
        InPrefix(was, children, frontier, t.byQual[q]);
      }
    }
    forall name | name in expanded + current.references ensures AllPending(t.Listed(name), frontier, now) {
      if name in expanded {
        assert AllPending(t.Listed(name), was + [current], reached);
      }
    }
  }

  lemma TakenUpIsNeeded(t: Tables, entries: seq<string>, was: seq<Definition>, current: Definition,
                        reached: set<string>, children: seq<Definition>, frontier: seq<Definition>)
    requires t.Valid() && Needed(t, entries, was + [current], reached)
    requires Kept(t.byQual, current)
    requires children == ChildrenAmong(t, t.order, current.qualname)
    requires GrownBy(t, current.references, was + children, frontier)
    ensures Needed(t, entries, frontier, reached + {current.qualname})
  {
    forall s | Closed(t, entries, s)
      ensures reached + {current.qualname} <= s && forall d :: d in frontier ==> d.qualname in s
    {
      assert current in was + [current];
      forall d | d in frontier ensures d.qualname in s {
        if d in was {
          assert d in was + [current];
        } else if d in children {
          ChildrenAreEnclosed(t, t.order, current.qualname, d);
        } else {
          var name :| name in current.references && d in t.Listed(name);
          assert HasAll(s, t.Listed(name));
        }
      }
    }
  }

  lemma SkippedKeepsGoing(t: Tables, entries: seq<string>, frontier: seq<Definition>, reached: set<string>,
                          expanded: set<string>)
    requires t.Valid() && frontier != [] && Going(t, entries, frontier, reached, expanded)
    requires frontier[|frontier| - 1].qualname in reached
    ensures Going(t, entries, frontier[..|frontier| - 1], reached, expanded)
  {
    var was, last := frontier[..|frontier| - 1], frontier[|frontier| - 1];
    assert frontier == was + [last];
    FreshTaken(t, frontier, reached);
    assert reached + {last.qualname} == reached;
    assert forall d :: Pending(d, frontier, reached) ==> Pending(d, was, reached);
    forall name | name in expanded ensures AllPending(t.Listed(name), was, reached) {
      assert AllPending(t.Listed(name), frontier, reached);
    }
  }

  lemma TakenUpKeepsGoing(t: Tables, entries: seq<string>, frontier: seq<Definition>, reached: set<string>,
                          expanded: set<string>, below: seq<Definition>, after: seq<Definition>)
    requires t.Valid() && frontier != [] && Going(t, entries, frontier, reached, expanded)
    requires var current := frontier[|frontier| - 1];
             && Kept(t.byQual, current)
             && below == ChildrenAmong(t, t.order, current.qualname)
             && Fresh(t, after, reached + {current.qualname})
             && AllOn(t, current.references - expanded, after)
             && GrownBy(t, current.references, frontier[..|frontier| - 1] + below, after)
    ensures var current := frontier[|frontier| - 1];
            Going(t, entries, after, reached + {current.qualname}, expanded + current.references)
  {
    var was, current := frontier[..|frontier| - 1], frontier[|frontier| - 1];
    assert frontier == was + [current];
    TakenUp(t, entries, was, current, reached, expanded, below, after);
    TakenUpIsNeeded(t, entries, was, current, reached, below, after);
  }

  lemma ChildrenAreFresh(t: Tables, parent: string, reached: set<string>)
    requires t.Valid()
    ensures Fresh(t, ChildrenAmong(t, t.order, parent), reached)
  {
    forall d | d in ChildrenAmong(t, t.order, parent) ensures Kept(t.byQual, d) {
      ChildrenAreEnclosed(t, t.order, parent, d);
    }
    var ds := ChildrenAmong(t, t.order, parent);
    forall i | 0 <= i < |ds| ensures Kept(t.byQual, ds[i]) {
      assert ds[i] in ds;
    }
  }

  lemma RootsStart(t: Tables, entries: seq<string>, frontier: seq<Definition>)
    requires t.Valid()
    requires forall e :: e in entries && e in t.byQual ==> t.byQual[e] in frontier
    requires forall q :: q in t.byQual && t.byQual[q].frameworkEntered ==> t.byQual[q] in frontier
    requires forall d :: d in frontier ==> Kept(t.byQual, d) && (d.qualname in entries || d.frameworkEntered)
    ensures Going(t, entries, frontier, {}, {})
  {
  }

  lemma DrainedIsLeast(t: Tables, entries: seq<string>, reached: set<string>, expanded: set<string>)
    requires t.Valid() && Going(t, entries, [], reached, expanded)
    ensures Least(t, entries, reached)
  {
    forall e | e in entries && e in t.byQual ensures t.byQual[e].qualname in reached {
      assert Pending(t.byQual[e], [], reached);
    }
    forall q | q in t.byQual && (t.byQual[q].frameworkEntered || (Enclosing(q).Some? && Enclosing(q).value in reached))
      ensures t.byQual[q].qualname in reached
    {
      assert Pending(t.byQual[q], [], reached);
    }
    forall q, name | q in reached && q in t.byQual && name in t.byQual[q].references
      ensures HasAll(reached, t.Listed(name))
    {
      assert AllPending(t.Listed(name), [], reached);
      forall i | 0 <= i < |t.Listed(name)| ensures t.Listed(name)[i].qualname in reached {
        assert Pending(t.Listed(name)[i], [], reached);
      }
    }
  }

  /** The worklist reaches exactly the least closed set, although a name once expanded is never
      expanded again, and although it may come upon a definition that lost its key. */
  method Reachable(t: Tables, entries: seq<string>) returns (reached: set<string>, missing: seq<string>)
    requires t.Valid()
    ensures reached <= t.byQual.Keys
    ensures Least(t, entries, reached)
    ensures missing == Absent(t, entries)
  {
    var children := ChildTable(t);
    var frontier;
    frontier, missing := Roots(t, entries);
    var expanded: set<string> := {};
    reached := {};
    RootsStart(t, entries, frontier);
    while frontier != []
      invariant Going(t, entries, frontier, reached, expanded)
      decreases t.byQual.Keys - reached, |frontier|
    {
      ghost var before, known := frontier, expanded;
      var current := frontier[|frontier| - 1];
      FreshTaken(t, frontier, reached);
      frontier := frontier[..|frontier| - 1];
      if current.qualname in reached {
        SkippedKeepsGoing(t, entries, before, reached, expanded);
      } else {
        var below := Under(children, current.qualname);
        ChildrenAreFresh(t, current.qualname, reached + {current.qualname});
        FreshBoth(t, frontier, below, reached + {current.qualname});
        expanded, frontier := ExpandNames(t, current.references, expanded, frontier + below,
                                          reached + {current.qualname});
        TakenUpKeepsGoing(t, entries, before, reached, known, below, frontier);
        reached := reached + {current.qualname};
      }
    }
    DrainedIsLeast(t, entries, reached, expanded);
  }

  // ---------------------------------------------------------------- names defined twice

  /** Everything any listed definition of a reached name refers to is reached too. */
  ghost predicate NothingLost(t: Tables, s: set<string>) {
    forall name, i, mention |
      name in t.bySimple && 0 <= i < |t.bySimple[name]| && t.bySimple[name][i].qualname in s &&
      mention in t.bySimple[name][i].references
    ::
      HasAll(s, t.Listed(mention))
  }

  /** What every closed set holds. */
  ghost function Forced(t: Tables, entries: seq<string>): set<string> {
    set q | q in t.byQual.Keys && (forall s: set<string> :: Closed(t, entries, s) ==> q in s)
  }

  lemma EverythingIsClosed(t: Tables, entries: seq<string>)
    requires t.Valid()
    ensures Closed(t, entries, t.byQual.Keys)
  {
  }

  /** Every list of entries has a least closed set. */
  lemma LeastExists(t: Tables, entries: seq<string>)
    requires t.Valid()
    ensures Least(t, entries, Forced(t, entries))
  {
    var forced := Forced(t, entries);
    EverythingIsClosed(t, entries);
    forall q, name | q in forced && q in t.byQual && name in t.byQual[q].references
      ensures HasAll(forced, t.Listed(name))
    {
      forall i | 0 <= i < |t.Listed(name)| ensures t.Listed(name)[i].qualname in forced {
        assert HasAll(t.byQual.Keys, t.Listed(name));
        forall s | Closed(t, entries, s) ensures t.Listed(name)[i].qualname in s {
          assert q in s && HasAll(s, t.Listed(name));
        }
      }
    }
  }

  /** What a definition that lost its key refers to is in every closed set that holds its name. */
  ghost predicate ShadowedAreCovered(t: Tables) {
    forall name, i, mention |
      name in t.bySimple && 0 <= i < |t.bySimple[name]| && !Kept(t.byQual, t.bySimple[name][i]) &&
      mention in t.bySimple[name][i].references
    ::
      Covers(t, t.bySimple[name][i].qualname, mention)
  }

  ghost predicate Covers(t: Tables, qualname: string, mention: string) {
    forall s :: Closed(t, [], s) && qualname in s ==> HasAll(s, t.Listed(mention))
  }

  /** Whatever the entries, nothing is lost exactly when the shadowed definitions are covered. */
  lemma NothingIsLostExactly(t: Tables)
    requires t.Valid()
    ensures (forall entries, s :: Least(t, entries, s) ==> NothingLost(t, s)) <==> ShadowedAreCovered(t)
  {
    if ShadowedAreCovered(t) {
      forall entries, s | Least(t, entries, s) ensures NothingLost(t, s) {
        CoveredLosesNothing(t, entries, s);
      }
    }
    if forall entries, s :: Least(t, entries, s) ==> NothingLost(t, s) {
      forall name, i, mention | name in t.bySimple && 0 <= i < |t.bySimple[name]| &&
                                mention in t.bySimple[name][i].references
        ensures Covers(t, t.bySimple[name][i].qualname, mention)
      {
        var q := t.bySimple[name][i].qualname;
        var least := Forced(t, [q]);
        LeastExists(t, [q]);
        assert NothingLost(t, least);
        HeldIsCovered(t, q, mention, least);
      }
    }
  }

  lemma CoveredLosesNothing(t: Tables, entries: seq<string>, s: set<string>)
    requires t.Valid() && ShadowedAreCovered(t) && Least(t, entries, s)
    ensures NothingLost(t, s)
  {
    assert Closed(t, [], s);
    forall name, i, mention | name in t.bySimple && 0 <= i < |t.bySimple[name]| && t.bySimple[name][i].qualname in s
                              && mention in t.bySimple[name][i].references
      ensures HasAll(s, t.Listed(mention))
    {
      if !Kept(t.byQual, t.bySimple[name][i]) {
        assert Covers(t, t.bySimple[name][i].qualname, mention);
      }
    }
  }

  /** What the least set with a name among its entries holds, every closed set with the name holds. */
  lemma HeldIsCovered(t: Tables, q: string, mention: string, least: set<string>)
    requires Least(t, [q], least) && HasAll(least, t.Listed(mention))
    ensures Covers(t, q, mention)
  {
    forall s | Closed(t, [], s) && q in s ensures HasAll(s, t.Listed(mention)) {
      assert Closed(t, [q], s);
    }
  }

  /** So with unique names nothing is lost. */
  lemma UniqueLosesNothing(t: Tables, entries: seq<string>, s: set<string>)
    requires t.Valid() && t.Unique() && Least(t, entries, s)
    ensures NothingLost(t, s)
  {
    forall name, i, mention | name in t.bySimple && 0 <= i < |t.bySimple[name]| && t.bySimple[name][i].qualname in s
                              && mention in t.bySimple[name][i].references
      ensures HasAll(s, t.Listed(mention))
    {
      assert Kept(t.byQual, t.bySimple[name][i]);
    }
  }

  const TOP := Definition("m", {}, false)
  const FIRST := Definition("m:f", {"g"}, false)
  const SECOND := Definition("m:f", {}, false)
  const OTHER := Definition("m:g", {}, false)

  /** A module that defines `f` twice; only the first mentions `g`. */
  function Twice(): Tables {
    Tables(map["m" := TOP, "m:f" := SECOND, "m:g" := OTHER], ["m", "m:f", "m:g"],
           map["m" := [TOP], "f" := [FIRST, SECOND], "g" := [OTHER]])
  }

  lemma TwiceValid()
    ensures Twice().Valid()
  {
    var t := Twice();
    forall q ensures q in t.order <==> q in t.byQual {
      assert t.order[0] == "m" && t.order[1] == "m:f" && t.order[2] == "m:g";
    }
    TwiceSettled();
  }

  lemma TwiceSettled()
    ensures Settled(Twice().byQual, [FIRST, SECOND]) && Settled(Twice().byQual, [OTHER]) &&
            Settled(Twice().byQual, [TOP])
  {
    TwiceKept();
    SettledPair(Twice().byQual, FIRST, SECOND);
    SettledAlone(Twice().byQual, OTHER);
    SettledAlone(Twice().byQual, TOP);
  }

  lemma TwiceKept()
    ensures Kept(Twice().byQual, SECOND) && Kept(Twice().byQual, OTHER) && Kept(Twice().byQual, TOP)
  {
    assert |"m"| == 1 && |"m:f"| == |"m:g"| == 3 && "m:f"[2] != "m:g"[2];
  }

  lemma SettledAlone(byQual: map<string, Definition>, d: Definition)
    requires Kept(byQual, d)
    ensures Settled(byQual, [d])
  {
  }

  /** Of two definitions under one key the later has it. */
  lemma SettledPair(byQual: map<string, Definition>, first: Definition, second: Definition)
    requires Kept(byQual, second) && first.qualname == second.qualname
    ensures Settled(byQual, [first, second])
  {
    assert [first, second][1..] == [second];
  }

  lemma TwiceLeast()
    ensures Least(Twice(), ["m:f"], {"m:f"})
  {
    EnclosingOfNested("m", "f");
    EnclosingOfNested("m", "g");
    assert Nested("m", "f") == "m:f" && Nested("m", "g") == "m:g";
    assert Enclosing("m").None?;
    assert "m:f" in ["m:f"];
  }

  /** Of two definitions under one name, what only the first refers to is not reached. */
  lemma OverwrittenReferencesAreLost()
    ensures Twice().Valid() && Least(Twice(), ["m:f"], {"m:f"}) && !NothingLost(Twice(), {"m:f"})
    ensures !ShadowedAreCovered(Twice())
  {
    var t, s := Twice(), {"m:f"};
    TwiceValid();
    TwiceLeast();
    assert t.Listed("g")[0] == OTHER && !HasAll(s, t.Listed("g"));
    assert t.bySimple["f"][0] == FIRST && "g" in t.bySimple["f"][0].references;
    assert !NothingLost(t, s);
    if ShadowedAreCovered(t) {
      CoveredLosesNothing(t, ["m:f"], s);
      assert false;
    }
  }
}
