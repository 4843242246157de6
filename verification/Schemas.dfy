/**
 The build script's collection of referenced schemas: a worklist over schema names, where the body of
 a schema is scanned for references to further schemas.
 */
module Schemas {
  import opened Options

  const NEEDLE := "#/components/schemas/"

  // ---- Scanning a body ----

  predicate Occurs(body: string, p: nat) {
    p + |NEEDLE| <= |body| && body[p..p + |NEEDLE|] == NEEDLE
  }

  /** The first occurrence of the needle at or after `idx`. */
  function FindNeedle(body: string, idx: nat): (r: Option<nat>)
    ensures r.Some? ==> idx <= r.value && Occurs(body, r.value) && forall k | idx <= k < r.value :: !Occurs(body, k)
    ensures r.None? ==> forall k | idx <= k :: !Occurs(body, k)
    decreases |body| - idx
  {
    if idx + |NEEDLE| > |body| then None
    else if Occurs(body, idx) then Some(idx)
    else FindNeedle(body, idx + 1)
  }

  /** The end of a name that begins at `start`: a quote, a brace, or the end of the body. */
  function NameEnd(body: string, start: nat): (e: nat)
    requires start <= |body|
    ensures start <= e <= |body|
    ensures forall k | start <= k < e :: body[k] != '"' && body[k] != '}'
    ensures e < |body| ==> body[e] == '"' || body[e] == '}'
    decreases |body| - start
  {
    if start == |body| || body[start] == '"' || body[start] == '}' then start else NameEnd(body, start + 1)
  }

  function NameAt(body: string, p: nat): string
    requires Occurs(body, p)
  {
    body[p + |NEEDLE|..NameEnd(body, p + |NEEDLE|)]
  }

  /** The names found from `idx` on; the scan continues behind each name. */
  function Refs(body: string, idx: nat): seq<string>
    decreases |body| - idx
  {
    var found := FindNeedle(body, idx);
    if found.None? then []
    else [NameAt(body, found.value)] + Refs(body, NameEnd(body, found.value + |NEEDLE|))
  }

  /** Every name found follows an occurrence of the needle. */
  lemma {:induction false} RefsSound(body: string, idx: nat, name: string)
    requires name in Refs(body, idx)
    ensures exists p | idx <= p :: Occurs(body, p) && name == NameAt(body, p)
    decreases |body| - idx
  {
    var p := FindNeedle(body, idx).value;
    if name != NameAt(body, p) {
      RefsSound(body, NameEnd(body, p + |NEEDLE|), name);
    }
  }

  /** Every occurrence is found, unless it lies inside a name. */
  lemma {:induction false} RefsComplete(body: string, idx: nat, p: nat)
    requires idx <= p && Occurs(body, p)
    ensures || NameAt(body, p) in Refs(body, idx)
            || exists s | idx <= s < p :: Occurs(body, s) && p < NameEnd(body, s + |NEEDLE|)
    decreases |body| - idx
  {
    var first := FindNeedle(body, idx).value;
    if first < p && NameEnd(body, first + |NEEDLE|) <= p {
      RefsComplete(body, NameEnd(body, first + |NEEDLE|), p);
    }
  }

  lemma OneNeedle(body: string, before: string, name: string, after: string, p: nat)
    requires body == before + "#/components/schemas/" + name + "\"" + after
    requires '#' !in before && '#' !in name && '#' !in after
    ensures Occurs(body, p) <==> p == |before|
  {
    var text := "#/components/schemas/";
    if p == |before| {
      assert body[p..p + |text|] == text;
    } else if Occurs(body, p) {
      assert body[p] == body[p..p + |NEEDLE|][0] == '#';
      CharAt(body, before, name, after, p);
    }
  }

  lemma CharAt(body: string, before: string, name: string, after: string, p: nat)
    requires body == before + "#/components/schemas/" + name + "\"" + after && p < |body|
    ensures var text := "#/components/schemas/";
            var (i, j, k) := (|before|, |before| + |text|, |before| + |text| + |name|);
            body[p] == if p < i then before[p] else if p < j then text[p - i] else if p < k then name[p - j]
                       else if p == k then '"' else after[p - k - 1]
  {
  }

  /** A body with one reference, ended by a quote, yields exactly the name that is written there. */
  lemma OneReference(body: string, before: string, name: string, after: string, idx: nat)
    requires body == before + "#/components/schemas/" + name + "\"" + after && idx == 0
    requires '#' !in before && '#' !in name && '#' !in after && '"' !in name && '}' !in name
    ensures Refs(body, idx) == [name]
  {
    var p := |before|;
    OneNeedle(body, before, name, after, p);
    var found := FindNeedle(body, idx);
    OneNeedle(body, before, name, after, found.value);
    var start := p + |NEEDLE|;
    assert body[start..start + |name|] == name && body[start + |name|] == '"';
    var end := NameEnd(body, start);
    assert end == start + |name|;
    var next := FindNeedle(body, end);
    if next.Some? {
      OneNeedle(body, before, name, after, next.value);
    }
  }

  // ---- Reachable names ----

  type Bodies = map<string, string>

  /** The references of every schema. */
  type Graph = map<string, seq<string>>

  function GraphOf(schemas: Bodies): Graph {
    map n | n in schemas :: Refs(schemas[n], 0)
  }

  function RefsOf(graph: Graph, name: string): seq<string> {
    if name in graph then graph[name] else []
  }

  /** A chain of references from a seed to `name`. */
  ghost predicate Chain(seeds: seq<string>, graph: Graph, path: seq<string>, name: string) {
    && path != [] && path[0] in seeds && path[|path| - 1] == name
    && forall i | 0 < i < |path| :: path[i] in RefsOf(graph, path[i - 1])
  }

  ghost predicate Reachable(seeds: seq<string>, graph: Graph, name: string) {
    exists path :: Chain(seeds, graph, path, name)
  }

  lemma SeedReachable(seeds: seq<string>, graph: Graph, name: string)
    requires name in seeds
    ensures Reachable(seeds, graph, name)
  {
    assert Chain(seeds, graph, [name], name);
  }

  lemma RefReachable(seeds: seq<string>, graph: Graph, name: string, ref: string)
    requires Reachable(seeds, graph, name) && ref in RefsOf(graph, name)
    ensures Reachable(seeds, graph, ref)
  {
    var path :| Chain(seeds, graph, path, name);
    var longer := path + [ref];
    forall i | 0 < i < |longer| ensures longer[i] in RefsOf(graph, longer[i - 1]) {
      if i < |path| {
        assert path[i] in RefsOf(graph, path[i - 1]);
      }
    }
    assert Chain(seeds, graph, longer, ref);
  }

  ghost predicate Closed(seeds: seq<string>, graph: Graph, visited: seq<string>) {
    && (forall s | s in seeds :: s in visited)
    && (forall v, r | v in visited && r in RefsOf(graph, v) :: r in visited)
  }

  /** A list that contains the seeds and is closed under references contains everything reachable. */
  lemma {:induction false} ClosedContains(seeds: seq<string>, graph: Graph, visited: seq<string>, path: seq<string>, name: string)
    requires Closed(seeds, graph, visited) && Chain(seeds, graph, path, name)
    ensures name in visited
    decreases |path|
  {
    if |path| > 1 {
      var shorter := path[..|path| - 1];
      forall i | 0 < i < |shorter| ensures shorter[i] in RefsOf(graph, shorter[i - 1]) {
        assert path[i] in RefsOf(graph, path[i - 1]);
      }
      ClosedContains(seeds, graph, visited, shorter, path[|path| - 2]);
      assert path[|path| - 1] in RefsOf(graph, path[|path| - 2]);
    }
  }

  // ---- Sorting names ----

  /** Lexicographic order. */
  predicate Less(a: string, b: string) {
    b != [] && (a == [] || a[0] < b[0] || (a[0] == b[0] && Less(a[1..], b[1..])))
  }

  lemma {:induction false} LessTotal(a: string, b: string)
    ensures a == b || Less(a, b) || Less(b, a)
    decreases |a|
  {
    if a != [] && b != [] && a[0] == b[0] {
      LessTotal(a[1..], b[1..]);
      assert a == [a[0]] + a[1..] && b == [b[0]] + b[1..];
    }
  }

  lemma {:induction false} LessTransitive(a: string, b: string, c: string)
    requires Less(a, b) && Less(b, c)
    ensures Less(a, c)
    decreases |a|
  {
    if a != [] && a[0] == b[0] == c[0] {
      LessTransitive(a[1..], b[1..], c[1..]);
    }
  }

  /** The first difference decides, and a proper prefix comes first. */
  lemma {:induction false} LessAtDifference(a: string, b: string, k: nat)
    requires k <= |a| && k <= |b| && a[..k] == b[..k]
    requires k < |a| && k < |b| ==> a[k] != b[k]
    ensures Less(a, b) <==> k < |b| && (k == |a| || a[k] < b[k])
    decreases k
  {
    if k > 0 {
      assert a[0] == a[..k][0] == b[..k][0] == b[0];
      assert a[1..][..k - 1] == a[..k][1..] && b[1..][..k - 1] == b[..k][1..];
      LessAtDifference(a[1..], b[1..], k - 1);
    }
  }

  predicate Sorted(s: seq<string>) {
    forall i, j | 0 <= i < j < |s| :: Less(s[i], s[j])
  }

  function InsertName(s: seq<string>, x: string): seq<string> {
    if s == [] then [x]
    else if Less(x, s[0]) then [x] + s
    else [s[0]] + InsertName(s[1..], x)
  }

  lemma {:induction false} InsertNameSorted(s: seq<string>, x: string)
    requires Sorted(s) && x !in s
    ensures Sorted(InsertName(s, x))
    ensures forall y :: y in InsertName(s, x) <==> y == x || y in s
    decreases |s|
  {
    if s != [] {
      assert s == [s[0]] + s[1..];
      if Less(x, s[0]) {
        forall i | 0 <= i < |s| ensures Less(x, s[i]) {
          if i > 0 {
            LessTransitive(x, s[0], s[i]);
          }
        }
      } else {
        LessTotal(x, s[0]);
        InsertNameSorted(s[1..], x);
        var rest := InsertName(s[1..], x);
        forall j | 0 <= j < |rest| ensures Less(s[0], rest[j]) {
          assert rest[j] in rest;
          if rest[j] != x {
            var k :| 0 <= k < |s[1..]| && s[1..][k] == rest[j];
            assert s[k + 1] == rest[j];
          }
        }
      }
    }
  }

  function SortNames(s: seq<string>): seq<string>
    decreases |s|
  {
    if s == [] then [] else InsertName(SortNames(s[..|s| - 1]), s[|s| - 1])
  }

  ghost predicate NoRepeats(s: seq<string>) {
    forall i, j | 0 <= i < j < |s| :: s[i] != s[j]
  }

  lemma {:induction false} SortNamesSorted(s: seq<string>)
    requires NoRepeats(s)
    ensures Sorted(SortNames(s))
    ensures forall y :: y in SortNames(s) <==> y in s
    decreases |s|
  {
    if s != [] {
      var n := |s| - 1;
      SortNamesSorted(s[..n]);
      assert s[n] !in s[..n];
      InsertNameSorted(SortNames(s[..n]), s[n]);
      assert s == s[..n] + [s[n]];
    }
  }

  // ---- The worklist ----

  /** All names that can ever be queued. */
  ghost function Universe(seeds: seq<string>, graph: Graph): set<string> {
    (set s | s in seeds) + set n, r | n in graph && r in graph[n] :: r
  }

  /** Seeds and references of visited schemas are visited or queued, and nothing else is. */
  ghost predicate Explored(seeds: seq<string>, graph: Graph, visited: seq<string>, queue: seq<string>) {
    && (forall s | s in seeds :: s in visited || s in queue)
    && (forall v, r | v in visited && r in RefsOf(graph, v) :: r in visited || r in queue)
    && (forall v | v in visited :: Reachable(seeds, graph, v))
    && (forall q | q in queue :: Reachable(seeds, graph, q) && q in Universe(seeds, graph))
  }

  lemma RefsUnfold(body: string, idx: nat)
    ensures var found := FindNeedle(body, idx);
            Refs(body, idx) ==
            if found.None? then [] else [NameAt(body, found.value)] + Refs(body, NameEnd(body, found.value + |NEEDLE|))
  {
  }

  lemma FoundStep(more: seq<string>, queue: seq<string>, found: seq<string>, visited: seq<string>, name: string)
    requires forall x :: x in more <==> x in queue || (x in found && x !in visited)
    ensures forall x :: x in (if name in visited then more else more + [name]) <==>
                        x in queue || (x in found + [name] && x !in visited)
  {
  }

  /** Queues the references in a body that are not visited yet. */
  method ScanBody(body: string, visited: seq<string>, queue: seq<string>) returns (more: seq<string>)
    ensures forall x :: x in more <==> x in queue || (x in Refs(body, 0) && x !in visited)
  {
    more := queue;
    var idx := 0;
    ghost var all, found: seq<string> := Refs(body, 0), [];
    while true
      invariant idx <= |body| && found + Refs(body, idx) == all
      invariant forall x :: x in more <==> x in queue || (x in found && x !in visited)
      decreases |body| - idx
    {
      RefsUnfold(body, idx);
      var pos := FindNeedle(body, idx);
      if pos.None? {
        break;
      }
      var start := pos.value + |NEEDLE|;
      var end := NameEnd(body, start);
      var name := body[start..end];
      FoundStep(more, queue, found, visited, name);
      if name !in visited {
        more := more + [name];
      }
      assert found + ([name] + Refs(body, end)) == found + [name] + Refs(body, end);
      found := found + [name];
      idx := end;
    }
  }

  lemma ExploredStep(seeds: seq<string>, graph: Graph, visited: seq<string>, queue: seq<string>, name: string, more: seq<string>)
    requires Explored(seeds, graph, visited, queue + [name]) && name !in visited
    requires forall x :: x in more <==> x in queue || (x in RefsOf(graph, name) && x !in visited + [name])
    ensures Explored(seeds, graph, visited + [name], more)
  {
    assert name in queue + [name];
    forall q | q in more ensures Reachable(seeds, graph, q) && q in Universe(seeds, graph) {
      if q in queue {
        assert q in queue + [name];
      } else {
        RefReachable(seeds, graph, name, q);
      }
    }
    forall v, r | v in visited + [name] && r in RefsOf(graph, v) ensures r in visited + [name] || r in more {
      if v in visited {
        assert r in visited || r in queue + [name];
      }
    }
    forall s | s in seeds ensures s in visited + [name] || s in more {
      assert s in visited || s in queue + [name];
    }
  }

  /** Popping a name that was visited before loses nothing. */
  lemma ExploredSkip(seeds: seq<string>, graph: Graph, visited: seq<string>, queue: seq<string>, name: string)
    requires Explored(seeds, graph, visited, queue + [name]) && name in visited
    ensures Explored(seeds, graph, visited, queue)
  {
    assert forall x :: x in queue + [name] <==> x in queue || x == name;
  }

  lemma ExploredStart(seeds: seq<string>, graph: Graph)
    ensures Explored(seeds, graph, [], seeds)
  {
    forall s | s in seeds ensures Reachable(seeds, graph, s) {
      SeedReachable(seeds, graph, s);
    }
  }

  lemma ExploredIsClosed(seeds: seq<string>, graph: Graph, visited: seq<string>)
    requires Explored(seeds, graph, visited, [])
    ensures Closed(seeds, graph, visited)
  {
    var queue: seq<string> := [];
    forall v, r | v in visited && r in RefsOf(graph, v) ensures r in visited {
      assert r in visited || r in queue;
    }
    forall s | s in seeds ensures s in visited {
      assert s in visited || s in queue;
    }
  }

  lemma ExploredEnd(seeds: seq<string>, graph: Graph, visited: seq<string>)
    requires Explored(seeds, graph, visited, [])
    ensures forall n :: n in visited <==> Reachable(seeds, graph, n)
  {
    ExploredIsClosed(seeds, graph, visited);
    forall n | Reachable(seeds, graph, n) ensures n in visited {
      var path :| Chain(seeds, graph, path, n);
      ClosedContains(seeds, graph, visited, path, n);
    }
  }

  /** What may still be visited. */
  ghost function Unvisited(seeds: seq<string>, graph: Graph, visited: seq<string>): set<string> {
    Universe(seeds, graph) - set v | v in visited
  }

  lemma VisitShrinks(seeds: seq<string>, graph: Graph, visited: seq<string>, name: string)
    requires name in Universe(seeds, graph) && name !in visited
    ensures Unvisited(seeds, graph, visited + [name]) < Unvisited(seeds, graph, visited)
  {
    assert name in Unvisited(seeds, graph, visited) && name in visited + [name];
  }

  /** Queues the references of a name, if there is a schema for it. */
  method Expand(schemas: Bodies, name: string, visited: seq<string>, queue: seq<string>) returns (more: seq<string>)
    ensures forall x :: x in more <==> x in queue || (x in RefsOf(GraphOf(schemas), name) && x !in visited)
  {
    more := queue;
    if name in schemas {
      more := ScanBody(schemas[name], visited, queue);
    }
  }

  /** Visiting a name keeps the worklist's invariant and leaves less to visit. */
  lemma Visit(seeds: seq<string>, graph: Graph, visited: seq<string>, queue: seq<string>, name: string, more: seq<string>)
    requires Explored(seeds, graph, visited, queue + [name]) && NoRepeats(visited) && name !in visited
    requires forall x :: x in more <==> x in queue || (x in RefsOf(graph, name) && x !in visited + [name])
    ensures Explored(seeds, graph, visited + [name], more) && NoRepeats(visited + [name])
    ensures Unvisited(seeds, graph, visited + [name]) < Unvisited(seeds, graph, visited)
  {
    ExploredStep(seeds, graph, visited, queue, name, more);
    assert name in queue + [name];
    VisitShrinks(seeds, graph, visited, name);
  }

  lemma Collected(seeds: seq<string>, graph: Graph, visited: seq<string>, queue: seq<string>)
    requires Explored(seeds, graph, visited, queue) && NoRepeats(visited) && queue == []
    ensures Sorted(SortNames(visited))
    ensures forall n :: n in SortNames(visited) <==> Reachable(seeds, graph, n)
  {
    ExploredEnd(seeds, graph, visited);
    SortNamesSorted(visited);
  }

  /**
   The sorted list of exactly the names reachable from the seeds.  The worklist ends on every schema
   graph, cyclic ones included.
   */
  method CollectReferencedSchemas(seeds: seq<string>, schemas: Bodies) returns (names: seq<string>)
    ensures Sorted(names)
    ensures forall n :: n in names <==> Reachable(seeds, GraphOf(schemas), n)
  {
    var visited: seq<string>, queue := [], seeds;
    ghost var graph := GraphOf(schemas);
    ExploredStart(seeds, graph);
    while queue != []
      invariant Explored(seeds, graph, visited, queue) && NoRepeats(visited)
      decreases Unvisited(seeds, graph, visited), |queue|
    {
      var name, rest := queue[|queue| - 1], queue[..|queue| - 1];
      assert queue == rest + [name];
      if name in visited {
        ExploredSkip(seeds, graph, visited, rest, name);
        queue := rest;
        continue;
      }
      var more := Expand(schemas, name, visited + [name], rest);
      Visit(seeds, graph, visited, rest, name, more);
      visited, queue := visited + [name], more;
    }
    names := SortNames(visited);
    Collected(seeds, graph, visited, queue);
  }
}
