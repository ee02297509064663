/** Searches that run while an insertion publishes its links (kv/db/skiplist.h): every load and every link write is a
    step of its own, in any order. */
module SkipListReaders {
  import opened Format
  import opened SkipLists

  /** A call of FindGreaterOrEqual without `prev`: where it is, and its result once it has one. */
  datatype Reader = Walking(target: UserKey, x: Node, level: nat) | Done(target: UserKey, result: Node?)

  datatype World = World(head: Node, links: Links, lists: seq<seq<Node>>, max: nat, readers: map<nat, Reader>)

  datatype Step =
    | Allocate(x: Node, memory: seq<Node?>, max: nat)
    | Prepare(l: nat, x: Node, v: Node?)
    | Publish(l: nat, x: Node, p: Node, k: nat)
    | Start(id: nat, target: UserKey, level: nat)
    | Load(id: nat)

  ghost predicate Next(w: World, step: Step, w': World) {
    match step
    // NewNode, and max_height_ raised
    case Allocate(x, memory, max) =>
      && x !in w.links && w.max <= max <= MAX_HEIGHT
      && w' == w.(links := w.links[x := memory], max := max)
    // NoBarrier_SetNext on a node that is not linked at that level
    case Prepare(l, x, v) =>
      && l < |w.lists| && x != w.head && x !in w.lists[l] && Has(w.links, x, l)
      && w' == w.(links := w.links[x := w.links[x][l := v]])
    // SetNext on the predecessor; the node's own link is prepared
    case Publish(l, x, p, k) =>
      && SkipLists.Ready(w.head, w.links, w.lists, l, x, p, k) && l < w.max && Has(w.links, p, l) && x !in w.lists[l]
      && w.links[x][l] == w.links[p][l]
      && w' == w.(links := w.links[p := w.links[p][l := x]], lists := w.lists[l := Inserted(w.lists[l], k, x)])
    // a reader may see any value max_height_ ever had
    case Start(id, target, level) =>
      && level < MAX_HEIGHT
      && w' == w.(readers := w.readers[id := Walking(target, w.head, level)])
    // one load of a link and what the search does with it
    case Load(id) =>
      && id in w.readers && w.readers[id].Walking?
      && var r := w.readers[id];
         && Has(w.links, r.x, r.level)
         && w' == w.(readers := w.readers[id := After(r, w.links[r.x][r.level])])
  }

  function After(r: Reader, next: Node?): Reader
    requires r.Walking?
  {
    if next != null && next.key < r.target then r.(x := next)
    else if r.level > 0 then r.(level := r.level - 1)
    else Done(r.target, next)
  }

  /** `x` is the first node at or after the key, or null if there is none. */
  ghost predicate FirstFrom(list: seq<Node>, key: UserKey, x: Node?) {
    exists i: nat :: SplitAt(list, key, i) && x == if i < |list| then list[i] else null
  }

  /** A walking reader stands at a node that is linked at its level and comes before its target. */
  ghost predicate ReaderOk(w: World, r: Reader) {
    r.Walking? ==> r.level < MAX_HEIGHT == |w.lists| && (r.x == w.head || (r.x in w.lists[r.level] && r.x.key < r.target))
  }

  ghost predicate Invariant(w: World) {
    && Shape(w.head, w.links, w.lists, w.max)
    && forall id :: id in w.readers ==> ReaderOk(w, w.readers[id])
  }

  lemma PublishPrepared(w: World, l: nat, x: Node, p: Node, k: nat, w': World)
    requires Invariant(w) && Next(w, Publish(l, x, p, k), w')
    ensures Shape(w'.head, w'.links, w'.lists, w'.max)
  {
    PublishKeepsShape(w.head, w.links, w.lists, w.max, l, x, p, k);
    assert p != x by {
      assert k > 0 ==> p in w.lists[l];
    }
    assert w.links[x][l := w.links[p][l]] == w.links[x];
    assert w.links[x := w.links[x]] == w.links;
    assert w'.links == Published(w.links, l, x, p);
  }

  /** The lists only grow, so a reader's place stays a place. */
  lemma PublishReaders(w: World, l: nat, x: Node, p: Node, k: nat, w': World)
    requires Invariant(w) && Next(w, Publish(l, x, p, k), w')
    ensures forall id :: id in w'.readers ==> ReaderOk(w', w'.readers[id])
  {
    InsertedMembers(w.lists[l], k, x);
    forall id | id in w'.readers ensures ReaderOk(w', w'.readers[id]) {
      assert ReaderOk(w, w.readers[id]);
    }
  }

  /** What a reader loads is what the list of its level says comes next. */
  lemma LoadsNext(w: World, r: Reader) returns (i: nat)
    requires Invariant(w) && r.Walking? && ReaderOk(w, r)
    ensures i <= |w.lists[r.level]| && r.x == Before(w.head, w.lists[r.level], i)
    ensures forall j :: 0 <= j < i ==> w.lists[r.level][j].key < r.target
    ensures Ordered(w.lists[r.level]) && LinkOk(w.head, w.links, w.lists[r.level], r.level, i)
  {
    var list := w.lists[r.level];
    i := 0;
    if r.x != w.head {
      var k :| 0 <= k < |list| && list[k] == r.x;
      i := k + 1;
    }
    LinkAt(w.head, w.links, w.lists, w.max, r.level, i);
  }

  lemma LoadKeeps(w: World, id: nat, w': World)
    requires Invariant(w) && Next(w, Load(id), w')
    ensures Invariant(w')
    ensures w'.readers[id].Done? ==> FirstFrom(w.lists[0], w.readers[id].target, w'.readers[id].result)
  {
    var r := w.readers[id];
    assert ReaderOk(w, r);
    var i := LoadsNext(w, r);
    var list := w.lists[r.level];
    var next := w.links[r.x][r.level];
    if w'.readers[id].Done? {
      assert SplitAt(list, r.target, i);
    } else if next == null || next.key >= r.target {
      assert Nested(list, w.lists[r.level - 1]);
    }
    forall j | j in w'.readers ensures ReaderOk(w', w'.readers[j]) {
      assert j != id ==> ReaderOk(w, w.readers[j]);
    }
  }

  lemma StepKeeps(w: World, step: Step, w': World)
    requires Invariant(w) && Next(w, step, w')
    ensures Invariant(w')
  {
    match step
    case Allocate(x, memory, max) =>
      AllocateKeepsShape(w.head, w.links, w.lists, w.max, x, memory, max);
      SameLists(w, w');
    case Prepare(l, x, v) =>
      PrivateKeepsShape(w.head, w.links, w.lists, w.max, l, x, v);
      SameLists(w, w');
    case Publish(l, x, p, k) =>
      PublishPrepared(w, l, x, p, k, w');
      PublishReaders(w, l, x, p, k, w');
    case Start(id, target, level) =>
      forall j | j in w'.readers ensures ReaderOk(w', w'.readers[j]) {
        assert j != id ==> ReaderOk(w, w.readers[j]);
      }
    case Load(id) => LoadKeeps(w, id, w');
  }

  lemma SameLists(w: World, w': World)
    requires Invariant(w) && w'.lists == w.lists && w'.head == w.head && w'.readers == w.readers
    ensures forall id :: id in w'.readers ==> ReaderOk(w', w'.readers[id])
  {
    forall id | id in w'.readers ensures ReaderOk(w', w'.readers[id]) {
      assert ReaderOk(w, w.readers[id]);
    }
  }

  ghost predicate IsRun(states: seq<World>, steps: seq<Step>) {
    && |states| == |steps| + 1 && states[0].readers == map[]
    && Shape(states[0].head, states[0].links, states[0].lists, states[0].max)
    && forall i :: 0 <= i < |steps| ==> Next(states[i], steps[i], states[i + 1])
  }

  lemma {:induction false} RunInvariant(states: seq<World>, steps: seq<Step>, i: nat)
    requires IsRun(states, steps) && i < |states|
    ensures Invariant(states[i])
  {
    if i > 0 {
      RunInvariant(states, steps, i - 1);
      StepKeeps(states[i - 1], steps[i - 1], states[i]);
    }
  }

  /** In every interleaving with insertions, a search that returns at step `i` returns the first node at or after its
      target in the bottom list as it is at that moment. */
  lemma SearchesAreCorrect(states: seq<World>, steps: seq<Step>, i: nat, id: nat)
    requires IsRun(states, steps) && i < |steps| && steps[i] == Load(id)
    ensures id in states[i].readers && id in states[i + 1].readers && |states[i].lists| == MAX_HEIGHT
    ensures states[i + 1].readers[id].Done? ==>
              FirstFrom(states[i].lists[0], states[i].readers[id].target, states[i + 1].readers[id].result)
  {
    RunInvariant(states, steps, i);
    assert Next(states[i], steps[i], states[i + 1]);
    LoadKeeps(states[i], id, states[i + 1]);
  }

  /** No reader ever follows a link that has not been written: it can always take its next step. */
  lemma LoadsAreDefined(states: seq<World>, steps: seq<Step>, i: nat, id: nat)
    requires IsRun(states, steps) && i < |states| && id in states[i].readers && states[i].readers[id].Walking?
    ensures var w := states[i]; var r := w.readers[id];
            && r.level < |w.lists| && Has(w.links, r.x, r.level)
            && var next := w.links[r.x][r.level]; next == null || next in w.lists[r.level]
  {
    RunInvariant(states, steps, i);
    assert ReaderOk(states[i], states[i].readers[id]);
    var k := LoadsNext(states[i], states[i].readers[id]);
  }
}
