/**
  The single-producer/single-consumer queue of xrtc_server/src/base/lock_free_queue.h,
  at the granularity of one shared pointer read or write per step.

  The producer and the consumer are two program counters over one memory; any
  interleaving of their steps is a run. Memory is sequentially consistent, and the
  allocator may hand out any address that is not currently live, so the address of a
  deleted node can come back.
 */
module LockFreeQueue {

  type Addr = nat

  const NULLPTR: Addr := 0

  datatype Node<T> = Node(value: T, next: Addr)

  /** Where the producer stands inside `produce`; the comments give the next step. */
  datatype ProducerPc<T> =
    | PIdle                                      // not inside produce
    | PAllocate(t: T)                            // line 63: new Node(t)
    | PLinkRead(node: Addr)                      // line 63: read last
    | PLinkWrite(node: Addr, l: Addr)            // line 63: write l->next
    | PAdvanceRead                               // line 64: read last
    | PAdvanceNext(l: Addr)                      // line 64: read l->next
    | PAdvanceWrite(n: Addr)                     // line 64: write last
    | PCount                                     // line 65: ++_size
    | PTrimDivider                               // line 67: read divider
    | PTrimFirst(d: Addr)                        // line 67: read first, compare
    | PTempRead                                  // line 68: read first
    | PSkipRead(temp: Addr)                      // line 69: read first
    | PSkipNext(temp: Addr, f: Addr)             // line 69: read f->next
    | PSkipWrite(temp: Addr, n: Addr)            // line 69: write first
    | PDelete(temp: Addr)                        // line 70: delete temp
    | PReport                                    // line 73: read _size, return

  /** Where the consumer stands inside `consume`. */
  datatype ConsumerPc<T> =
    | CIdle                                      // not inside consume
    | CTestDivider                               // line 77: read divider
    | CTestLast(d: Addr)                         // line 77: read last, compare
    | CFetchRead                                 // line 78: read divider
    | CFetchNext(d: Addr)                        // line 78: read d->next
    | CFetchValue(n: Addr)                       // line 78: read n->value
    | CMoveRead(r: T)                            // line 79: read divider
    | CMoveNext(r: T, d: Addr)                   // line 79: read d->next
    | CMoveWrite(r: T, n: Addr)                  // line 79: write divider
    | CCount                                     // line 80: --_size
    | CReport                                    // line 81: read _size, return true
    | CFail                                      // line 85: read _size, return false

  /** The shared memory. `fault` records a touch of an address that is not live. */
  datatype Memory<T> = Memory(
    heap: map<Addr, Node<T>>, first: Addr, divider: Addr, last: Addr, size: int, fault: bool)

  /**
    History of the run; no step reads it to decide what to do.
    `linked` lists every node in the order it was linked, starting with the dummy node of
    the constructor; `fi`, `di`, `li` are the positions of `first`, `divider` and `last` in
    it, `freed` the number of deletes so far, `seen` the position of the divider that line
    67 read last. `owed` says whether a returned `produce` was still unconsumed when the
    current `consume` was called.
   */
  datatype History<T> = History(
    produced: seq<T>, returned: nat, consumed: seq<T>, owed: bool,
    linked: seq<Addr>, fi: nat, di: nat, li: nat, freed: nat, seen: nat)

  datatype State<T> = State(m: Memory<T>, p: ProducerPc<T>, c: ConsumerPc<T>, h: History<T>)

  /** One scheduling decision. */
  datatype Action<T> =
    | CallProduce(t: T)
    | Allocate(a: Addr)
    | Producer
    | CallConsume
    | Consumer

  ghost function Init<T>(dummy: T, a: Addr): (s: State<T>)
    requires a != NULLPTR
  {
    State(
      Memory(map[a := Node(dummy, NULLPTR)], a, a, a, 0, false),
      PIdle, CIdle,
      History([], 0, [], false, [a], 0, 0, 0, 0, 0))
  }

  ghost predicate Enabled<T>(s: State<T>, act: Action<T>) {
    match act
    case CallProduce(_) => s.p.PIdle?
    case Allocate(a) => s.p.PAllocate? && a != NULLPTR && a !in s.m.heap
    case Producer => !s.p.PIdle? && !s.p.PAllocate?
    case CallConsume => s.c.CIdle?
    case Consumer => !s.c.CIdle?
  }

  ghost function Step<T>(s: State<T>, act: Action<T>): (s': State<T>)
    requires Enabled(s, act)
  {
    match act
    case CallProduce(t) => s.(p := PAllocate(t), h := s.h.(produced := s.h.produced + [t]))
    case Allocate(a) =>
      s.(m := s.m.(heap := s.m.heap[a := Node(s.p.t, NULLPTR)]), p := PLinkRead(a))
    case Producer => ProducerStep(s)
    case CallConsume => s.(c := CTestDivider, h := s.h.(owed := s.h.returned > |s.h.consumed|))
    case Consumer => ConsumerStep(s)
  }

  ghost function Fault<T>(s: State<T>): State<T> {
    s.(m := s.m.(fault := true), p := PIdle, c := CIdle)
  }

  ghost function ProducerStep<T>(s: State<T>): (s': State<T>)
    requires !s.p.PIdle? && !s.p.PAllocate?
  {
    var m, h := s.m, s.h;
    match s.p
    case PLinkRead(node) => s.(p := PLinkWrite(node, m.last))
    case PLinkWrite(node, l) =>
      if l !in m.heap then Fault(s) else
      s.(m := m.(heap := m.heap[l := m.heap[l].(next := node)]),
         p := PAdvanceRead,
         h := h.(linked := h.linked + [node]))
    case PAdvanceRead => s.(p := PAdvanceNext(m.last))
    case PAdvanceNext(l) =>
      if l !in m.heap then Fault(s) else s.(p := PAdvanceWrite(m.heap[l].next))
    case PAdvanceWrite(n) => s.(m := m.(last := n), p := PCount, h := h.(li := h.li + 1))
    case PCount => s.(m := m.(size := m.size + 1), p := PTrimDivider)
    case PTrimDivider => s.(p := PTrimFirst(m.divider), h := h.(seen := h.di))
    case PTrimFirst(d) => s.(p := if d != m.first then PTempRead else PReport)
    case PTempRead => s.(p := PSkipRead(m.first))
    case PSkipRead(temp) => s.(p := PSkipNext(temp, m.first))
    case PSkipNext(temp, f) =>
      if f !in m.heap then Fault(s) else s.(p := PSkipWrite(temp, m.heap[f].next))
    case PSkipWrite(temp, n) => s.(m := m.(first := n), p := PDelete(temp), h := h.(fi := h.fi + 1))
    case PDelete(temp) =>
      if temp !in m.heap then Fault(s) else
      s.(m := m.(heap := m.heap - {temp}), p := PTrimDivider, h := h.(freed := h.freed + 1))
    case PReport => s.(p := PIdle, h := h.(returned := h.returned + 1))
  }

  ghost function ConsumerStep<T>(s: State<T>): (s': State<T>)
    requires !s.c.CIdle?
  {
    var m, h := s.m, s.h;
    match s.c
    case CTestDivider => s.(c := CTestLast(m.divider))
    case CTestLast(d) => s.(c := if d != m.last then CFetchRead else CFail)
    case CFetchRead => s.(c := CFetchNext(m.divider))
    case CFetchNext(d) =>
      if d !in m.heap then Fault(s) else s.(c := CFetchValue(m.heap[d].next))
    case CFetchValue(n) =>
      if n !in m.heap then Fault(s) else s.(c := CMoveRead(m.heap[n].value))
    case CMoveRead(r) => s.(c := CMoveNext(r, m.divider))
    case CMoveNext(r, d) =>
      if d !in m.heap then Fault(s) else s.(c := CMoveWrite(r, m.heap[d].next))
    case CMoveWrite(r, n) =>
      s.(m := m.(divider := n), c := CCount, h := h.(di := h.di + 1, consumed := h.consumed + [r]))
    case CCount => s.(m := m.(size := m.size - 1), c := CReport)
    case CReport => s.(c := CIdle)
    case CFail => s.(c := CIdle)
  }

  /** A schedule: the actions taken one after the other from a fresh queue. */
  ghost predicate Feasible<T>(s: State<T>, acts: seq<Action<T>>)
    decreases |acts|
  {
    acts == [] || (Enabled(s, acts[0]) && Feasible(Step(s, acts[0]), acts[1..]))
  }

  ghost function Run<T>(s: State<T>, acts: seq<Action<T>>): (s': State<T>)
    requires Feasible(s, acts)
    decreases |acts|
  {
    if acts == [] then s else Run(Step(s, acts[0]), acts[1..])
  }

  // ---------------------------------------------------------------------------------
  // The inductive invariant

  /** A node has been allocated but not linked yet. */
  ghost predicate Pending<T>(p: ProducerPc<T>) { p.PLinkRead? || p.PLinkWrite? }

  /** A node has been linked but `last` does not point at it yet. */
  ghost predicate Advancing<T>(p: ProducerPc<T>) { p.PAdvanceRead? || p.PAdvanceNext? || p.PAdvanceWrite? }

  ghost predicate Positions<T>(m: Memory<T>, p: ProducerPc<T>, h: History<T>) {
    && h.freed <= h.fi <= h.di <= h.li < |h.linked|
    && h.fi == (if p.PDelete? then h.freed + 1 else h.freed)
    && |h.linked| == h.li + (if Advancing(p) then 2 else 1)
    && |h.produced| == |h.linked| - 1 + (if p.PAllocate? || Pending(p) then 1 else 0)
    && h.returned == |h.produced| - (if p.PIdle? then 0 else 1)
    && m.first == h.linked[h.fi]
    && m.divider == h.linked[h.di]
    && m.last == h.linked[h.li]
  }

  /** The node at position k is live, chained to its successor and holds its value. */
  ghost predicate NodeAt<T>(heap: map<Addr, Node<T>>, linked: seq<Addr>, produced: seq<T>, k: nat)
    requires k < |linked| <= |produced| + 1
  {
    && linked[k] != NULLPTR
    && linked[k] in heap
    && heap[linked[k]].next == (if k + 1 < |linked| then linked[k + 1] else NULLPTR)
    && (k > 0 ==> heap[linked[k]].value == produced[k - 1])
  }

  /** So are all nodes from the oldest undeleted one on, and they are distinct. */
  ghost predicate Chained<T>(heap: map<Addr, Node<T>>, linked: seq<Addr>, freed: nat, produced: seq<T>) {
    && |linked| <= |produced| + 1
    && (forall k :: freed <= k < |linked| ==> NodeAt(heap, linked, produced, k))
    && (forall j, k :: freed <= j < k < |linked| ==> linked[j] != linked[k])
  }

  /** Nothing is live except those nodes and the one being added: no leak. */
  ghost predicate NoLeak<T>(heap: map<Addr, Node<T>>, live: seq<Addr>, p: ProducerPc<T>) {
    forall a :: a in heap ==> a in live || (Pending(p) && a == p.node)
  }

  ghost predicate ProducerFacts<T>(m: Memory<T>, p: ProducerPc<T>, h: History<T>)
    requires Positions(m, p, h)
  {
    match p
    case PAllocate(t) => t == h.produced[|h.produced| - 1]
    case PLinkRead(node) => NewNode(m.heap, h, node)
    case PLinkWrite(node, l) => NewNode(m.heap, h, node) && l == m.last
    case PAdvanceNext(l) => l == m.last
    case PAdvanceWrite(n) => n == h.linked[h.li + 1]
    case PTrimFirst(d) => h.fi <= h.seen <= h.di && d == h.linked[h.seen]
    case PTempRead => h.fi < h.di
    case PSkipRead(temp) => h.fi < h.di && temp == m.first
    case PSkipNext(temp, f) => h.fi < h.di && temp == m.first && f == m.first
    case PSkipWrite(temp, n) => h.fi < h.di && temp == m.first && n == h.linked[h.fi + 1]
    case PDelete(temp) => temp == h.linked[h.freed]
    case _ => true
  }

  ghost predicate NewNode<T>(heap: map<Addr, Node<T>>, h: History<T>, node: Addr) {
    && node != NULLPTR
    && node in heap
    && |h.produced| > 0
    && heap[node] == Node(h.produced[|h.produced| - 1], NULLPTR)
    && (forall k :: h.freed <= k < |h.linked| ==> h.linked[k] != node)
  }

  ghost predicate ConsumerFacts<T>(m: Memory<T>, c: ConsumerPc<T>, h: History<T>)
    requires h.di <= h.li < |h.linked| <= |h.produced| + 1
  {
    && |h.consumed| == h.di
    && h.consumed == h.produced[..h.di]
    && match c
       case CTestDivider => h.owed ==> h.di < h.li
       case CTestLast(d) => d == m.divider && (h.owed ==> h.di < h.li)
       case CFetchRead => h.di < h.li
       case CFetchNext(d) => h.di < h.li && d == m.divider
       case CFetchValue(n) => h.di < h.li && n == h.linked[h.di + 1]
       case CMoveRead(r) => h.di < h.li && r == h.produced[h.di]
       case CMoveNext(r, d) => h.di < h.li && r == h.produced[h.di] && d == m.divider
       case CMoveWrite(r, n) => h.di < h.li && r == h.produced[h.di] && n == h.linked[h.di + 1]
       case CFail => !h.owed
       case _ => true
  }

  ghost predicate SizeTracks<T>(s: State<T>) {
    s.m.size == s.h.li - s.h.di - (if s.p.PCount? then 1 else 0) + (if s.c.CCount? then 1 else 0)
  }

  ghost predicate Inv<T>(s: State<T>) {
    && !s.m.fault
    && Positions(s.m, s.p, s.h)
    && Chained(s.m.heap, s.h.linked, s.h.freed, s.h.produced)
    && NoLeak(s.m.heap, s.h.linked[s.h.freed..], s.p)
    && ProducerFacts(s.m, s.p, s.h)
    && ConsumerFacts(s.m, s.c, s.h)
    && SizeTracks(s)
  }

  lemma InitInv<T>(dummy: T, a: Addr)
    requires a != NULLPTR
    ensures Inv(Init(dummy, a))
  {
    var s := Init(dummy, a);
    assert s.h.linked[s.h.freed..] == [a];
  }

  // How the three operations on the chain keep it well formed.

  lemma ChainAwaits<T>(heap: map<Addr, Node<T>>, linked: seq<Addr>, freed: nat, produced: seq<T>, t: T)
    requires Chained(heap, linked, freed, produced)
    ensures Chained(heap, linked, freed, produced + [t])
  {
    forall k | freed <= k < |linked| ensures NodeAt(heap, linked, produced + [t], k) {
      assert NodeAt(heap, linked, produced, k);
    }
  }

  lemma ChainIgnores<T>(heap: map<Addr, Node<T>>, linked: seq<Addr>, freed: nat, produced: seq<T>, a: Addr, n: Node<T>)
    requires Chained(heap, linked, freed, produced) && a !in heap
    ensures Chained(heap[a := n], linked, freed, produced)
    ensures forall k :: freed <= k < |linked| ==> linked[k] != a
  {
    forall k | freed <= k < |linked| ensures linked[k] != a && NodeAt(heap[a := n], linked, produced, k) {
      assert NodeAt(heap, linked, produced, k);
    }
  }

  lemma ChainGrows<T>(heap: map<Addr, Node<T>>, linked: seq<Addr>, freed: nat, produced: seq<T>, node: Addr)
    requires Chained(heap, linked, freed, produced) && freed < |linked| <= |produced|
    requires node != NULLPTR && node in heap && heap[node] == Node(produced[|linked| - 1], NULLPTR)
    requires forall k :: freed <= k < |linked| ==> linked[k] != node
    ensures var l := linked[|linked| - 1];
            l in heap && Chained(heap[l := heap[l].(next := node)], linked + [node], freed, produced)
  {
    var last := |linked| - 1;
    assert NodeAt(heap, linked, produced, last);
    var heap' := heap[linked[last] := heap[linked[last]].(next := node)];
    forall k | freed <= k < |linked| + 1 ensures NodeAt(heap', linked + [node], produced, k) {
      if k < |linked| { assert NodeAt(heap, linked, produced, k); }
    }
  }

  lemma ChainDrops<T>(heap: map<Addr, Node<T>>, linked: seq<Addr>, freed: nat, produced: seq<T>)
    requires Chained(heap, linked, freed, produced) && freed < |linked|
    ensures linked[freed] in heap
    ensures Chained(heap - {linked[freed]}, linked, freed + 1, produced)
  {
    assert NodeAt(heap, linked, produced, freed);
    forall k | freed < k < |linked| ensures NodeAt(heap - {linked[freed]}, linked, produced, k) {
      assert NodeAt(heap, linked, produced, k);
    }
  }

  lemma CallProduceKeepsInv<T>(s: State<T>, t: T)
    requires Inv(s) && s.p.PIdle?
    ensures Inv(Step(s, CallProduce(t)))
  {
    ChainAwaits(s.m.heap, s.h.linked, s.h.freed, s.h.produced, t);
  }

  lemma AllocateKeepsInv<T>(s: State<T>, a: Addr)
    requires Inv(s) && Enabled(s, Allocate(a))
    ensures Inv(Step(s, Allocate(a)))
  {
    ChainIgnores(s.m.heap, s.h.linked, s.h.freed, s.h.produced, a, Node(s.p.t, NULLPTR));
  }

  lemma LinkKeepsInv<T>(s: State<T>)
    requires Inv(s) && s.p.PLinkWrite?
    ensures Inv(ProducerStep(s))
  {
    ChainGrows(s.m.heap, s.h.linked, s.h.freed, s.h.produced, s.p.node);
    LinkLeaksNothing(s.m.heap, s.h.linked, s.h.freed, s.p);
    hide Chained, NoLeak;
  }

  lemma LinkLeaksNothing<T>(heap: map<Addr, Node<T>>, linked: seq<Addr>, freed: nat, p: ProducerPc<T>)
    requires freed <= |linked| && p.PLinkWrite? && p.l in heap && NoLeak(heap, linked[freed..], p)
    ensures NoLeak(heap[p.l := heap[p.l].(next := p.node)], (linked + [p.node])[freed..], PAdvanceRead)
  {
    assert (linked + [p.node])[freed..] == linked[freed..] + [p.node];
  }

  lemma NoLeakSame<T>(heap: map<Addr, Node<T>>, live: seq<Addr>, p: ProducerPc<T>, q: ProducerPc<T>)
    requires NoLeak(heap, live, p) && !Pending(p) && !Pending(q)
    ensures NoLeak(heap, live, q)
  {
  }

  lemma DeleteKeepsInv<T>(s: State<T>)
    requires Inv(s) && s.p.PDelete?
    ensures Inv(ProducerStep(s))
  {
    var h := s.h;
    ChainDrops(s.m.heap, h.linked, h.freed, h.produced);
    assert h.linked[h.freed..] == [h.linked[h.freed]] + h.linked[h.freed + 1..];
  }

  /** Moving `last` onto the new node: the heap and the chain stay. */
  lemma AdvanceReadKeepsInv<T>(s: State<T>)
    requires Inv(s) && s.p.PAdvanceRead?
    ensures Inv(ProducerStep(s))
  {
    assert NodeAt(s.m.heap, s.h.linked, s.h.produced, s.h.li);
    NoLeakSame(s.m.heap, s.h.linked[s.h.freed..], s.p, ProducerStep(s).p);
    assert ProducerStep(s) == s.(p := PAdvanceNext(s.m.last));
    hide Chained, NoLeak, ProducerStep;
  }

  lemma AdvanceNextKeepsInv<T>(s: State<T>)
    requires Inv(s) && s.p.PAdvanceNext?
    ensures Inv(ProducerStep(s))
  {
    assert NodeAt(s.m.heap, s.h.linked, s.h.produced, s.h.li);
    NoLeakSame(s.m.heap, s.h.linked[s.h.freed..], s.p, ProducerStep(s).p);
    assert ProducerStep(s) == s.(p := PAdvanceWrite(s.m.heap[s.m.last].next));
    hide Chained, NoLeak, ProducerStep;
  }

  lemma AdvanceWriteKeepsInv<T>(s: State<T>)
    requires Inv(s) && s.p.PAdvanceWrite?
    ensures Inv(ProducerStep(s))
  {
    var (m, h) := (s.m.(last := s.p.n), s.h.(li := s.h.li + 1));
    NoLeakSame(s.m.heap, s.h.linked[s.h.freed..], s.p, PCount);
    assert ProducerStep(s) == s.(m := m, p := PCount, h := h);
    assert Positions(m, PCount, h) && SizeTracks(ProducerStep(s));
    ConsumerKeepsUp(s.m, s.c, s.h, s.p.n);
    hide Chained, NoLeak, ProducerStep, ConsumerFacts, Positions;
  }

  /** The consumer does not mind values being added. */
  lemma ConsumerKeepsUp<T>(m: Memory<T>, c: ConsumerPc<T>, h: History<T>, n: Addr)
    requires h.di <= h.li && h.li + 1 < |h.linked| <= |h.produced| + 1 && ConsumerFacts(m, c, h)
    ensures ConsumerFacts(m.(last := n), c, h.(li := h.li + 1))
  {
  }

  lemma LinkReadAndCountKeepInv<T>(s: State<T>)
    requires Inv(s) && (s.p.PLinkRead? || s.p.PCount?)
    ensures Inv(ProducerStep(s))
  {
    hide Chained;
  }

  /** Producer steps of the trimming loop, up to the delete. */
  lemma TrimKeepsInv<T>(s: State<T>)
    requires Inv(s) && (s.p.PTrimDivider? || s.p.PTrimFirst? || s.p.PTempRead? || s.p.PReport?)
    ensures Inv(ProducerStep(s))
  {
    NoLeakSame(s.m.heap, s.h.linked[s.h.freed..], s.p, ProducerStep(s).p);
    hide Chained, NoLeak;
  }

  lemma SkipReadKeepsInv<T>(s: State<T>)
    requires Inv(s) && s.p.PSkipRead?
    ensures Inv(ProducerStep(s))
  {
    assert NodeAt(s.m.heap, s.h.linked, s.h.produced, s.h.fi);
    NoLeakSame(s.m.heap, s.h.linked[s.h.freed..], s.p, ProducerStep(s).p);
    assert ProducerStep(s) == s.(p := PSkipNext(s.p.temp, s.m.first));
    hide Chained, NoLeak, ProducerStep;
  }

  lemma SkipNextKeepsInv<T>(s: State<T>)
    requires Inv(s) && s.p.PSkipNext?
    ensures Inv(ProducerStep(s))
  {
    assert NodeAt(s.m.heap, s.h.linked, s.h.produced, s.h.fi);
    NoLeakSame(s.m.heap, s.h.linked[s.h.freed..], s.p, ProducerStep(s).p);
    assert ProducerStep(s) == s.(p := PSkipWrite(s.p.temp, s.m.heap[s.p.f].next));
    hide Chained, NoLeak, ProducerStep;
  }

  lemma SkipWriteKeepsInv<T>(s: State<T>)
    requires Inv(s) && s.p.PSkipWrite?
    ensures Inv(ProducerStep(s))
  {
    NoLeakSame(s.m.heap, s.h.linked[s.h.freed..], s.p, ProducerStep(s).p);
    assert ProducerStep(s) == s.(m := s.m.(first := s.p.n), p := PDelete(s.p.temp), h := s.h.(fi := s.h.fi + 1));
    hide Chained, NoLeak, ProducerStep;
  }

  lemma ProducerKeepsInv<T>(s: State<T>)
    requires Inv(s) && !s.p.PIdle? && !s.p.PAllocate?
    ensures Inv(ProducerStep(s))
  {
    hide Inv, ProducerStep;
    match s.p
    case PLinkWrite(_, _) => LinkKeepsInv(s);
    case PDelete(_) => DeleteKeepsInv(s);
    case PLinkRead(_) => LinkReadAndCountKeepInv(s);
    case PAdvanceRead => AdvanceReadKeepsInv(s);
    case PAdvanceNext(_) => AdvanceNextKeepsInv(s);
    case PAdvanceWrite(_) => AdvanceWriteKeepsInv(s);
    case PCount => LinkReadAndCountKeepInv(s);
    case PSkipRead(_) => SkipReadKeepsInv(s);
    case PSkipNext(_, _) => SkipNextKeepsInv(s);
    case PSkipWrite(_, _) => SkipWriteKeepsInv(s);
    case _ => TrimKeepsInv(s);
  }

  lemma TestKeepsInv<T>(s: State<T>)
    requires Inv(s) && (s.c.CTestDivider? || s.c.CTestLast? || s.c.CCount? || s.c.CReport? || s.c.CFail?)
    ensures Inv(ConsumerStep(s))
  {
    assert s.h.di < s.h.li ==> s.m.divider != s.m.last;
    hide Chained, NoLeak;
  }

  lemma FetchReadKeepsInv<T>(s: State<T>)
    requires Inv(s) && s.c.CFetchRead?
    ensures Inv(ConsumerStep(s))
  {
    assert NodeAt(s.m.heap, s.h.linked, s.h.produced, s.h.di);
    assert ConsumerStep(s) == s.(c := CFetchNext(s.m.divider));
    hide Chained, NoLeak, ConsumerStep;
  }

  lemma FetchNextKeepsInv<T>(s: State<T>)
    requires Inv(s) && s.c.CFetchNext?
    ensures Inv(ConsumerStep(s))
  {
    assert NodeAt(s.m.heap, s.h.linked, s.h.produced, s.h.di);
    assert ConsumerStep(s) == s.(c := CFetchValue(s.m.heap[s.c.d].next));
    hide Chained, NoLeak, ConsumerStep;
  }

  lemma FetchValueKeepsInv<T>(s: State<T>)
    requires Inv(s) && s.c.CFetchValue?
    ensures Inv(ConsumerStep(s))
  {
    assert NodeAt(s.m.heap, s.h.linked, s.h.produced, s.h.di + 1);
    assert ConsumerStep(s) == s.(c := CMoveRead(s.h.produced[s.h.di]));
    hide Chained, NoLeak, ConsumerStep, NodeAt, ProducerFacts;
  }

  lemma MoveReadKeepsInv<T>(s: State<T>)
    requires Inv(s) && s.c.CMoveRead?
    ensures Inv(ConsumerStep(s))
  {
    assert ConsumerStep(s) == s.(c := CMoveNext(s.c.r, s.m.divider));
    hide Chained, NoLeak, ConsumerStep;
  }

  lemma MoveNextKeepsInv<T>(s: State<T>)
    requires Inv(s) && s.c.CMoveNext?
    ensures Inv(ConsumerStep(s))
  {
    assert NodeAt(s.m.heap, s.h.linked, s.h.produced, s.h.di);
    assert ConsumerStep(s) == s.(c := CMoveWrite(s.c.r, s.m.heap[s.c.d].next));
    hide Chained, NoLeak, ConsumerStep;
  }

  lemma MoveWriteKeepsInv<T>(s: State<T>)
    requires Inv(s) && s.c.CMoveWrite?
    ensures Inv(ConsumerStep(s))
  {
    var (m, h) := (s.m.(divider := s.c.n), s.h.(di := s.h.di + 1, consumed := s.h.consumed + [s.c.r]));
    assert ConsumerStep(s) == s.(m := m, c := CCount, h := h);
    assert Positions(m, s.p, h) && SizeTracks(ConsumerStep(s));
    ProducerKeepsUp(s.m, s.p, s.h, s.c.n, s.c.r);
    assert ConsumerFacts(m, CCount, h) by {
      assert h.produced[..h.di] == s.h.produced[..s.h.di] + [s.h.produced[s.h.di]];
    }
    hide Chained, NoLeak, ConsumerStep, ProducerFacts, ConsumerFacts, Positions;
  }

  /** The producer does not mind values being taken. */
  lemma ProducerKeepsUp<T>(m: Memory<T>, p: ProducerPc<T>, h: History<T>, n: Addr, r: T)
    requires Positions(m, p, h) && h.di < h.li && ProducerFacts(m, p, h) && n == h.linked[h.di + 1]
    ensures Positions(m.(divider := n), p, h.(di := h.di + 1, consumed := h.consumed + [r]))
    ensures ProducerFacts(m.(divider := n), p, h.(di := h.di + 1, consumed := h.consumed + [r]))
  {
  }

  lemma ConsumerKeepsInv<T>(s: State<T>)
    requires Inv(s) && !s.c.CIdle?
    ensures Inv(ConsumerStep(s))
  {
    hide Inv, ConsumerStep;
    match s.c
    case CFetchRead => FetchReadKeepsInv(s);
    case CFetchNext(_) => FetchNextKeepsInv(s);
    case CFetchValue(_) => FetchValueKeepsInv(s);
    case CMoveRead(_) => MoveReadKeepsInv(s);
    case CMoveNext(_, _) => MoveNextKeepsInv(s);
    case CMoveWrite(_, _) => MoveWriteKeepsInv(s);
    case _ => TestKeepsInv(s);
  }

  lemma CallConsumeKeepsInv<T>(s: State<T>)
    requires Inv(s) && Enabled(s, CallConsume)
    ensures Inv(Step(s, CallConsume))
  {
    hide Chained, NoLeak;
  }

  lemma StepKeepsInv<T>(s: State<T>, act: Action<T>)
    requires Inv(s) && Enabled(s, act)
    ensures Inv(Step(s, act))
  {
    hide Inv, ProducerStep, ConsumerStep;
    match act
    case CallProduce(t) => CallProduceKeepsInv(s, t);
    case Allocate(a) => AllocateKeepsInv(s, a);
    case Producer => ProducerKeepsInv(s);
    case CallConsume => CallConsumeKeepsInv(s);
    case Consumer => ConsumerKeepsInv(s);
  }

  lemma {:induction false} RunKeepsInv<T>(s: State<T>, acts: seq<Action<T>>)
    requires Inv(s) && Feasible(s, acts)
    ensures Inv(Run(s, acts))
    decreases |acts|
  {
    if acts == [] {
    } else {
      StepKeepsInv(s, acts[0]);
      RunKeepsInv(Step(s, acts[0]), acts[1..]);
    }
  }

  // ---------------------------------------------------------------------------------
  // What holds at the end of every schedule, hence at each of its points

  /** Number of values linked in and not yet taken. */
  ghost function Length<T>(s: State<T>): int { s.h.li - s.h.di }

  lemma ScheduleInv<T>(dummy: T, a: Addr, acts: seq<Action<T>>)
    requires a != NULLPTR && Feasible(Init(dummy, a), acts)
    ensures Inv(Run(Init(dummy, a), acts))
  {
    InitInv(dummy, a);
    RunKeepsInv(Init(dummy, a), acts);
  }

  /** First in, first out: what was taken is a prefix of what was put, in the same order. */
  lemma Fifo<T>(dummy: T, a: Addr, acts: seq<Action<T>>)
    requires a != NULLPTR && Feasible(Init(dummy, a), acts)
    ensures var h := Run(Init(dummy, a), acts).h; h.consumed <= h.produced
  {
    ScheduleInv(dummy, a, acts);
  }

  /**
    No step reads, writes or deletes a node that is not live; the deleted nodes are the
    oldest ones, all strictly before `divider`; and nothing else stays allocated.
   */
  lemma MemorySafe<T>(dummy: T, a: Addr, acts: seq<Action<T>>)
    requires a != NULLPTR && Feasible(Init(dummy, a), acts)
    ensures var s := Run(Init(dummy, a), acts);
            && !s.m.fault
            && s.h.freed <= s.h.di < |s.h.linked| && s.m.divider == s.h.linked[s.h.di]
            && (forall k :: s.h.freed <= k < |s.h.linked| ==> s.h.linked[k] in s.m.heap)
            && (!Pending(s.p) ==> s.m.heap.Keys == set x | x in s.h.linked[s.h.freed..])
  {
    ScheduleInv(dummy, a, acts);
    var s := Run(Init(dummy, a), acts);
    forall k | s.h.freed <= k < |s.h.linked| ensures s.h.linked[k] in s.m.heap {
      assert NodeAt(s.m.heap, s.h.linked, s.h.produced, k);
    }
    forall x | x in s.h.linked[s.h.freed..] ensures x in s.m.heap {
      var k :| s.h.freed <= k < |s.h.linked| && s.h.linked[k] == x;
    }
  }

  /** `_size` is off by at most one either way, and exact when both sides are outside. */
  lemma SizeWithinOne<T>(dummy: T, a: Addr, acts: seq<Action<T>>)
    requires a != NULLPTR && Feasible(Init(dummy, a), acts)
    ensures var s := Run(Init(dummy, a), acts);
            && -1 <= s.m.size - Length(s) <= 1
            && (s.p.PIdle? && s.c.CIdle? ==> s.m.size == |s.h.produced| - |s.h.consumed|)
  {
    ScheduleInv(dummy, a, acts);
  }

  /**
    A `consume` answers false only if every `produce` that had returned when it was called
    was already consumed: a wake-up sent after `produce` returns never finds the queue empty.
   */
  lemma FailureMeansDrained<T>(dummy: T, a: Addr, acts: seq<Action<T>>)
    requires a != NULLPTR && Feasible(Init(dummy, a), acts)
    ensures var s := Run(Init(dummy, a), acts); s.c.CFail? ==> !s.h.owed
  {
    ScheduleInv(dummy, a, acts);
  }

  // ---------------------------------------------------------------------------------
  // Linearisation: the pointers refine a queue whose operations are single steps

  /** The queue a reader sees: what `last` has passed and `divider` has not. */
  ghost function Abs<T>(s: State<T>): seq<T>
    requires Positions(s.m, s.p, s.h)
  {
    s.h.produced[s.h.di..s.h.li]
  }

  /** An operation of an atomic queue; `Miss` is a take that finds nothing. */
  datatype Op<T> = Put(t: T) | Take(t: T) | Miss

  ghost predicate Atomically<T(!new)>(q: seq<T>, op: Op<T>, q': seq<T>) {
    match op
    case Put(t) => q' == q + [t]
    case Take(t) => q == [t] + q'
    case Miss => q == [] && q' == []
  }

  ghost predicate Does<T(!new)>(q: seq<T>, ops: seq<Op<T>>, q': seq<T>)
    decreases |ops|
  {
    if ops == [] then q' == q
    else exists between :: Atomically(q, ops[0], between) && Does(between, ops[1..], q')
  }

  /** `produce` takes effect when `last` is written, `consume` when `divider` is, or when it finds them equal. */
  ghost function Effect<T>(s: State<T>, act: Action<T>): seq<Op<T>>
    requires Positions(s.m, s.p, s.h) && Enabled(s, act)
  {
    match act
    case Producer => if s.p.PAdvanceWrite? then [Put(s.h.produced[s.h.li])] else []
    case Consumer =>
      if s.c.CMoveWrite? then [Take(s.c.r)]
      else if s.c.CTestLast? && s.c.d == s.m.last then [Miss]
      else []
    case _ => []
  }

  lemma OneOp<T(!new)>(q: seq<T>, op: Op<T>, q': seq<T>)
    requires Atomically(q, op, q')
    ensures Does(q, [op], q')
  {
    assert Does(q', [op][1..], q');
  }

  /** Each single pointer step is the step of the atomic queue it stands for, or none. */
  lemma StepRefines<T(!new)>(s: State<T>, act: Action<T>)
    requires Inv(s) && Enabled(s, act)
    ensures Inv(Step(s, act)) && Does(Abs(s), Effect(s, act), Abs(Step(s, act)))
  {
    StepKeepsInv(s, act);
    if act.Producer? && s.p.PAdvanceWrite? {
      PutRefines(s);
    } else if act.Consumer? && s.c.CMoveWrite? {
      TakeRefines(s);
    } else if act.Consumer? && s.c.CTestLast? && s.c.d == s.m.last {
      MissRefines(s);
    } else {
      NothingSeen(s, act);
    }
  }

  lemma PutRefines<T(!new)>(s: State<T>)
    requires Inv(s) && s.p.PAdvanceWrite? && Inv(ProducerStep(s))
    ensures Does(Abs(s), [Put(s.h.produced[s.h.li])], Abs(ProducerStep(s)))
  {
    hide Chained, NoLeak, ProducerFacts, ConsumerFacts, Does;
    var (h, n) := (s.h, s.h.li + 1);
    assert h.produced[h.di..n] == h.produced[h.di..h.li] + [h.produced[h.li]];
    OneOp(Abs(s), Put(h.produced[h.li]), Abs(ProducerStep(s)));
  }

  lemma TakeRefines<T(!new)>(s: State<T>)
    requires Inv(s) && s.c.CMoveWrite? && Inv(ConsumerStep(s))
    ensures Does(Abs(s), [Take(s.c.r)], Abs(ConsumerStep(s)))
  {
    hide Chained, NoLeak, ProducerFacts, Does;
    var h := s.h;
    assert h.produced[h.di..h.li] == [h.produced[h.di]] + h.produced[h.di + 1..h.li];
    OneOp(Abs(s), Take(s.c.r), Abs(ConsumerStep(s)));
  }

  lemma MissRefines<T(!new)>(s: State<T>)
    requires Inv(s) && s.c.CTestLast? && s.c.d == s.m.last && Inv(ConsumerStep(s))
    ensures Does(Abs(s), [Miss], Abs(ConsumerStep(s)))
  {
    hide NoLeak, ProducerFacts, Does;
    assert s.h.di == s.h.li;
    OneOp(Abs(s), Miss, Abs(ConsumerStep(s)));
  }

  lemma NothingSeen<T(!new)>(s: State<T>, act: Action<T>)
    requires Inv(s) && Enabled(s, act) && Inv(Step(s, act)) && Effect(s, act) == []
    ensures Abs(Step(s, act)) == Abs(s)
  {
    hide Chained, NoLeak, ProducerFacts, ConsumerFacts;
    assert Step(s, act).h.di == s.h.di && Step(s, act).h.li == s.h.li;
  }

  lemma {:induction false} DoesJoin<T(!new)>(q: seq<T>, a: seq<Op<T>>, r: seq<T>, b: seq<Op<T>>, q': seq<T>)
    requires Does(q, a, r) && Does(r, b, q')
    ensures Does(q, a + b, q')
    decreases |a|
  {
    if a == [] {
      assert a + b == b;
    } else {
      var between :| Atomically(q, a[0], between) && Does(between, a[1..], r);
      DoesJoin(between, a[1..], r, b, q');
      assert (a + b)[1..] == a[1..] + b && (a + b)[0] == a[0];
    }
  }

  /** The operations of a schedule in the order in which they take effect. */
  ghost function Trace<T>(s: State<T>, acts: seq<Action<T>>): seq<Op<T>>
    requires Inv(s) && Feasible(s, acts)
    decreases |acts|
  {
    if acts == [] then []
    else
      StepKeepsInv(s, acts[0]);
      Effect(s, acts[0]) + Trace(Step(s, acts[0]), acts[1..])
  }

  ghost function Puts<T>(ops: seq<Op<T>>): seq<T> {
    if ops == [] then [] else (if ops[0].Put? then [ops[0].t] else []) + Puts(ops[1..])
  }

  ghost function Takes<T>(ops: seq<Op<T>>): seq<T> {
    if ops == [] then [] else (if ops[0].Take? then [ops[0].t] else []) + Takes(ops[1..])
  }

  ghost function Misses<T>(ops: seq<Op<T>>): nat {
    if ops == [] then 0 else (if ops[0].Miss? then 1 else 0) + Misses(ops[1..])
  }

  ghost function ConsumeCalls<T>(acts: seq<Action<T>>): nat {
    if acts == [] then 0 else (if acts[0].CallConsume? then 1 else 0) + ConsumeCalls(acts[1..])
  }

  /** A `consume` is under way that has neither taken a value nor missed. */
  ghost function Undecided<T>(c: ConsumerPc<T>): nat {
    if c.CIdle? || c.CCount? || c.CReport? || c.CFail? then 0 else 1
  }

  /** From `s` to `n`, `ops` is what was put and taken, and each of `calls` consumes took, missed or is undecided. */
  ghost predicate Accounts<T>(s: State<T>, ops: seq<Op<T>>, n: State<T>, calls: nat)
    requires Positions(s.m, s.p, s.h) && Positions(n.m, n.p, n.h)
  {
    && n.h.produced[..n.h.li] == s.h.produced[..s.h.li] + Puts(ops)
    && n.h.consumed == s.h.consumed + Takes(ops)
    && Undecided(n.c) + |Takes(ops)| + Misses(ops) == Undecided(s.c) + calls
  }

  lemma Single<T>(op: Op<T>)
    ensures Puts([op]) == (if op.Put? then [op.t] else [])
    ensures Takes([op]) == (if op.Take? then [op.t] else [])
    ensures Misses([op]) == (if op.Miss? then 1 else 0)
  {
    assert [op][1..] == [];
  }

  lemma EffectAccounts<T>(s: State<T>, act: Action<T>)
    requires Inv(s) && Enabled(s, act) && Inv(Step(s, act))
    ensures Accounts(s, Effect(s, act), Step(s, act), if act.CallConsume? then 1 else 0)
  {
    hide Chained, NoLeak, ProducerFacts, ConsumerFacts, Positions, Effect, Accounts, ProducerStep, ConsumerStep;
    if act.Producer? {
      ProducerAccounts(s);
    } else if act.Consumer? {
      ConsumerKeepsProducer(s);
      ConsumerAccounts(s);
    } else {
      CallAccounts(s, act);
    }
  }

  lemma ConsumerKeepsProducer<T>(s: State<T>)
    requires Enabled(s, Consumer) && !ConsumerStep(s).m.fault
    ensures ConsumerStep(s).p == s.p
  {
  }

  lemma CallAccounts<T>(s: State<T>, act: Action<T>)
    requires Enabled(s, act) && !act.Producer? && !act.Consumer?
    requires Positions(s.m, s.p, s.h) && Positions(Step(s, act).m, Step(s, act).p, Step(s, act).h)
    ensures Accounts(s, Effect(s, act), Step(s, act), if act.CallConsume? then 1 else 0)
  {
    var n := Step(s, act);
    assert n.h.produced[..n.h.li] == s.h.produced[..s.h.li];
  }

  lemma ProducerAccounts<T>(s: State<T>)
    requires Positions(s.m, s.p, s.h) && Enabled(s, Producer) && !ProducerStep(s).m.fault
    requires Positions(ProducerStep(s).m, ProducerStep(s).p, ProducerStep(s).h)
    ensures Accounts(s, Effect(s, Producer), ProducerStep(s), 0)
  {
    hide Puts, Takes, Misses;
    var n := ProducerStep(s);
    assert n.c == s.c && n.h.produced == s.h.produced && n.h.consumed == s.h.consumed;
    if s.p.PAdvanceWrite? {
      Single(Put(s.h.produced[s.h.li]));
      assert s.h.produced[..s.h.li + 1] == s.h.produced[..s.h.li] + [s.h.produced[s.h.li]];
    } else {
      assert n.h.li == s.h.li && Effect(s, Producer) == [];
      Empty<T>();
    }
  }

  lemma ConsumerAccounts<T>(s: State<T>)
    requires Positions(s.m, s.p, s.h) && Enabled(s, Consumer) && !ConsumerStep(s).m.fault
    requires Positions(ConsumerStep(s).m, s.p, ConsumerStep(s).h) && ConsumerStep(s).p == s.p
    ensures Accounts(s, Effect(s, Consumer), ConsumerStep(s), 0)
  {
    hide Puts, Takes, Misses;
    var (e, n) := (Effect(s, Consumer), ConsumerStep(s));
    assert n.h.produced == s.h.produced && n.h.li == s.h.li;
    Empty<T>();
    if e != [] {
      Single(e[0]);
      assert e == [e[0]];
    }
  }

  lemma Empty<T>()
    ensures Puts<T>([]) == [] && Takes<T>([]) == [] && Misses<T>([]) == 0
  {
  }

  lemma {:induction false} PutsJoin<T>(a: seq<Op<T>>, b: seq<Op<T>>)
    ensures Puts(a + b) == Puts(a) + Puts(b)
    decreases |a|
  {
    if a == [] {
      assert a + b == b;
    } else {
      PutsJoin(a[1..], b);
      assert (a + b)[1..] == a[1..] + b;
    }
  }

  lemma {:induction false} TakesJoin<T>(a: seq<Op<T>>, b: seq<Op<T>>)
    ensures Takes(a + b) == Takes(a) + Takes(b)
    decreases |a|
  {
    if a == [] {
      assert a + b == b;
    } else {
      TakesJoin(a[1..], b);
      assert (a + b)[1..] == a[1..] + b;
    }
  }

  lemma {:induction false} MissesJoin<T>(a: seq<Op<T>>, b: seq<Op<T>>)
    ensures Misses(a + b) == Misses(a) + Misses(b)
    decreases |a|
  {
    if a == [] {
      assert a + b == b;
    } else {
      MissesJoin(a[1..], b);
      assert (a + b)[1..] == a[1..] + b;
    }
  }

  lemma AccountsJoin<T>(s: State<T>, a: seq<Op<T>>, m: State<T>, b: seq<Op<T>>, n: State<T>, c: nat, d: nat)
    requires Positions(s.m, s.p, s.h) && Positions(m.m, m.p, m.h) && Positions(n.m, n.p, n.h)
    requires Accounts(s, a, m, c) && Accounts(m, b, n, d)
    ensures Accounts(s, a + b, n, c + d)
  {
    hide Positions, Puts, Takes, Misses;
    PutsJoin(a, b);
    TakesJoin(a, b);
    MissesJoin(a, b);
  }

  lemma NothingDone<T(!new)>(s: State<T>)
    requires Positions(s.m, s.p, s.h)
    ensures Does(Abs(s), [], Abs(s)) && Accounts(s, [], s, 0)
  {
    hide Positions;
    Empty<T>();
  }

  lemma {:induction false} RunRefines<T(!new)>(s: State<T>, acts: seq<Action<T>>)
    requires Inv(s) && Feasible(s, acts)
    ensures Inv(Run(s, acts)) && Does(Abs(s), Trace(s, acts), Abs(Run(s, acts)))
    ensures Accounts(s, Trace(s, acts), Run(s, acts), ConsumeCalls(acts))
    decreases |acts|
  {
    hide Step, Effect, Accounts, Does, Abs, Chained, NoLeak, ProducerFacts, ConsumerFacts, SizeTracks, Positions, Enabled;
    if acts == [] {
      NothingDone(s);
    } else {
      var (m, e, rest) := (Step(s, acts[0]), Effect(s, acts[0]), acts[1..]);
      StepRefines(s, acts[0]);
      EffectAccounts(s, acts[0]);
      RunRefines(m, rest);
      DoesJoin(Abs(s), e, Abs(m), Trace(m, rest), Abs(Run(m, rest)));
      AccountsJoin(s, e, m, Trace(m, rest), Run(m, rest), if acts[0].CallConsume? then 1 else 0, ConsumeCalls(rest));
    }
  }

  /**
    Every schedule of pointer steps is a run of an atomic queue. Every `produce` that has returned
    has put its value exactly once, every `consume` that has returned has taken or missed exactly
    once, and a `consume` misses only while the atomic queue is empty.
   */
  lemma Linearizable<T(!new)>(dummy: T, a: Addr, acts: seq<Action<T>>)
    requires a != NULLPTR && Feasible(Init(dummy, a), acts)
    ensures Inv(Init(dummy, a))
    ensures var (s, ops) := (Run(Init(dummy, a), acts), Trace(Init(dummy, a), acts));
            && Inv(s) && Does([], ops, Abs(s))
            && Puts(ops) <= s.h.produced && s.h.returned <= |Puts(ops)|
            && Takes(ops) == s.h.consumed
            && |Takes(ops)| + Misses(ops) == ConsumeCalls(acts) - Undecided(s.c)
  {
    InitInv(dummy, a);
    RunRefines(Init(dummy, a), acts);
    var s := Run(Init(dummy, a), acts);
    hide Chained, NoLeak, ProducerFacts, ConsumerFacts, Run, Trace, Feasible, Does;
    assert Abs(Init(dummy, a)) == [];
    Empty<T>();
    assert s.h.produced[..s.h.li] <= s.h.produced;
    assert [] + Puts(Trace(Init(dummy, a), acts)) == Puts(Trace(Init(dummy, a), acts));
  }
}
