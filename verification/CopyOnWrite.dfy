/**
  `CopyOnWriteBuffer` over `scoped_refptr` and a reference count (copy_on_write_buffer.h and
  .cc, api/scoped_refptr.h and api/ref_counted_base.h under xrtc_server/thirdlib/rtcbase_v1/src):
  handles that share storage until one of them writes.
 */
module CopyOnWrite {

  import opened Common

  /** What resizing does to a byte string; `fill` is what uninitialised memory happens to hold. */
  function Resized(v: seq<byte>, n: nat, fill: nat -> byte): (r: seq<byte>)
    ensures |r| == n
    ensures n <= |v| ==> r == v[..n]
    ensures n >= |v| ==> r[..|v|] == v
  {
    seq(n, i requires 0 <= i < n => if i < |v| then v[i] else fill(i))
  }

  /** A `RefCountedObject<Buffer>`: a buffer with a count of the handles on it. */
  class Store {
    var data: seq<byte>
    var capacity: nat
    var refs: nat
    ghost var deleted: bool

    constructor (data: seq<byte>, capacity: nat)
      ensures this.data == data && this.capacity == Max(|data|, capacity) && refs == 0 && !deleted
    {
      this.data, this.capacity, refs, deleted := data, Max(|data|, capacity), 0, false;
    }

    method AddRef()
      requires !deleted
      modifies this`refs
      ensures refs == old(refs) + 1
    {
      refs := refs + 1;
    }

    /** Deletes the object when the last reference goes. */
    method Release()
      requires !deleted && refs > 0
      modifies this`refs, this`deleted
      ensures refs == old(refs) - 1 && deleted == (refs == 0)
    {
      refs := refs - 1;
      if refs == 0 {
        deleted := true;
      }
    }

    /** The buffer operations, whose growth policy is the subject of module BufferT. */
    method Grow(wanted: nat, extraHeadroom: bool)
      requires !deleted
      modifies this`capacity
      ensures capacity >= wanted && capacity >= old(capacity)
      ensures wanted <= old(capacity) ==> capacity == old(capacity)
    {
      if wanted > capacity {
        capacity := if extraHeadroom then Max(wanted, capacity + capacity / 2) else wanted;
      }
    }

    method Put(bytes: seq<byte>)
      requires !deleted
      modifies this`data, this`capacity
      ensures data == bytes && capacity >= |bytes| && capacity >= old(capacity)
      ensures |bytes| <= old(capacity) ==> capacity == old(capacity)
    {
      Grow(|bytes|, true);
      data := bytes;
    }
  }

  /** A `CopyOnWriteBuffer`; `buffer` is the pointer inside its `scoped_refptr`. */
  class Handle {
    var buffer: Store?

    constructor ()
      ensures buffer == null
    {
      buffer := null;
    }

    /** The bytes the handle stands for. */
    function Value(): seq<byte>
      reads this, buffer
    {
      if buffer == null then [] else buffer.data
    }
  }

  /** One storage object and the whole memory, as values. */
  datatype Block = Block(data: seq<byte>, capacity: nat, refs: int, deleted: bool)
  datatype Memory = Memory(where: map<Handle, Store?>, blocks: map<Store, Block>)

  ghost function Holders(m: Memory, s: Store): set<Handle> {
    set h | h in m.where && m.where[h] == s
  }

  ghost predicate Usable(b: Block) {
    |b.data| <= b.capacity
  }

  /** What `IsConsistent` asks for: no storage has capacity 0. */
  ghost predicate Consistent(m: Memory) {
    forall s :: s in m.blocks ==> m.blocks[s].capacity > 0
  }

  /** The count is the number of handles, and the storage lives exactly as long as there is one. */
  ghost predicate Sound(m: Memory, s: Store)
    requires s in m.blocks
  {
    && m.blocks[s].refs == |Holders(m, s)|
    && (m.blocks[s].deleted <==> Holders(m, s) == {})
    && Usable(m.blocks[s])
  }

  /** Storage that has been made and not yet been given to a handle. */
  ghost predicate Unheld(m: Memory, s: Store)
    requires s in m.blocks
  {
    m.blocks[s].refs == 0 && !m.blocks[s].deleted && Holders(m, s) == {} && Usable(m.blocks[s])
  }

  ghost predicate Closed(m: Memory) {
    forall h :: h in m.where && m.where[h] != null ==> m.where[h] in m.blocks
  }

  /** Everything is sound, except that `extra` may be waiting for its first handle. */
  ghost predicate Ok(m: Memory, extra: Store?) {
    && Closed(m)
    && (forall s :: s in m.blocks && s != extra ==> Sound(m, s))
    && (extra != null ==> extra in m.blocks && Unheld(m, extra))
  }

  ghost function ValueAt(m: Memory, h: Handle): seq<byte>
    requires h in m.where && (m.where[h] != null ==> m.where[h] in m.blocks)
  {
    if m.where[h] == null then [] else m.blocks[m.where[h]].data
  }

  /** What the program sees: every handle as a byte string of its own. */
  ghost function Values(m: Memory): map<Handle, seq<byte>>
    requires Closed(m)
  {
    map h | h in m.where :: ValueAt(m, h)
  }

  // The pointer steps, as functions on memory.

  ghost function AddRefIn(m: Memory, p: Store?): Memory
    requires p != null ==> p in m.blocks
  {
    if p == null then m else m.(blocks := m.blocks[p := m.blocks[p].(refs := m.blocks[p].refs + 1)])
  }

  ghost function ReleaseIn(m: Memory, p: Store?): Memory
    requires p != null ==> p in m.blocks
  {
    if p == null then m
    else m.(blocks := m.blocks[p := m.blocks[p].(refs := m.blocks[p].refs - 1, deleted := m.blocks[p].deleted || m.blocks[p].refs == 1)])
  }

  ghost function AssignIn(m: Memory, h: Handle, p: Store?): Memory
    requires h in m.where && Closed(m) && (p != null ==> p in m.blocks)
  {
    ReleaseIn(AddRefIn(m, p), m.where[h]).(where := m.where[h := p])
  }

  /** How pointing one handle elsewhere changes the set of handles on some storage. */
  lemma Recount(before: set<Handle>, after: set<Handle>, h: Handle, was: bool, now: bool)
    requires before - {h} == after - {h} && (h in before <==> was) && (h in after <==> now)
    ensures |after| == |before| + (if now then 1 else 0) - (if was then 1 else 0)
    ensures after == {} <==> |after| == 0
  {
    assert was ==> before == (before - {h}) + {h};
    assert now ==> after == (before - {h}) + {h};
    assert !was ==> before == before - {h};
    assert !now ==> after == before - {h};
  }

  /** The storage of a handle is there. */
  lemma Held(m: Memory, h: Handle, extra: Store?)
    requires Ok(m, extra) && h in m.where && m.where[h] != null
    ensures m.where[h] in m.blocks && m.blocks[m.where[h]].refs > 0 && !m.blocks[m.where[h]].deleted && m.where[h] != extra
  {
    assert h in Holders(m, m.where[h]);
  }

  /** What an assignment does to one storage object. */
  lemma AssignBlock(m: Memory, h: Handle, p: Store?, s: Store)
    requires h in m.where && Closed(m) && (p != null ==> p in m.blocks) && s in m.blocks
    ensures AssignIn(m, h, p).where == m.where[h := p] && AssignIn(m, h, p).blocks.Keys == m.blocks.Keys
    ensures var (b, a) := (m.blocks[s], AssignIn(m, h, p).blocks[s]);
            && a.data == b.data && a.capacity == b.capacity
            && a.refs == b.refs + (if p == s then 1 else 0) - (if m.where[h] == s then 1 else 0)
            && a.deleted == (b.deleted || (m.where[h] == s && a.refs == 0))
  {
  }

  lemma AssignSound(m: Memory, h: Handle, p: Store?, s: Store)
    requires h in m.where && Closed(m) && (p != null ==> p in m.blocks) && s in m.blocks
    requires if p == s then Unheld(m, s) || (Sound(m, s) && !m.blocks[s].deleted) else Sound(m, s)
    ensures s in AssignIn(m, h, p).blocks && Sound(AssignIn(m, h, p), s)
  {
    var n := AssignIn(m, h, p);
    AssignBlock(m, h, p, s);
    hide AssignIn;
    Recount(Holders(m, s), Holders(n, s), h, m.where[h] == s, p == s);
  }

  /** Assigning a handle keeps every count right and changes what that handle shows and nothing else. */
  lemma AssignKeeps(m: Memory, h: Handle, p: Store?, extra: Store?)
    requires Ok(m, extra) && h in m.where && (extra == null || extra == p)
    requires p != null ==> p in m.blocks && !m.blocks[p].deleted
    ensures Ok(AssignIn(m, h, p), null)
    ensures Values(AssignIn(m, h, p)) == Values(m)[h := if p == null then [] else m.blocks[p].data]
    ensures Consistent(AssignIn(m, h, p)) <==> Consistent(m)
  {
    var n := AssignIn(m, h, p);
    assert n.where == m.where[h := p] && n.blocks.Keys == m.blocks.Keys;
    hide AssignIn, Sound, Unheld, Holders, Values, ValueAt;
    forall s | s in m.blocks
      ensures Sound(n, s) && n.blocks[s].data == m.blocks[s].data && n.blocks[s].capacity == m.blocks[s].capacity
    {
      AssignSound(m, h, p, s);
      AssignBlock(m, h, p, s);
    }
    Repointed(m, n, h, p);
  }

  /** Pointing `h` at `p`, with no storage written, changes what `h` shows and nothing else. */
  lemma Repointed(m: Memory, n: Memory, h: Handle, p: Store?)
    requires Closed(m) && h in m.where && (p != null ==> p in m.blocks)
    requires n.where == m.where[h := p] && m.blocks.Keys <= n.blocks.Keys
    requires forall s :: s in m.blocks ==> n.blocks[s].data == m.blocks[s].data
    ensures Closed(n) && Values(n) == Values(m)[h := if p == null then [] else m.blocks[p].data]
  {
  }

  lemma UnheldFacts(m: Memory, h: Handle, p: Store)
    requires Ok(m, p) && h in m.where
    ensures m.where[h] != p && m.blocks[p].refs == 0 && Closed(m)
  {
    assert Unheld(m, p) && h !in Holders(m, p);
  }

  /** Storage with one reference is seen by one handle only. */
  lemma Alone(m: Memory, h: Handle)
    requires Ok(m, null) && h in m.where && m.where[h] != null && m.blocks[m.where[h]].refs == 1
    ensures Holders(m, m.where[h]) == {h}
  {
    var hs := Holders(m, m.where[h]);
    Recount(hs, hs - {h}, h, true, false);
    assert hs == (hs - {h}) + {h};
  }

  /** Fresh storage disturbs nobody. */
  lemma MakeKeeps(m: Memory, s: Store, b: Block)
    requires Ok(m, null) && s !in m.blocks && Usable(b) && b.refs == 0 && !b.deleted
    ensures Ok(m.(blocks := m.blocks[s := b]), s)
    ensures Values(m.(blocks := m.blocks[s := b])) == Values(m)
    ensures Consistent(m.(blocks := m.blocks[s := b])) <==> Consistent(m) && b.capacity > 0
  {
    var n := m.(blocks := m.blocks[s := b]);
    assert Holders(n, s) == {};
    forall t | t in m.blocks
      ensures Sound(n, t)
    {
      assert Sound(m, t) && Holders(n, t) == Holders(m, t);
    }
  }

  /** Writing storage with one reference through its handle is seen through no other handle. */
  lemma EditKeeps(m: Memory, h: Handle, data: seq<byte>, capacity: nat)
    requires Ok(m, null) && h in m.where && m.where[h] != null && m.blocks[m.where[h]].refs == 1
    requires |data| <= capacity
    ensures Ok(EditIn(m, h, data, capacity), null)
    ensures Values(EditIn(m, h, data, capacity)) == Values(m)[h := data]
    ensures Consistent(m) && capacity >= m.blocks[m.where[h]].capacity ==> Consistent(EditIn(m, h, data, capacity))
  {
    var n := EditIn(m, h, data, capacity);
    Alone(m, h);
    forall g | g in m.where && g != h
      ensures m.where[g] != m.where[h]
    {
      assert g !in Holders(m, m.where[h]);
    }
    forall t | t in m.blocks
      ensures Sound(n, t)
    {
      assert Sound(m, t) && Holders(n, t) == Holders(m, t);
    }
  }

  ghost function EditIn(m: Memory, h: Handle, data: seq<byte>, capacity: nat): Memory
    requires h in m.where && m.where[h] != null && m.where[h] in m.blocks
  {
    m.(blocks := m.blocks[m.where[h] := m.blocks[m.where[h]].(data := data, capacity := capacity)])
  }

  /** A handle that comes into being empty. */
  lemma BirthKeeps(m: Memory, h: Handle)
    requires Ok(m, null) && h !in m.where
    ensures Ok(m.(where := m.where[h := null]), null)
    ensures Values(m.(where := m.where[h := null])) == Values(m)[h := []]
    ensures Consistent(m.(where := m.where[h := null])) <==> Consistent(m)
  {
    var n := m.(where := m.where[h := null]);
    forall t | t in m.blocks
      ensures Sound(n, t)
    {
      assert Sound(m, t) && Holders(n, t) == Holders(m, t);
    }
  }

  /** A handle that holds nothing goes away. */
  lemma DeathKeeps(m: Memory, h: Handle)
    requires Ok(m, null) && h in m.where && m.where[h] == null
    ensures Ok(m.(where := m.where - {h}), null)
    ensures Values(m.(where := m.where - {h})) == Values(m) - {h}
    ensures Consistent(m.(where := m.where - {h})) <==> Consistent(m)
  {
    var n := m.(where := m.where - {h});
    forall t | t in m.blocks
      ensures Sound(n, t)
    {
      assert Sound(m, t) && Holders(n, t) == Holders(m, t);
    }
  }

  /** Stealing the pointer of `g` for `h`, and giving up what `h` held. */
  ghost function MoveIn(m: Memory, h: Handle, g: Handle): Memory
    requires h in m.where && g in m.where && Closed(m)
  {
    if h == g then m else ReleaseIn(m, m.where[h]).(where := m.where[h := m.where[g]][g := null])
  }

  /** A move touches one count where a copy and a drop touch three, with the same outcome. */
  lemma MoveIsCopyThenDrop(m: Memory, h: Handle, g: Handle)
    requires Ok(m, null) && h in m.where && g in m.where && h != g
    ensures AssignIn(AssignIn(m, h, m.where[g]), g, null) == MoveIn(m, h, g)
  {
    var p := m.where[g];
    if p != null {
      Held(m, g, null);
    }
    var a := AssignIn(m, h, p);
    assert a.where[g] == p;
    assert AssignIn(a, g, null).where == MoveIn(m, h, g).where;
    assert AssignIn(a, g, null).blocks == MoveIn(m, h, g).blocks;
  }

  /** The pointer steps of a move, in the order they are made. */
  lemma MoveSteps(m: Memory, h: Handle, g: Handle)
    requires h in m.where && g in m.where && Closed(m)
    ensures ReleaseIn(m.(where := m.where[g := null][h := m.where[g]]), if h == g then null else m.where[h]) == MoveIn(m, h, g)
  {
    var p := m.where[g];
    if h == g {
      assert m.where[g := null][h := p] == m.where;
    } else {
      assert m.where[g := null][h := p] == m.where[h := p][g := null];
    }
  }

  lemma MoveKeeps(m: Memory, h: Handle, g: Handle)
    requires Ok(m, null) && h in m.where && g in m.where
    ensures Ok(MoveIn(m, h, g), null)
    ensures Values(MoveIn(m, h, g)) == if h == g then Values(m) else Values(m)[h := Values(m)[g]][g := []]
    ensures Consistent(MoveIn(m, h, g)) <==> Consistent(m)
  {
    if h != g {
      var p := m.where[g];
      if p != null {
        Held(m, g, null);
      }
      MoveIsCopyThenDrop(m, h, g);
      AssignKeeps(m, h, p, null);
      AssignKeeps(AssignIn(m, h, p), g, null, null);
    }
  }

  /** What one handle shows becomes `v`; every other handle shows what it showed. */
  ghost predicate Becomes(before: map<Handle, seq<byte>>, after: map<Handle, seq<byte>>, h: Handle, v: seq<byte>) {
    after == before[h := v]
  }

  lemma Overtakes(a: map<Handle, seq<byte>>, b: map<Handle, seq<byte>>, c: map<Handle, seq<byte>>, h: Handle, u: seq<byte>, v: seq<byte>)
    requires Becomes(a, b, h, u) && Becomes(b, c, h, v)
    ensures Becomes(a, c, h, v)
  {
  }

  lemma Stays(a: map<Handle, seq<byte>>, h: Handle)
    requires h in a
    ensures Becomes(a, a, h, a[h])
  {
    assert a == a[h := a[h]];
  }

  lemma Unchanged(a: map<Handle, seq<byte>>, b: map<Handle, seq<byte>>, h: Handle, v: seq<byte>)
    requires Becomes(a, b, h, v) && h in a && a[h] == v
    ensures a == b
  {
  }

  /** Three moves through a new handle exchange what two handles show. */
  lemma SwappedThrough(
    a: map<Handle, seq<byte>>, b: map<Handle, seq<byte>>, c: map<Handle, seq<byte>>, d: map<Handle, seq<byte>>, e: map<Handle, seq<byte>>,
    t: Handle, h: Handle, g: Handle)
    requires h in a && g in a && t !in a && Becomes(a, b, t, [])
    requires c == b[t := b[h]][h := []] && d == (if h == g then c else c[h := c[g]][g := []]) && e == d[g := d[t]][t := []]
    ensures e - {t} == a[h := a[g]][g := a[h]]
  {
  }

  // The same on the heap.

  /** All handles and all storage of a program, for the purpose of reasoning. */
  class World {
    ghost var handles: set<Handle>
    ghost var stores: set<Store>

    constructor ()
      ensures Valid() && handles == {} && stores == {} && Values(State()) == map[]
    {
      handles, stores := {}, {};
    }

    ghost function State(): Memory
      reads this, handles, stores
    {
      Memory(map h | h in handles :: h.buffer, map s | s in stores :: Block(s.data, s.capacity, s.refs, s.deleted))
    }

    ghost predicate Valid()
      reads this, handles, stores
    {
      Ok(State(), null)
    }

    /** What the program sees. */
    ghost function Shown(): map<Handle, seq<byte>>
      requires Closed(State())
      reads this, handles, stores
    {
      Values(State())
    }

    /** `new RefCountedObject<Buffer>`: storage that nobody holds yet. */
    method Make(data: seq<byte>, capacity: nat) returns (p: Store)
      requires Valid()
      modifies this`stores
      ensures Consistent(State()) <==> old(Consistent(State())) && (data != [] || capacity > 0)
      ensures fresh(p) && stores == old(stores) + {p} && p.data == data && p.capacity == Max(|data|, capacity) && !p.deleted
      ensures Ok(State(), p) && Shown() == old(Shown())
    {
      p := new Store(data, capacity);
      MakeKeeps(State(), p, Block(p.data, p.capacity, p.refs, p.deleted));
      hide *;
      Adopt(p);
    }

    /** Counting up and down through a possibly null pointer. */
    method Acquire(p: Store?)
      requires p != null ==> p in stores && !p.deleted
      modifies stores
      ensures State() == AddRefIn(old(State()), p)
    {
      if p != null {
        p.AddRef();
        assert State().blocks == AddRefIn(old(State()), p).blocks;
      }
    }

    method Drop(p: Store?)
      requires p != null ==> p in stores && !p.deleted && p.refs > 0
      modifies stores
      ensures State() == ReleaseIn(old(State()), p)
    {
      if p != null {
        p.Release();
        assert State().blocks == ReleaseIn(old(State()), p).blocks;
      }
    }

    method Point(h: Handle, p: Store?)
      requires h in handles
      modifies h
      ensures State() == old(State()).(where := old(State()).where[h := p])
    {
      h.buffer := p;
    }

    /** `scoped_refptr::operator=`: count up first, so that assigning a pointer to itself is safe. */
    method Assign(h: Handle, p: Store?, ghost made: bool)
      requires h in handles && Ok(State(), if made then p else null)
      requires p != null ==> p in stores && !p.deleted
      modifies h, stores
      ensures State() == AssignIn(old(State()), h, p)
      ensures Valid() && Becomes(old(Shown()), Shown(), h, if p == null then [] else old(p.data))
      ensures Consistent(State()) <==> old(Consistent(State()))
    {
      ghost var m := State();
      AssignKeeps(m, h, p, if made then p else null);
      if h.buffer != null {
        assert m.where[h] == h.buffer;
        Held(m, h, if made then p else null);
      }
      hide Ok, Values, Sound, Holders, Consistent;
      Acquire(p);
      assert State().where[h] == h.buffer;
      assert h.buffer != null ==> State().blocks[h.buffer].refs == h.buffer.refs && State().blocks[h.buffer].deleted == h.buffer.deleted;
      Drop(h.buffer);
      Point(h, p);
    }

    /** `buffer_ = new RefCountedObject<Buffer>(...)`. */
    method Replace(h: Handle, data: seq<byte>, capacity: nat)
      requires Valid() && h in handles
      modifies this`stores, h, stores
      ensures Valid() && Becomes(old(Shown()), Shown(), h, data)
      ensures Consistent(State()) <==> old(Consistent(State())) && (data != [] || capacity > 0)
      ensures h.buffer != null && fresh(h.buffer) && h.buffer.refs == 1 && h.buffer.data == data && h.buffer.capacity == Max(|data|, capacity) && !h.buffer.deleted
      ensures fresh(stores - old(stores)) && old(stores) <= stores
    {
      hide Consistent;
      var p := Make(data, capacity);
      ghost var m := State();
      UnheldFacts(m, h, p);
      AssignBlock(m, h, p, p);
      assert m.blocks[p] == Block(p.data, p.capacity, p.refs, p.deleted);
      hide Ok, Values, Sound, Holders, Unheld, AssignIn, Becomes, Closed;
      Assign(h, p, true);
      assert State().blocks[p] == Block(p.data, p.capacity, p.refs, p.deleted);
    }

    /** The buffer behind `h` is overwritten in place. */
    method Overwrite(h: Handle, bytes: seq<byte>)
      requires h in handles && h.buffer != null && h.buffer in stores && !h.buffer.deleted
      modifies h.buffer
      ensures State() == EditIn(old(State()), h, bytes, h.buffer.capacity)
      ensures h.buffer.capacity >= old(h.buffer.capacity) && h.buffer.capacity >= |bytes| && h.buffer.refs == old(h.buffer.refs)
      ensures |bytes| <= old(h.buffer.capacity) ==> h.buffer.capacity == old(h.buffer.capacity)
    {
      h.buffer.Put(bytes);
      assert State().blocks == EditIn(old(State()), h, bytes, h.buffer.capacity).blocks;
    }

    /** What the invariant says about the storage behind a handle. */
    lemma Behind(h: Handle)
      requires Valid() && h in handles && h.buffer != null
      ensures h.buffer in stores && !h.buffer.deleted && h.buffer.refs > 0 && |h.buffer.data| <= h.buffer.capacity
      ensures Consistent(State()) ==> h.buffer.capacity > 0
      ensures h in Shown() && Shown()[h] == h.buffer.data
      ensures State().where[h] == h.buffer && State().blocks[h.buffer].refs == h.buffer.refs
    {
      assert State().where[h] == h.buffer;
      Held(State(), h, null);
      assert Sound(State(), h.buffer);
    }

    /** Overwriting storage that only `h` holds. */
    method PutThrough(h: Handle, bytes: seq<byte>)
      requires Valid() && h in handles && h.buffer != null && h.buffer.refs == 1
      modifies h.buffer
      ensures Valid() && Becomes(old(Shown()), Shown(), h, bytes)
      ensures old(Consistent(State())) ==> Consistent(State())
      ensures h.buffer.refs == 1 && h.buffer.capacity >= old(h.buffer.capacity) && h.buffer.capacity >= |bytes|
      ensures |bytes| <= old(h.buffer.capacity) ==> h.buffer.capacity == old(h.buffer.capacity)
    {
      ghost var m := State();
      Behind(h);
      hide *;
      Overwrite(h, bytes);
      EditKeeps(m, h, bytes, h.buffer.capacity);
      assert Shown() == Values(State());
    }

    ghost method Register(h: Handle)
      requires h !in handles && h.buffer == null
      modifies this`handles
      ensures handles == old(handles) + {h}
      ensures State() == old(State()).(where := old(State()).where[h := null])
    {
      handles := handles + {h};
    }

    ghost method Adopt(p: Store)
      requires p !in stores
      modifies this`stores
      ensures stores == old(stores) + {p}
      ensures State() == old(State()).(blocks := old(State()).blocks[p := Block(p.data, p.capacity, p.refs, p.deleted)])
    {
      stores := stores + {p};
    }

    // The operations of `CopyOnWriteBuffer`.

    /** The default constructor. */
    method Create() returns (h: Handle)
      requires Valid()
      modifies this`handles
      ensures fresh(h) && handles == old(handles) + {h}
      ensures Valid() && Becomes(old(Shown()), Shown(), h, []) && h !in old(Shown())
      ensures old(Consistent(State())) ==> Consistent(State())
    {
      h := new Handle();
      BirthKeeps(State(), h);
      assert h !in Shown();
      hide *;
      Register(h);
    }

    /** Copy assignment; also `SetData` of another buffer. */
    method CopyFrom(h: Handle, g: Handle)
      requires Valid() && h in handles && g in handles
      modifies h, stores
      ensures Valid() && Becomes(old(Shown()), Shown(), h, old(Shown())[g])
      ensures old(Consistent(State())) ==> Consistent(State())
    {
      if h != g {
        if g.buffer != null {
          Behind(g);
        }
        Assign(h, g.buffer, false);
      }
    }

    /** Move assignment: a temporary takes the pointer of `g`, is swapped with `h` and dies. */
    method MoveFrom(h: Handle, g: Handle)
      requires Valid() && h in handles && g in handles
      modifies h, g, stores
      ensures Valid()
      ensures Shown() == if h == g then old(Shown()) else old(Shown())[h := old(Shown())[g]][g := []]
      ensures old(Consistent(State())) ==> Consistent(State())
    {
      ghost var m := State();
      MoveKeeps(m, h, g);
      if h.buffer != null {
        Behind(h);
      }
      assert m.where[g] == g.buffer && m.where[h] == h.buffer;
      hide *;
      var temporary := g.buffer;
      Point(g, null);
      var mine := h.buffer;
      Point(h, temporary);
      Drop(mine);
      MoveSteps(m, h, g);
    }

    /** `swap`, which is a move through a temporary. */
    method Swap(h: Handle, g: Handle)
      requires Valid() && h in handles && g in handles
      modifies this`handles, h, g, stores
      ensures Valid() && handles == old(handles)
      ensures Shown() == old(Shown())[h := old(Shown())[g]][g := old(Shown())[h]]
      ensures old(Consistent(State())) ==> Consistent(State())
    {
      ghost var a := Shown();
      assert h in a && g in a;
      hide *;
      var temporary := Create();
      ghost var b := Shown();
      MoveFrom(temporary, h);
      ghost var c := Shown();
      MoveFrom(h, g);
      ghost var d := Shown();
      MoveFrom(g, temporary);
      ghost var e := Shown();
      Destroy(temporary);
      SwappedThrough(a, b, c, d, e, temporary, h, g);
    }

    ghost method Forget(h: Handle)
      requires h in handles
      modifies this`handles
      ensures handles == old(handles) - {h}
      ensures State() == old(State()).(where := old(State()).where - {h})
    {
      handles := handles - {h};
    }

    /** The destructor: releases the storage, and the pointer is gone with the handle. */
    method Destroy(h: Handle)
      requires Valid() && h in handles
      modifies this`handles, h, stores
      ensures handles == old(handles) - {h}
      ensures Valid() && Shown() == old(Shown()) - {h}
      ensures old(Consistent(State())) ==> Consistent(State())
    {
      hide Consistent;
      Assign(h, null, false);
      assert State().where[h] == null;
      DeathKeeps(State(), h);
      hide *;
      Forget(h);
    }

    /** `CloneDataIfReferenced`: afterwards nobody else holds the storage. */
    method CloneDataIfReferenced(h: Handle, newCapacity: nat)
      requires Valid() && h in handles && h.buffer != null && newCapacity >= h.buffer.capacity
      modifies this`stores, h, stores
      ensures Valid() && Shown() == old(Shown()) && fresh(stores - old(stores))
      ensures old(Consistent(State())) ==> Consistent(State())
      ensures h.buffer != null && h.buffer.refs == 1 && (h.buffer in old(stores) || fresh(h.buffer)) && h.buffer.data == old(h.buffer.data)
      ensures if old(h.buffer.refs) == 1 then h.buffer == old(h.buffer) && h.buffer.capacity == old(h.buffer.capacity) else h.buffer.capacity == newCapacity
    {
      Behind(h);
      Stays(Shown(), h);
      ghost var before, v := Shown(), h.buffer.data;
      if h.buffer.refs == 1 {
        return;
      }
      hide *;
      Replace(h, h.buffer.data, newCapacity);
      Unchanged(before, Shown(), h, v);
    }

    /** Writing one byte through `data()` or `operator[]`. */
    method WriteAt(h: Handle, k: nat, b: byte)
      requires Valid() && h in handles && k < |Shown()[h]|
      modifies this`stores, h, stores
      ensures Valid() && Becomes(old(Shown()), Shown(), h, old(Shown())[h][k := b]) && fresh(stores - old(stores))
      ensures old(Consistent(State())) ==> Consistent(State())
    {
      Bare(h);
      Behind(h);
      hide *;
      CloneDataIfReferenced(h, h.buffer.capacity);
      PutThrough(h, h.buffer.data[k := b]);
    }

    lemma Bare(h: Handle)
      requires Valid() && h in handles
      ensures State().where[h] == h.buffer && (h.buffer == null ==> Shown()[h] == [])
    {
    }

    method SetData(h: Handle, bytes: seq<byte>)
      requires Valid() && h in handles
      modifies this`stores, h, stores
      ensures Valid() && Becomes(old(Shown()), Shown(), h, bytes) && fresh(stores - old(stores))
      ensures old(Consistent(State())) ==> Consistent(State())
    {
      Bare(h);
      if h.buffer != null {
        Behind(h);
      }
      hide *;
      if h.buffer == null {
        if |bytes| > 0 {
          Replace(h, bytes, 0);
        }
      } else if h.buffer.refs != 1 {
        Replace(h, bytes, h.buffer.capacity);
      } else {
        PutThrough(h, bytes);
      }
    }

    /**
      `AppendData` of bytes that do not lie in this buffer. Appending nothing to a null buffer makes
      storage of capacity 0, and is the one operation that does not keep the class consistent.
     */
    method AppendData(h: Handle, bytes: seq<byte>)
      requires Valid() && h in handles
      modifies this`stores, h, stores
      ensures Valid() && Becomes(old(Shown()), Shown(), h, old(Shown())[h] + bytes) && fresh(stores - old(stores))
      ensures old(Consistent(State())) ==> (Consistent(State()) <==> bytes != [] || old(h.buffer) != null)
    {
      hide *;
      Bare(h);
      if h.buffer == null {
        Replace(h, bytes, 0);
        assert bytes == [] + bytes;
      } else {
        Behind(h);
        AppendInPlace(h, bytes);
      }
    }

    method AppendInPlace(h: Handle, bytes: seq<byte>)
      requires Valid() && h in handles && h.buffer != null
      modifies this`stores, h, stores
      ensures Valid() && Becomes(old(Shown()), Shown(), h, old(h.buffer.data) + bytes) && fresh(stores - old(stores))
      ensures old(Consistent(State())) ==> Consistent(State())
    {
      Behind(h);
      hide *;
      CloneDataIfReferenced(h, Max(h.buffer.capacity, |h.buffer.data| + |bytes|));
      PutThrough(h, h.buffer.data + bytes);
    }

    method SetSize(h: Handle, size: nat, fill: nat -> byte)
      requires Valid() && h in handles
      modifies this`stores, h, stores
      ensures Valid() && Becomes(old(Shown()), Shown(), h, Resized(old(Shown())[h], size, fill)) && fresh(stores - old(stores))
      ensures old(Consistent(State())) ==> Consistent(State())
    {
      Bare(h);
      if h.buffer != null {
        Behind(h);
      }
      ghost var v, before := h.Value(), Shown();
      Stays(before, h);
      hide *;
      if h.buffer == null {
        if size > 0 {
          Replace(h, Resized([], size, fill), size);
        }
        return;
      }
      CutIfReferenced(h, size);
      ghost var between := Shown();
      ResizedTwice(v, size, fill);
      ghost var cut := h.buffer.data;
      PutThrough(h, Resized(h.buffer.data, size, fill));
      Overtakes(before, between, Shown(), h, cut, Resized(v, size, fill));
    }

    /** The clone that `SetSize` makes of shared storage: only what will still fit is copied. */
    method CutIfReferenced(h: Handle, size: nat)
      requires Valid() && h in handles && h.buffer != null
      modifies this`stores, h, stores
      ensures Valid() && fresh(stores - old(stores)) && h.buffer != null && h.buffer.refs == 1
      ensures h.buffer in old(stores) || fresh(h.buffer)
      ensures h.buffer.data == old(h.buffer.data) || h.buffer.data == old(h.buffer.data)[..Min(|old(h.buffer.data)|, size)]
      ensures Becomes(old(Shown()), Shown(), h, h.buffer.data)
      ensures old(Consistent(State())) ==> Consistent(State())
    {
      Behind(h);
      Stays(Shown(), h);
      hide *;
      if h.buffer.refs != 1 {
        Replace(h, h.buffer.data[..Min(|h.buffer.data|, size)], Max(h.buffer.capacity, size));
      }
    }

    /** `EnsureCapacity`: room for what was asked, same bytes. */
    method EnsureCapacity(h: Handle, wanted: nat)
      requires Valid() && h in handles
      modifies this`stores, h, stores
      ensures Valid() && Shown() == old(Shown()) && fresh(stores - old(stores))
      ensures wanted > 0 ==> h.buffer != null && h.buffer.capacity >= wanted
      ensures old(Consistent(State())) ==> Consistent(State())
    {
      Bare(h);
      ghost var before := Shown();
      hide *;
      if h.buffer == null {
        if wanted > 0 {
          Replace(h, [], wanted);
          Unchanged(before, Shown(), h, []);
        }
        return;
      }
      if wanted <= h.buffer.capacity {
        return;
      }
      Enlarge(h, wanted);
    }

    method Enlarge(h: Handle, wanted: nat)
      requires Valid() && h in handles && h.buffer != null && wanted > h.buffer.capacity
      modifies this`stores, h, stores
      ensures Valid() && Shown() == old(Shown()) && fresh(stores - old(stores))
      ensures h.buffer != null && h.buffer.capacity >= wanted
      ensures old(Consistent(State())) ==> Consistent(State())
    {
      hide *;
      Behind(h);
      CloneDataIfReferenced(h, Max(h.buffer.capacity, wanted));
      GrowThrough(h, wanted);
    }

    /** Growing storage in place changes no byte. */
    method GrowThrough(h: Handle, wanted: nat)
      requires Valid() && h in handles && h.buffer != null && h.buffer.refs == 1
      modifies h.buffer
      ensures Valid() && Shown() == old(Shown())
      ensures h.buffer.capacity >= wanted
      ensures old(Consistent(State())) ==> Consistent(State())
    {
      ghost var m := State();
      Behind(h);
      hide *;
      Widen(h, wanted);
      EditKeeps(m, h, h.buffer.data, h.buffer.capacity);
    }

    method Widen(h: Handle, wanted: nat)
      requires h in handles && h.buffer != null && h.buffer in stores && !h.buffer.deleted
      modifies h.buffer
      ensures State() == EditIn(old(State()), h, h.buffer.data, h.buffer.capacity)
      ensures h.buffer.data == old(h.buffer.data) && h.buffer.capacity >= wanted && h.buffer.capacity >= old(h.buffer.capacity)
    {
      h.buffer.Grow(wanted, false);
      assert State().blocks == EditIn(old(State()), h, h.buffer.data, h.buffer.capacity).blocks;
    }

    method Clear(h: Handle)
      requires Valid() && h in handles
      modifies this`stores, h, stores
      ensures Valid() && Becomes(old(Shown()), Shown(), h, []) && fresh(stores - old(stores))
      ensures old(Consistent(State())) ==> Consistent(State())
      ensures h.buffer != null ==> old(h.buffer) != null && h.buffer.capacity == old(h.buffer.capacity)
    {
      Bare(h);
      if h.buffer != null {
        Behind(h);
      }
      hide *;
      if h.buffer == null {
        return;
      }
      if h.buffer.refs == 1 {
        PutThrough(h, []);
      } else {
        Replace(h, [], h.buffer.capacity);
      }
    }
  }

  /** Cutting to the new size first, as a shared buffer does, makes no difference. */
  lemma ResizedTwice(v: seq<byte>, size: nat, fill: nat -> byte)
    ensures Resized(v[..Min(|v|, size)], size, fill) == Resized(v, size, fill)
  {
  }

  // Whole programs: independent byte strings, and handles that behave like them.

  /** A variable of the program: holds a byte string, or has been destroyed. */
  datatype Slot = Live(bytes: seq<byte>) | Gone

  datatype Op =
    | New
    | NewSized(size: nat, capacity: nat, fill: nat -> byte)
    | CopyOf(j: nat)
    | MoveOf(j: nat)
    | CopyTo(i: nat, j: nat)
    | MoveTo(i: nat, j: nat)
    | Exchange(i: nat, j: nat)
    | Destroy(i: nat)
    | Write(i: nat, k: nat, b: byte)
    | Set(i: nat, bytes: seq<byte>)
    | Append(i: nat, bytes: seq<byte>)
    | AppendFrom(i: nat, j: nat)
    | Resize(i: nat, size: nat, fill: nat -> byte)
    | Reserve(i: nat, capacity: nat)
    | Clear(i: nat)

  predicate Alive(st: seq<Slot>, i: nat) {
    i < |st| && st[i].Live?
  }

  /** Live variables only, writes in range, and no self append. */
  predicate Legal(st: seq<Slot>, op: Op) {
    match op
    case New => true
    case NewSized(_, _, _) => true
    case CopyOf(j) => Alive(st, j)
    case MoveOf(j) => Alive(st, j)
    case CopyTo(i, j) => Alive(st, i) && Alive(st, j)
    case MoveTo(i, j) => Alive(st, i) && Alive(st, j)
    case Exchange(i, j) => Alive(st, i) && Alive(st, j)
    case Destroy(i) => Alive(st, i)
    case Write(i, k, _) => Alive(st, i) && k < |st[i].bytes|
    case Set(i, _) => Alive(st, i)
    case Append(i, _) => Alive(st, i)
    case AppendFrom(i, j) => Alive(st, i) && Alive(st, j) && i != j
    case Resize(i, _, _) => Alive(st, i)
    case Reserve(i, _) => Alive(st, i)
    case Clear(i) => Alive(st, i)
  }

  /** Something is appended. */
  predicate Appends(st: seq<Slot>, op: Op)
    requires Legal(st, op)
  {
    (op.Append? ==> op.bytes != []) && (op.AppendFrom? ==> st[op.j].bytes != [])
  }

  /** The meaning of a program in which every variable has bytes of its own. */
  function Step(st: seq<Slot>, op: Op): seq<Slot>
    requires Legal(st, op)
  {
    match op
    case New => st + [Live([])]
    case NewSized(n, _, fill) => st + [Live(Resized([], n, fill))]
    case CopyOf(j) => st + [st[j]]
    case MoveOf(j) => st[j := Live([])] + [st[j]]
    case CopyTo(i, j) => st[i := st[j]]
    case MoveTo(i, j) => if i == j then st else st[i := st[j]][j := Live([])]
    case Exchange(i, j) => st[i := st[j]][j := st[i]]
    case Destroy(i) => st[i := Gone]
    case Write(i, k, b) => st[i := Live(st[i].bytes[k := b])]
    case Set(i, bytes) => st[i := Live(bytes)]
    case Append(i, bytes) => st[i := Live(st[i].bytes + bytes)]
    case AppendFrom(i, j) => st[i := Live(st[i].bytes + st[j].bytes)]
    case Resize(i, n, fill) => st[i := Live(Resized(st[i].bytes, n, fill))]
    case Reserve(i, _) => st
    case Clear(i) => st[i := Live([])]
  }

  predicate LegalRun(st: seq<Slot>, ops: seq<Op>)
    decreases |ops|
  {
    ops == [] || (Legal(st, ops[0]) && LegalRun(Step(st, ops[0]), ops[1..]))
  }

  predicate NoEmptyAppend(st: seq<Slot>, ops: seq<Op>)
    requires LegalRun(st, ops)
    decreases |ops|
  {
    ops == [] || (Appends(st, ops[0]) && NoEmptyAppend(Step(st, ops[0]), ops[1..]))
  }

  function After(st: seq<Slot>, ops: seq<Op>): seq<Slot>
    requires LegalRun(st, ops)
    decreases |ops|
  {
    if ops == [] then st else After(Step(st, ops[0]), ops[1..])
  }

  /** The handles of the program show what its variables hold, and there are no others. */
  ghost predicate Represents(shown: map<Handle, seq<byte>>, slots: seq<Handle?>, st: seq<Slot>) {
    && |slots| == |st|
    && (forall i :: 0 <= i < |st| ==> if st[i].Gone? then slots[i] == null else slots[i] != null && slots[i] in shown && shown[slots[i]] == st[i].bytes)
    && (forall i, j :: 0 <= i < j < |st| && slots[i] != null ==> slots[i] != slots[j])
    && (forall h :: h in shown ==> h in slots)
  }

  lemma Edited(a: map<Handle, seq<byte>>, b: map<Handle, seq<byte>>, slots: seq<Handle?>, st: seq<Slot>, i: nat, v: seq<byte>)
    requires Represents(a, slots, st) && Alive(st, i) && Becomes(a, b, slots[i], v)
    ensures Represents(b, slots, st[i := Live(v)])
  {
  }

  lemma Born(a: map<Handle, seq<byte>>, b: map<Handle, seq<byte>>, slots: seq<Handle?>, st: seq<Slot>, h: Handle, v: seq<byte>)
    requires Represents(a, slots, st) && h !in a && Becomes(a, b, h, v)
    ensures Represents(b, slots + [h], st + [Live(v)])
  {
    var after: seq<Handle?> := slots + [h];
    assert forall i :: 0 <= i < |slots| ==> after[i] == slots[i] && after[i] != h;
    assert after[|slots|] == h;
    assert forall g :: g in b ==> g in a || g == h;
  }

  lemma Died(a: map<Handle, seq<byte>>, b: map<Handle, seq<byte>>, slots: seq<Handle?>, st: seq<Slot>, i: nat)
    requires Represents(a, slots, st) && Alive(st, i) && b == a - {slots[i]}
    ensures Represents(b, slots[i := null], st[i := Gone])
  {
    forall h | h in b
      ensures h in slots[i := null]
    {
      var k :| 0 <= k < |slots| && slots[k] == h;
      assert slots[i := null][k] == h;
    }
  }

  lemma Moved(a: map<Handle, seq<byte>>, b: map<Handle, seq<byte>>, slots: seq<Handle?>, st: seq<Slot>, i: nat, j: nat)
    requires Represents(a, slots, st) && Alive(st, i) && Alive(st, j) && i != j
    requires b == a[slots[i] := a[slots[j]]][slots[j] := []]
    ensures Represents(b, slots, st[i := st[j]][j := Live([])])
  {
    var mid := a[slots[i] := a[slots[j]]];
    Edited(a, mid, slots, st, i, st[j].bytes);
    Edited(mid, b, slots, st[i := st[j]], j, []);
  }

  /** The world runs the program and has come to the state `st`. */
  ghost predicate Runs(w: World, slots: seq<Handle?>, st: seq<Slot>)
    reads w, w.handles, w.stores
  {
    w.Valid() && Represents(w.Shown(), slots, st)
  }

  /** A live variable is a handle of the world. */
  lemma Named(w: World, slots: seq<Handle?>, st: seq<Slot>, i: nat)
    requires Runs(w, slots, st) && Alive(st, i)
    ensures i < |slots| && slots[i] != null && slots[i] in w.handles && slots[i] in w.Shown() && w.Shown()[slots[i]] == st[i].bytes
    ensures forall j :: 0 <= j < |slots| && j != i ==> slots[j] != slots[i]
  {
  }

  method Construct(w: World, slots: seq<Handle?>, ghost st: seq<Slot>) returns (h: Handle)
    requires Runs(w, slots, st)
    modifies w`handles
    ensures Runs(w, slots + [h], st + [Live([])])
    ensures old(Consistent(w.State())) ==> Consistent(w.State())
    ensures w.handles == old(w.handles) + {h} && fresh(h) && |slots| == |st|
  {
    ghost var a := w.Shown();
    assert |slots| == |st| && w.Valid() && Represents(a, slots, st);
    hide *;
    h := w.Create();
    Born(a, w.Shown(), slots, st, h, []);
  }

  method ConstructSized(w: World, slots: seq<Handle?>, ghost st: seq<Slot>, size: nat, capacity: nat, fill: nat -> byte)
    returns (h: Handle)
    requires Runs(w, slots, st)
    modifies w, w.stores
    ensures Runs(w, slots + [h], st + [Live(Resized([], size, fill))])
    ensures old(Consistent(w.State())) ==> Consistent(w.State())
    ensures w.handles == old(w.handles) + {h} && fresh(h) && fresh(w.stores - old(w.stores))
  {
    ghost var v := Resized([], size, fill);
    h := Construct(w, slots, st);
    if size > 0 || capacity > 0 {
      ghost var a, born := w.Shown(), st + [Live([])];
      Named(w, slots + [h], born, |st|);
      assert born[|st| := Live(v)] == st + [Live(v)];
      hide *;
      w.Replace(h, Resized([], size, fill), capacity);
      Edited(a, w.Shown(), slots + [h], born, |st|, v);
    }
  }

  method ConstructCopy(w: World, slots: seq<Handle?>, ghost st: seq<Slot>, j: nat) returns (h: Handle)
    requires Runs(w, slots, st) && Alive(st, j)
    modifies w, w.handles, w.stores
    ensures Runs(w, slots + [h], st + [st[j]])
    ensures old(Consistent(w.State())) ==> Consistent(w.State())
    ensures w.handles == old(w.handles) + {h} && fresh(h) && w.stores == old(w.stores)
  {
    hide Consistent;
    h := Construct(w, slots, st);
    ghost var a, born := w.Shown(), st + [Live([])];
    Named(w, slots + [h], born, |st|);
    Named(w, slots + [h], born, j);
    assert born[|st| := st[j]] == st + [st[j]];
    hide *;
    w.CopyFrom(h, slots[j]);
    Edited(a, w.Shown(), slots + [h], born, |st|, st[j].bytes);
  }

  method ConstructMove(w: World, slots: seq<Handle?>, ghost st: seq<Slot>, j: nat) returns (h: Handle)
    requires Runs(w, slots, st) && Alive(st, j)
    modifies w, w.handles, w.stores
    ensures Runs(w, slots + [h], st[j := Live([])] + [st[j]])
    ensures old(Consistent(w.State())) ==> Consistent(w.State())
    ensures w.handles == old(w.handles) + {h} && fresh(h) && w.stores == old(w.stores)
  {
    hide Consistent;
    h := Construct(w, slots, st);
    ghost var a, born := w.Shown(), st + [Live([])];
    Named(w, slots + [h], born, |st|);
    Named(w, slots + [h], born, j);
    assert born[|st| := born[j]][j := Live([])] == st[j := Live([])] + [st[j]];
    hide *;
    w.MoveFrom(h, slots[j]);
    Moved(a, w.Shown(), slots + [h], born, |st|, j);
  }

  /** The operations that write bytes through one variable. */
  method Mutate(w: World, slots: seq<Handle?>, ghost st: seq<Slot>, op: Op)
    requires Runs(w, slots, st) && Legal(st, op)
    requires op.Write? || op.Set? || op.Append? || op.AppendFrom? || op.Resize? || op.Clear?
    modifies w`stores, w.handles, w.stores
    ensures Runs(w, slots, Step(st, op)) && fresh(w.stores - old(w.stores))
    ensures old(Consistent(w.State())) && Appends(st, op) ==> Consistent(w.State())
  {
    ghost var a := w.Shown();
    Named(w, slots, st, op.i);
    var h := slots[op.i];
    var tail: seq<byte> := [];
    if op.AppendFrom? {
      Named(w, slots, st, op.j);
      w.Bare(slots[op.j]);
      if slots[op.j].buffer != null {
        w.Behind(slots[op.j]);
        tail := slots[op.j].buffer.data;
      }
    }
    ghost var v := Step(st, op)[op.i].bytes;
    assert Step(st, op) == st[op.i := Live(v)];
    hide Represents, Becomes, Resized, Ok, Values, Consistent, World.State;
    match op {
      case Write(i, k, b) => w.WriteAt(h, k, b);
      case Set(i, bytes) => w.SetData(h, bytes);
      case Append(i, bytes) => w.AppendData(h, bytes);
      case AppendFrom(i, j) => w.AppendData(h, tail);
      case Resize(i, size, fill) => w.SetSize(h, size, fill);
      case Clear(i) => w.Clear(h);
    }
    Edited(a, w.Shown(), slots, st, op.i, v);
  }

  /** The operations that only move pointers. */
  method Relate(w: World, slots: seq<Handle?>, ghost st: seq<Slot>, op: Op) returns (after: seq<Handle?>)
    requires Runs(w, slots, st) && Legal(st, op)
    requires op.CopyTo? || op.MoveTo? || op.Destroy? || op.Reserve?
    modifies w, w.handles, w.stores
    ensures Runs(w, after, Step(st, op)) && fresh(w.stores - old(w.stores)) && w.handles <= old(w.handles)
    ensures old(Consistent(w.State())) ==> Consistent(w.State())
  {
    ghost var a := w.Shown();
    Named(w, slots, st, op.i);
    after := slots;
    var h := slots[op.i];
    if op.CopyTo? || op.MoveTo? {
      Named(w, slots, st, op.j);
    }
    hide Represents, Becomes, Resized, Ok, Values, Consistent, World.State;
    match op {
      case CopyTo(i, j) =>
        w.CopyFrom(h, slots[j]);
        Edited(a, w.Shown(), slots, st, i, st[j].bytes);
      case MoveTo(i, j) =>
        w.MoveFrom(h, slots[j]);
        if i != j {
          Moved(a, w.Shown(), slots, st, i, j);
        }
      case Destroy(i) =>
        w.Destroy(h);
        Died(a, w.Shown(), slots, st, i);
        after := slots[i := null];
      case Reserve(i, capacity) =>
        w.EnsureCapacity(h, capacity);
    }
  }

  /** `swap` of two variables, or of one with itself. */
  method SwapSlots(w: World, slots: seq<Handle?>, ghost st: seq<Slot>, i: nat, j: nat)
    requires Runs(w, slots, st) && Legal(st, Exchange(i, j))
    modifies w, w.handles, w.stores
    ensures Runs(w, slots, Step(st, Exchange(i, j))) && w.stores == old(w.stores) && w.handles == old(w.handles)
    ensures old(Consistent(w.State())) ==> Consistent(w.State())
  {
    ghost var a := w.Shown();
    Named(w, slots, st, i);
    Named(w, slots, st, j);
    hide Represents, Becomes, Ok, Values, Consistent, World.State;
    w.Swap(slots[i], slots[j]);
    Swapped(a, w.Shown(), slots, st, i, j);
  }

  lemma Swapped(a: map<Handle, seq<byte>>, b: map<Handle, seq<byte>>, slots: seq<Handle?>, st: seq<Slot>, i: nat, j: nat)
    requires Represents(a, slots, st) && Alive(st, i) && Alive(st, j)
    requires b == a[slots[i] := a[slots[j]]][slots[j] := a[slots[i]]]
    ensures Represents(b, slots, st[i := st[j]][j := st[i]])
  {
    var mid := a[slots[i] := a[slots[j]]];
    Edited(a, mid, slots, st, i, st[j].bytes);
    assert a[slots[i]] == st[i].bytes;
    hide Represents;
    Edited(mid, b, slots, st[i := st[j]], j, st[i].bytes);
  }

  /** The four constructors. */
  method Introduce(w: World, slots: seq<Handle?>, ghost st: seq<Slot>, op: Op) returns (after: seq<Handle?>)
    requires Runs(w, slots, st) && Legal(st, op)
    requires op.New? || op.NewSized? || op.CopyOf? || op.MoveOf?
    modifies w, w.handles, w.stores
    ensures Runs(w, after, Step(st, op)) && fresh(w.stores - old(w.stores)) && fresh(w.handles - old(w.handles))
    ensures old(Consistent(w.State())) ==> Consistent(w.State())
  {
    hide Runs, Resized, Consistent;
    var h: Handle;
    match op {
      case New => h := Construct(w, slots, st);
      case NewSized(size, capacity, fill) => h := ConstructSized(w, slots, st, size, capacity, fill);
      case CopyOf(j) => h := ConstructCopy(w, slots, st, j);
      case MoveOf(j) => h := ConstructMove(w, slots, st, j);
    }
    after := slots + [h];
  }

  /** One operation of a program. */
  method Perform(w: World, slots: seq<Handle?>, ghost st: seq<Slot>, op: Op) returns (after: seq<Handle?>)
    requires Runs(w, slots, st) && Legal(st, op)
    modifies w, w.handles, w.stores
    ensures Runs(w, after, Step(st, op)) && fresh(w.stores - old(w.stores)) && fresh(w.handles - old(w.handles))
    ensures old(Consistent(w.State())) && Appends(st, op) ==> Consistent(w.State())
  {
    hide *;
    match op {
      case New => after := Introduce(w, slots, st, op);
      case NewSized(_, _, _) => after := Introduce(w, slots, st, op);
      case CopyOf(_) => after := Introduce(w, slots, st, op);
      case MoveOf(_) => after := Introduce(w, slots, st, op);
      case CopyTo(_, _) => after := Relate(w, slots, st, op);
      case MoveTo(_, _) => after := Relate(w, slots, st, op);
      case Exchange(i, j) =>
        SwapSlots(w, slots, st, i, j);
        after := slots;
      case Destroy(_) => after := Relate(w, slots, st, op);
      case Reserve(_, _) => after := Relate(w, slots, st, op);
      case _ =>
        Mutate(w, slots, st, op);
        after := slots;
    }
  }

  lemma Unroll(st: seq<Slot>, ops: seq<Op>, n: nat)
    requires n < |ops| && LegalRun(st, ops[n..])
    ensures Legal(st, ops[n]) && LegalRun(Step(st, ops[n]), ops[n + 1..])
    ensures After(st, ops[n..]) == After(Step(st, ops[n]), ops[n + 1..])
    ensures NoEmptyAppend(st, ops[n..]) ==> Appends(st, ops[n]) && NoEmptyAppend(Step(st, ops[n]), ops[n + 1..])
  {
    assert ops[n..][1..] == ops[n + 1..];
  }

  /**
    Every legal program over copy-on-write handles computes what it computes over independent
    byte strings, with every count exact and exactly the storage somebody holds still alive. Unless
    it appends nothing somewhere, the class also stays consistent.
   */
  method Run(ops: seq<Op>) returns (w: World, slots: seq<Handle?>)
    requires LegalRun([], ops)
    ensures fresh(w) && w.Valid() && Represents(w.Shown(), slots, After([], ops))
    ensures NoEmptyAppend([], ops) ==> Consistent(w.State())
  {
    w := new World();
    slots := [];
    ghost var st: seq<Slot> := [];
    assert ops[0..] == ops;
    for n := 0 to |ops|
      invariant fresh(w) && fresh(w.handles) && fresh(w.stores)
      invariant Runs(w, slots, st)
      invariant LegalRun(st, ops[n..]) && After(st, ops[n..]) == After([], ops)
      invariant NoEmptyAppend([], ops) ==> NoEmptyAppend(st, ops[n..]) && Consistent(w.State())
    {
      hide *;
      Unroll(st, ops, n);
      slots := Perform(w, slots, st, ops[n]);
      st := Step(st, ops[n]);
    }
  }

  /** Appending nothing to a new buffer leaves it with storage of capacity 0. */
  method EmptyAppend() returns (w: World)
    ensures fresh(w) && w.Valid() && !Consistent(w.State())
  {
    w := new World();
    var h := w.Create();
    w.AppendData(h, []);
  }
}
