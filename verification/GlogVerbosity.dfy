/**
  The verbosity flags of signaling/src/third_lib/glog/glog_flags.go: `-v`, `-vmodule` and the
  per-call-site level cache, with lock-free lookups beside both `Set` methods. Any number of
  goroutines; every atomic access and every step under the mutex is a step of its own.
 */
module GlogVerbosity {

  /** A call site, that is, the program counter of a function entry. */
  type Site = int
  type Level = int

  /** One entry of `-vmodule`; `matches` is what its file pattern accepts. */
  datatype ModulePat = ModulePat(matches: Site -> bool, level: Level)

  /** What the two flags say. */
  datatype Config = Config(v: Level, modules: seq<ModulePat>)

  /** The level of a call site: the first matching pattern decides, else `-v`. */
  function LevelFor(c: Config, site: Site): Level {
    FirstMatch(c.modules, site, c.v)
  }

  function FirstMatch(modules: seq<ModulePat>, site: Site, v: Level): Level {
    if modules == [] then v
    else if modules[0].matches(site) then modules[0].level
    else FirstMatch(modules[1..], site, v)
  }

  lemma {:induction false} FirstMatchDecides(modules: seq<ModulePat>, site: Site, v: Level)
    ensures (forall i :: 0 <= i < |modules| ==> !modules[i].matches(site)) ==> FirstMatch(modules, site, v) == v
    ensures forall i :: 0 <= i < |modules| && modules[i].matches(site) && (forall j :: 0 <= j < i ==> !modules[j].matches(site)) ==>
              FirstMatch(modules, site, v) == modules[i].level
  {
    if modules != [] && !modules[0].matches(site) {
      FirstMatchDecides(modules[1..], site, v);
      forall i | 0 <= i < |modules| && modules[i].matches(site) && (forall j :: 0 <= j < i ==> !modules[j].matches(site))
        ensures FirstMatch(modules, site, v) == modules[i].level
      {
        assert modules[1..][i - 1] == modules[i];
        assert forall j :: 0 <= j < i - 1 ==> modules[1..][j] == modules[j + 1];
      }
    }
  }

  /** A call of `enabled`; `since` is the last configuration that was complete when it began. */
  datatype Call = Call(site: Site, level: Level, since: nat)

  /** Where a goroutine is, named by the access it makes next. */
  datatype Pc =
    | Idle
    // Level.Set
    | VLock(v: Level) | VCache(v: Level) | VStore(v: Level) | VUnlock
    // vModuleFlag.Set
    | MLock(modules: seq<ModulePat>) | MModule(modules: seq<ModulePat>) | MLength(modules: seq<ModulePat>) | MCache | MUnlock
    // enabled: the length, and -v on the fast path
    | ELength(call: Call) | EFast(call: Call, empty: nat)
    // levelForPC
    | LPointer(call: Call) | LGet(call: Call, cache: nat) | LLock(call: Call)
    | LCompute(call: Call) | LStore(call: Call, found: Level) | LUnlock(call: Call, found: Level)
    | Returned(call: Call, fast: bool, answer: bool, until: nat)   // how many configurations there were at the return

  /**
    The shared variables, the goroutines, and for the proof the configurations in the order in
    which their `Set` took the mutex: all up to `complete` are finished, a later one is under way.
   */
  datatype State = State(
    v: Level,
    modules: seq<ModulePat>,
    moduleLength: nat,
    caches: seq<map<Site, Level>>,   // every sync.Map ever made
    current: nat,                    // the one the pointer refers to
    holder: int,                     // the goroutine that holds the mutex, or -1
    pcs: seq<Pc>,
    history: seq<Config>,
    complete: nat,
    made: seq<nat>)                  // the configuration each cache was made for

  datatype Action =
    | SetV(t: nat, v: Level)
    | SetModules(t: nat, modules: seq<ModulePat>)
    | CallEnabled(t: nat, site: Site, level: Level)
    | Advance(t: nat)

  predicate InSet(p: Pc) {
    p.VCache? || p.VStore? || p.VUnlock? || p.MModule? || p.MLength? || p.MCache? || p.MUnlock?
  }

  predicate InLookup(p: Pc) {
    p.LCompute? || p.LStore? || p.LUnlock?
  }

  predicate Locks(p: Pc) {
    p.VLock? || p.MLock? || p.LLock?
  }

  predicate Enabled(s: State, a: Action) {
    && a.t < |s.pcs|
    && (if a.Advance? then !s.pcs[a.t].Idle? && (Locks(s.pcs[a.t]) ==> s.holder == -1) else s.pcs[a.t].Idle?)
  }

  function At(s: State, t: nat, p: Pc): State
    requires t < |s.pcs|
  {
    s.(pcs := s.pcs[t := p])
  }

  /** A fresh, empty cache, made for the configuration that is under way. */
  function Swap(s: State): State {
    s.(caches := s.caches + [map[]], current := |s.caches|, made := s.made + [s.complete + 1])
  }

  function Unlock(s: State): State {
    s.(holder := -1, complete := s.complete + 1)
  }

  ghost function Step(s: State, a: Action): State
    requires Enabled(s, a) && Shape(s)
  {
    var t := a.t;
    match a
    case SetV(_, v) => At(s, t, VLock(v))
    case SetModules(_, m) => At(s, t, MLock(m))
    case CallEnabled(_, site, level) => At(s, t, ELength(Call(site, level, s.complete)))
    case Advance(_) =>
      match s.pcs[t]
      case VLock(v) => At(s, t, VCache(v)).(holder := t, history := s.history + [Config(v, s.modules)])
      case VCache(v) => Swap(At(s, t, VStore(v)))
      case VStore(v) => At(s, t, VUnlock).(v := v)
      case VUnlock => Unlock(At(s, t, Idle))
      case MLock(m) => At(s, t, MModule(m)).(holder := t, history := s.history + [Config(s.v, m)])
      case MModule(m) => At(s, t, MLength(m)).(modules := m)
      case MLength(m) => At(s, t, MCache).(moduleLength := |m|)
      case MCache => Swap(At(s, t, MUnlock))
      case MUnlock => Unlock(At(s, t, Idle))
      case ELength(c) => At(s, t, if s.moduleLength == 0 then EFast(c, LengthFrom(s)) else LPointer(c))
      case EFast(c, _) => At(s, t, Returned(c, true, s.v >= c.level, |s.history|))
      case LPointer(c) => At(s, t, LGet(c, s.current))
      case LGet(c, k) => At(s, t, if c.site in s.caches[k] then Returned(c, false, s.caches[k][c.site] >= c.level, |s.history|) else LLock(c))
      case LLock(c) => At(s, t, LCompute(c)).(holder := t)
      case LCompute(c) => At(s, t, LStore(c, LevelFor(Config(s.v, s.modules), c.site)))
      case LStore(c, l) => At(s, t, LUnlock(c, l)).(caches := s.caches[s.current := s.caches[s.current][c.site := l]])
      case LUnlock(c, l) => At(s, t, Returned(c, false, l >= c.level, |s.history|)).(holder := -1)
      case Returned(_, _, _, _) => At(s, t, Idle)
  }

  /** Caches and pointers exist. */
  ghost predicate Shape(s: State) {
    && |s.made| == |s.caches| && s.current < |s.caches| && s.complete < |s.history|
    && (forall c :: 0 <= c < |s.made| ==> s.made[c] < |s.history|)
    && (forall t :: 0 <= t < |s.pcs| && s.pcs[t].LGet? ==> s.pcs[t].cache < |s.caches|)
  }

  /** What the goroutine that holds the mutex, if any, is doing. */
  function HolderPc(s: State): Pc {
    if 0 <= s.holder < |s.pcs| then s.pcs[s.holder] else Idle
  }

  /** The configuration the stored module length belongs to. */
  function LengthFrom(s: State): nat {
    var p := HolderPc(s);
    if p.MCache? || p.MUnlock? || p.VUnlock? then s.complete + 1 else s.complete
  }

  /** Goroutines are inside a locked section exactly when they hold the mutex. */
  ghost predicate Locking(s: State) {
    && -1 <= s.holder < |s.pcs|
    && forall t :: 0 <= t < |s.pcs| ==> (s.holder == t <==> InSet(s.pcs[t]) || InLookup(s.pcs[t]))
  }

  /** The shared variables, read against the configuration before and the one under way. */
  ghost predicate Agree(v: Level, modules: seq<ModulePat>, length: nat, made: nat, complete: nat, old_: Config, new_: Config, p: Pc) {
    match p
    case VCache(x) => v == old_.v && modules == old_.modules && length == |old_.modules| && made == complete && new_ == Config(x, old_.modules)
    case VStore(x) => v == old_.v && modules == old_.modules && length == |old_.modules| && made == complete + 1 && new_ == Config(x, old_.modules)
    case VUnlock => v == new_.v && modules == new_.modules && length == |new_.modules| && made == complete + 1
    case MModule(m) => v == old_.v && modules == old_.modules && length == |old_.modules| && made == complete && new_ == Config(v, m)
    case MLength(m) => v == old_.v && modules == m && length == |old_.modules| && made == complete && new_ == Config(v, m)
    case MCache => v == new_.v && v == old_.v && modules == new_.modules && length == |new_.modules| && made == complete
    case MUnlock => v == new_.v && modules == new_.modules && length == |new_.modules| && made == complete + 1
    case _ => v == old_.v && modules == old_.modules && length == |old_.modules| && made == complete
  }

  ghost predicate Tidy(s: State)
    requires Shape(s)
  {
    var p := HolderPc(s);
    && |s.history| == s.complete + (if InSet(p) then 2 else 1)
    && Agree(s.v, s.modules, s.moduleLength, s.made[s.current], s.complete,
             s.history[s.complete], s.history[|s.history| - 1], p)
  }

  /** Every entry ever cached is right for the configuration its cache was made for. */
  ghost predicate CachesRight(s: State)
    requires Shape(s)
  {
    forall c, site :: 0 <= c < |s.caches| && site in s.caches[c] ==> s.caches[c][site] == LevelFor(s.history[s.made[c]], site)
  }

  ghost predicate Since(s: State, c: Call) {
    c.since <= s.complete
  }

  /** An answer is the one some configuration gives that was in force, or under way, during the call. */
  ghost predicate Explained(s: State, c: Call, answer: bool, until: nat)
    requires until <= |s.history|
  {
    exists k :: c.since <= k < until && answer == (LevelFor(s.history[k], c.site) >= c.level)
  }

  /** The fast path takes the empty list of one such configuration and the `-v` of another. */
  ghost predicate FastExplained(s: State, c: Call, answer: bool, until: nat)
    requires until <= |s.history|
  {
    exists j, k :: c.since <= j < until && c.since <= k < until && s.history[j].modules == [] && answer == (s.history[k].v >= c.level)
  }

  /** One `Set` changes one flag. */
  ghost predicate Gradual(history: seq<Config>) {
    forall i :: 0 <= i < |history| - 1 ==> history[i].v == history[i + 1].v || history[i].modules == history[i + 1].modules
  }

  ghost predicate PcRight(s: State, p: Pc)
    requires Shape(s)
  {
    match p
    case ELength(c) => Since(s, c)
    case EFast(c, k) => Since(s, c) && c.since <= k < |s.history| && s.history[k].modules == []
    case LPointer(c) => Since(s, c)
    case LGet(c, k) => Since(s, c) && k < |s.made| && c.since <= s.made[k]
    case LLock(c) => Since(s, c)
    case LCompute(c) => Since(s, c)
    case LStore(c, l) => Since(s, c) && l == LevelFor(s.history[s.complete], c.site)
    case LUnlock(c, l) => Since(s, c) && l == LevelFor(s.history[s.complete], c.site)
    case Returned(c, fast, answer, n) =>
      n <= |s.history| && if fast then FastExplained(s, c, answer, n) else Explained(s, c, answer, n)
    case _ => true
  }

  ghost predicate PcsRight(s: State)
    requires Shape(s)
  {
    forall t :: 0 <= t < |s.pcs| ==> PcRight(s, s.pcs[t])
  }

  ghost predicate Inv(s: State) {
    Shape(s) && Locking(s) && Tidy(s) && Gradual(s.history) && CachesRight(s) && PcsRight(s)
  }

  /** What a goroutine knows survives everything the others do. */
  ghost predicate Later(s: State, n: State) {
    && s.history <= n.history && s.made <= n.made && s.complete <= n.complete
  }

  lemma PcStable(s: State, n: State, p: Pc)
    requires Shape(s) && Shape(n) && Later(s, n) && PcRight(s, p)
    requires p.LStore? || p.LUnlock? ==> n.complete == s.complete
    ensures PcRight(n, p)
  {
    if p.Returned? {
      assert forall k :: 0 <= k < p.until ==> n.history[k] == s.history[k];
    }
  }

  /** After a step of `t`, the others still know what they knew. */
  lemma PcsStable(s: State, n: State, t: nat)
    requires Inv(s) && Shape(n) && Later(s, n) && t < |s.pcs| && |n.pcs| == |s.pcs| && n.pcs == s.pcs[t := n.pcs[t]]
    requires PcRight(n, n.pcs[t])
    requires n.complete == s.complete || s.holder == t
    ensures PcsRight(n)
  {
    forall u | 0 <= u < |n.pcs|
      ensures PcRight(n, n.pcs[u])
    {
      if u != t {
        assert PcRight(s, s.pcs[u]);
        PcStable(s, n, s.pcs[u]);
      }
    }
  }

  /** A step that only moves one goroutine. */
  lemma Local(s: State, t: nat, p: Pc)
    requires Inv(s) && t < |s.pcs| && !InSet(s.pcs[t]) && !InSet(p) && (InLookup(p) <==> InLookup(s.pcs[t]))
    requires p.LGet? ==> p.cache < |s.caches|
    requires Shape(At(s, t, p)) ==> PcRight(At(s, t, p), p)
    ensures Inv(At(s, t, p))
  {
    var n := At(s, t, p);
    assert Shape(n);
    PcsStable(s, n, t);
    assert Tidy(n) by {
      hide PcsRight, CachesRight;
      assert HolderPc(n) == if s.holder == t then p else HolderPc(s);
    }
    assert CachesRight(n) by { hide PcsRight, Tidy; }
  }

  /** Steps of a lookup outside the mutex, and the return of a call. */
  predicate Loose(p: Pc) {
    p.ELength? || p.EFast? || p.LPointer? || p.LGet? || p.LCompute? || p.Returned?
  }

  lemma LocalStep(s: State, a: Action)
    requires Inv(s) && Enabled(s, a) && (a.Advance? ==> Loose(s.pcs[a.t]))
    ensures Inv(Step(s, a))
  {
    if a.Advance? {
      LooseRight(s, a.t);
    }
    var n := Step(s, a);
    assert n == At(s, a.t, n.pcs[a.t]);
    Local(s, a.t, n.pcs[a.t]);
  }

  /** What a goroutine knows after such a step. */
  lemma LooseRight(s: State, t: nat)
    requires Inv(s) && Enabled(s, Advance(t)) && Loose(s.pcs[t])
    ensures PcRight(s, Step(s, Advance(t)).pcs[t])
  {
    assert PcRight(s, s.pcs[t]);
    match s.pcs[t] {
      case ELength(c) => LengthRight(s, c);
      case EFast(c, j) => FastRight(s, c, j);
      case LPointer(c) => PointerRight(s);
      case LGet(c, k) => GetRight(s, c, k);
      case LCompute(c) => ComputeRight(s, t, c);
      case Returned(_, _, _, _) =>
    }
  }

  lemma LengthRight(s: State, c: Call)
    requires Inv(s) && Since(s, c)
    ensures s.moduleLength == 0 ==> c.since <= LengthFrom(s) < |s.history| && s.history[LengthFrom(s)].modules == []
  {
    hide CachesRight, PcsRight;
  }

  lemma FastRight(s: State, c: Call, j: nat)
    requires Inv(s) && PcRight(s, EFast(c, j))
    ensures FastExplained(s, c, s.v >= c.level, |s.history|)
  {
    hide CachesRight, PcsRight;
    var p := HolderPc(s);
    var k := if p.VUnlock? || p.MUnlock? then s.complete + 1 else s.complete;
    assert c.since <= k < |s.history| && s.v == s.history[k].v;
  }

  lemma PointerRight(s: State)
    requires Inv(s)
    ensures s.complete <= s.made[s.current]
  {
    hide CachesRight, PcsRight;
  }

  lemma GetRight(s: State, c: Call, k: nat)
    requires Inv(s) && PcRight(s, LGet(c, k)) && k < |s.caches|
    ensures c.site in s.caches[k] ==> Explained(s, c, s.caches[k][c.site] >= c.level, |s.history|)
  {
    hide PcsRight, Tidy, Locking;
    if c.site in s.caches[k] {
      assert s.caches[k][c.site] == LevelFor(s.history[s.made[k]], c.site);
    }
  }

  lemma ComputeRight(s: State, t: nat, c: Call)
    requires Inv(s) && t < |s.pcs| && s.pcs[t] == LCompute(c)
    ensures Config(s.v, s.modules) == s.history[s.complete]
  {
    hide CachesRight, PcsRight;
    assert InLookup(s.pcs[t]);
    assert s.holder == t;
  }

  /** The caches stay right when the history and the list of caches only grow. */
  lemma CachesStable(s: State, n: State)
    requires Shape(s) && Shape(n) && CachesRight(s) && Later(s, n) && s.caches <= n.caches
    requires forall c :: |s.caches| <= c < |n.caches| ==> n.caches[c] == map[]
    ensures CachesRight(n)
  {
    forall c, site | 0 <= c < |n.caches| && site in n.caches[c]
      ensures n.caches[c][site] == LevelFor(n.history[n.made[c]], site)
    {
      assert c < |s.caches|;
      assert n.caches[c] == s.caches[c] && n.made[c] == s.made[c];
    }
  }

  lemma HolderIs(s: State, t: nat)
    requires Inv(s) && t < |s.pcs| && (InSet(s.pcs[t]) || InLookup(s.pcs[t]))
    ensures s.holder == t && HolderPc(s) == s.pcs[t]
  {
  }

  /** Every step of the goroutine that takes, holds or gives up the mutex for `Level.Set`. */
  lemma SetVStep(s: State, t: nat)
    requires Inv(s) && Enabled(s, Advance(t))
    requires s.pcs[t].VLock? || s.pcs[t].VCache? || s.pcs[t].VStore? || s.pcs[t].VUnlock?
    ensures Inv(Step(s, Advance(t)))
  {
    var n := Step(s, Advance(t));
    if InSet(s.pcs[t]) {
      HolderIs(s, t);
    }
    assert Shape(n) && Locking(n) && Tidy(n) && Gradual(n.history) by {
      hide CachesRight, PcsRight;
    }
    assert PcRight(n, n.pcs[t]);
    PcsStable(s, n, t);
    CachesStable(s, n);
  }

  /** The same for `vModuleFlag.Set`. */
  lemma SetModulesStep(s: State, t: nat)
    requires Inv(s) && Enabled(s, Advance(t))
    requires s.pcs[t].MLock? || s.pcs[t].MModule? || s.pcs[t].MLength? || s.pcs[t].MCache? || s.pcs[t].MUnlock?
    ensures Inv(Step(s, Advance(t)))
  {
    var n := Step(s, Advance(t));
    if InSet(s.pcs[t]) {
      HolderIs(s, t);
    }
    assert Shape(n) && Locking(n) && Tidy(n) && Gradual(n.history) by {
      hide CachesRight, PcsRight;
    }
    assert PcRight(n, n.pcs[t]);
    PcsStable(s, n, t);
    CachesStable(s, n);
  }

  lemma LookupStep(s: State, t: nat)
    requires Inv(s) && Enabled(s, Advance(t))
    requires s.pcs[t].LLock? || s.pcs[t].LStore? || s.pcs[t].LUnlock?
    ensures Inv(Step(s, Advance(t)))
  {
    var n := Step(s, Advance(t));
    assert PcRight(s, s.pcs[t]);
    if !s.pcs[t].LLock? {
      HolderIs(s, t);
    }
    assert Shape(n) && Locking(n) && Tidy(n) && Gradual(n.history) by {
      hide CachesRight, PcsRight;
    }
    if s.pcs[t].LUnlock? {
      assert Explained(n, s.pcs[t].call, s.pcs[t].found >= s.pcs[t].call.level, |s.history|);
    }
    assert PcRight(n, n.pcs[t]);
    PcsStable(s, n, t);
    if s.pcs[t].LStore? {
      StoreRight(s, n, s.pcs[t].call.site, s.pcs[t].found);
    }
  }

  lemma StoreRight(s: State, n: State, site: Site, l: Level)
    requires Shape(s) && Shape(n) && CachesRight(s) && n.history == s.history && n.made == s.made
    requires n.caches == s.caches[s.current := s.caches[s.current][site := l]]
    requires l == LevelFor(s.history[s.made[s.current]], site)
    ensures CachesRight(n)
  {
  }

  lemma StepInv(s: State, a: Action)
    requires Inv(s) && Enabled(s, a)
    ensures Inv(Step(s, a))
  {
    hide Inv, Step;
    if a.Advance? && (s.pcs[a.t].LLock? || s.pcs[a.t].LStore? || s.pcs[a.t].LUnlock?) {
      LookupStep(s, a.t);
    } else if a.Advance? && (s.pcs[a.t].VLock? || s.pcs[a.t].VCache? || s.pcs[a.t].VStore? || s.pcs[a.t].VUnlock?) {
      SetVStep(s, a.t);
    } else if a.Advance? && (s.pcs[a.t].MLock? || InSet(s.pcs[a.t])) {
      SetModulesStep(s, a.t);
    } else {
      LocalStep(s, a);
    }
  }

  /** Any number of goroutines, no flags given. */
  function Initial(goroutines: nat): State {
    State(0, [], 0, [map[]], 0, -1, seq(goroutines, _ => Idle), [Config(0, [])], 0, [0])
  }

  /** A way from one state to another. */
  ghost predicate Leads(s: State, acts: seq<Action>, n: State)
    decreases |acts|
  {
    if acts == [] then s == n
    else Shape(s) && Enabled(s, acts[0]) && Leads(Step(s, acts[0]), acts[1..], n)
  }

  lemma Onward(s: State, a: Action, acts: seq<Action>, n: State)
    requires Shape(s) && Enabled(s, a) && Leads(Step(s, a), acts, n)
    ensures Leads(s, [a] + acts, n)
  {
    assert ([a] + acts)[1..] == acts;
  }

  lemma {:induction false} Joined(s: State, a: seq<Action>, m: State, b: seq<Action>, n: State) returns (acts: seq<Action>)
    requires Leads(s, a, m) && Leads(m, b, n)
    ensures Leads(s, acts, n)
    decreases |a|
  {
    if a == [] {
      acts := b;
    } else {
      var rest := Joined(Step(s, a[0]), a[1..], m, b, n);
      Onward(s, a[0], rest, n);
      acts := [a[0]] + rest;
    }
  }

  lemma {:induction false} LeadsInv(s: State, acts: seq<Action>, n: State)
    requires Inv(s) && Leads(s, acts, n)
    ensures Inv(n)
    decreases |acts|
  {
    if acts != [] {
      StepInv(s, acts[0]);
      LeadsInv(Step(s, acts[0]), acts[1..], n);
    }
  }

  /** A state at some point of some run of any number of goroutines. */
  ghost predicate Reached(goroutines: nat, acts: seq<Action>, s: State) {
    Leads(Initial(goroutines), acts, s)
  }

  lemma RunInv(goroutines: nat, acts: seq<Action>, s: State)
    requires Reached(goroutines, acts, s)
    ensures Inv(s)
  {
    assert Inv(Initial(goroutines));
    LeadsInv(Initial(goroutines), acts, s);
  }

  /** Whenever the mutex is free, every cached level is the one the flags give now. */
  lemma CacheCoherent(goroutines: nat, acts: seq<Action>, s: State, site: Site)
    requires Reached(goroutines, acts, s) && s.holder == -1
    requires s.current < |s.caches| && site in s.caches[s.current]
    ensures s.caches[s.current][site] == LevelFor(Config(s.v, s.modules), site)
    ensures |s.history| == s.complete + 1 && s.history[s.complete] == Config(s.v, s.modules)
  {
    RunInv(goroutines, acts, s);
    hide PcsRight, Locking, Leads;
    assert HolderPc(s) == Idle;
    assert s.history[s.complete] == Config(s.v, s.modules);
  }

  /**
    An answer through the cache or the lock is the one some configuration gives that was in
    force, or being set, between the beginning of the call and its end.
   */
  lemma LookupLinearizes(goroutines: nat, acts: seq<Action>, s: State, t: nat)
    requires Reached(goroutines, acts, s) && t < |s.pcs| && s.pcs[t].Returned? && !s.pcs[t].fast
    ensures s.pcs[t].until <= |s.history| && Explained(s, s.pcs[t].call, s.pcs[t].answer, s.pcs[t].until)
  {
    RunInv(goroutines, acts, s);
    assert PcRight(s, s.pcs[t]);
  }

  /** An answer of the fast path at some point of some run. */
  ghost predicate FastAnswer(goroutines: nat, acts: seq<Action>, s: State, t: nat) {
    Reached(goroutines, acts, s) && t < |s.pcs| && s.pcs[t].Returned? && s.pcs[t].fast
  }

  lemma FastAnswerIs(goroutines: nat, acts: seq<Action>, s: State, t: nat)
    requires FastAnswer(goroutines, acts, s, t)
    ensures s.pcs[t].until <= |s.history| && Gradual(s.history)
    ensures FastExplained(s, s.pcs[t].call, s.pcs[t].answer, s.pcs[t].until)
  {
    RunInv(goroutines, acts, s);
    assert PcRight(s, s.pcs[t]);
  }

  /** While no module pattern is given, the fast path answers as the slow path would. */
  lemma FastPathAgrees(goroutines: nat, acts: seq<Action>, s: State, t: nat)
    requires FastAnswer(goroutines, acts, s, t)
    requires forall i :: s.pcs[t].call.since <= i < |s.history| ==> s.history[i].modules == []
    ensures s.pcs[t].until <= |s.history| && Explained(s, s.pcs[t].call, s.pcs[t].answer, s.pcs[t].until)
  {
    FastAnswerIs(goroutines, acts, s, t);
    var p := s.pcs[t];
    var j, k :| p.call.since <= j < p.until && p.call.since <= k < p.until && s.history[j].modules == [] && p.answer == (s.history[k].v >= p.call.level);
    assert LevelFor(s.history[k], p.call.site) == s.history[k].v;
  }

  /** The number of `Set` calls that had the mutex during a call: under way at its beginning, or taking it before its end. */
  function Overlapping(p: Pc): int
    requires p.Returned?
  {
    p.until - 1 - p.call.since
  }

  /** One overlapping `Set` changes one flag only, so one of the two configurations gives the answer. */
  lemma OneSetIsHarmless(goroutines: nat, acts: seq<Action>, s: State, t: nat)
    requires FastAnswer(goroutines, acts, s, t) && Overlapping(s.pcs[t]) <= 1
    ensures s.pcs[t].until <= |s.history| && Explained(s, s.pcs[t].call, s.pcs[t].answer, s.pcs[t].until)
  {
    FastAnswerIs(goroutines, acts, s, t);
    var p := s.pcs[t];
    var j, k :| p.call.since <= j < p.until && p.call.since <= k < p.until && s.history[j].modules == [] && p.answer == (s.history[k].v >= p.call.level);
    var at := if s.history[k].modules == [] then k else j;
    assert LevelFor(s.history[at], p.call.site) == s.history[at].v == s.history[k].v by {
      hide Leads;
      assert j == k || s.history[j].v == s.history[k].v || s.history[j].modules == s.history[k].modules;
    }
  }

  // The fast path is two reads, and what lies between them can be anything.

  function Quiet(): ModulePat {
    ModulePat(_ => true, 0)
  }

  /** Goroutine 0 has read an empty module list; goroutine 1 is about to set one, and then `-v`. */
  function Between(call: Call): State {
    Initial(2).(pcs := [EFast(call, 0), Idle])
  }

  /** The module list has been set, and after it `-v` another `m` times. */
  function Raised(call: Call, m: nat): State {
    State(if m == 0 then 0 else 3, [Quiet()], 1, seq(m + 2, _ => map[]), m + 1, -1, [EFast(call, 0), Idle],
          [Config(0, []), Config(0, [Quiet()])] + seq(m, _ => Config(3, [Quiet()])), m + 1, seq(m + 2, i => i))
  }

  lemma SettingModules(call: Call) returns (acts: seq<Action>)
    ensures Leads(Between(call), acts, Raised(call, 0))
  {
    var s0 := Between(call);
    var m := [Quiet()];
    var s1 := Step(s0, SetModules(1, m));
    var s2 := Step(s1, Advance(1));
    var s3 := Step(s2, Advance(1));
    var s4 := Step(s3, Advance(1));
    var s5 := Step(s4, Advance(1));
    var s6 := Step(s5, Advance(1));
    assert s6 == Raised(call, 0);
    hide Step, Shape;
    acts := [];
    Onward(s5, Advance(1), acts, s6);
    acts := [Advance(1)] + acts;
    Onward(s4, Advance(1), acts, s6);
    acts := [Advance(1)] + acts;
    Onward(s3, Advance(1), acts, s6);
    acts := [Advance(1)] + acts;
    Onward(s2, Advance(1), acts, s6);
    acts := [Advance(1)] + acts;
    Onward(s1, Advance(1), acts, s6);
    acts := [Advance(1)] + acts;
    Onward(s0, SetModules(1, m), acts, s6);
    acts := [SetModules(1, m)] + acts;
  }

  lemma RaisingV(call: Call, m: nat) returns (acts: seq<Action>)
    ensures Leads(Raised(call, m), acts, Raised(call, m + 1))
  {
    var s0 := Raised(call, m);
    var s1 := Step(s0, SetV(1, 3));
    var s2 := Step(s1, Advance(1));
    var s3 := Step(s2, Advance(1));
    var s4 := Step(s3, Advance(1));
    var s5 := Step(s4, Advance(1));
    assert s5 == Raised(call, m + 1);
    hide Step, Shape;
    acts := [];
    Onward(s4, Advance(1), acts, s5);
    acts := [Advance(1)] + acts;
    Onward(s3, Advance(1), acts, s5);
    acts := [Advance(1)] + acts;
    Onward(s2, Advance(1), acts, s5);
    acts := [Advance(1)] + acts;
    Onward(s1, Advance(1), acts, s5);
    acts := [Advance(1)] + acts;
    Onward(s0, SetV(1, 3), acts, s5);
    acts := [SetV(1, 3)] + acts;
  }

  lemma {:induction false} Raising(call: Call, m: nat) returns (acts: seq<Action>)
    ensures Leads(Between(call), acts, Raised(call, m))
  {
    if m == 0 {
      acts := SettingModules(call);
    } else {
      var first := Raising(call, m - 1);
      var last := RaisingV(call, m - 1);
      acts := Joined(Between(call), first, Raised(call, m - 1), last, Raised(call, m));
    }
  }

  lemma Calling(call: Call) returns (acts: seq<Action>)
    requires call == Call(0, 2, 0)
    ensures Leads(Initial(2), acts, Between(call))
  {
    var s0 := Initial(2);
    var s1 := Step(s0, CallEnabled(0, 0, 2));
    assert Step(s1, Advance(0)) == Between(call);
    hide Step, Shape;
    Onward(s1, Advance(0), [], Between(call));
    Onward(s0, CallEnabled(0, 0, 2), [Advance(0)], Between(call));
    acts := [CallEnabled(0, 0, 2)] + [Advance(0)];
  }

  function Torn(call: Call, m: nat): State {
    Raised(call, m).(pcs := [Returned(call, true, m > 0, m + 2), Idle])
  }

  lemma Answering(call: Call, m: nat)
    requires call == Call(0, 2, 0)
    ensures Leads(Raised(call, m), [Advance(0)], Torn(call, m))
    ensures Torn(call, m).pcs == [Returned(call, true, m > 0, m + 2), Idle]
    ensures forall k :: 0 <= k < |Torn(call, m).history| ==> LevelFor(Torn(call, m).history[k], call.site) < call.level
  {
    assert Step(Raised(call, m), Advance(0)) == Torn(call, m);
    Onward(Raised(call, m), Advance(0), [], Torn(call, m));
    forall k | 0 <= k < |Torn(call, m).history|
      ensures LevelFor(Torn(call, m).history[k], call.site) < call.level
    {
      hide Leads, Step;
      assert Torn(call, m).history[k] == Config(0, []) || Torn(call, m).history[k].modules == [Quiet()];
    }
  }

  lemma Tearing(call: Call, m: nat) returns (acts: seq<Action>)
    requires call == Call(0, 2, 0)
    ensures Leads(Initial(2), acts, Torn(call, m))
  {
    hide *;
    var first := Calling(call);
    var second := Raising(call, m);
    Answering(call, m);
    acts := Joined(Between(call), second, Raised(call, m), [Advance(0)], Torn(call, m));
    acts := Joined(Initial(2), first, Between(call), acts, Torn(call, m));
  }

  /**
    With a module list set and then `-v` raised one or more times between the two reads, the fast
    path says yes where every configuration of the whole run says no.
   */
  lemma FastPathCanTear(n: nat) returns (acts: seq<Action>, s: State)
    requires n >= 2
    ensures FastAnswer(2, acts, s, 0) && Overlapping(s.pcs[0]) == n && s.pcs[0].answer
    ensures forall k :: 0 <= k < |s.history| ==> LevelFor(s.history[k], s.pcs[0].call.site) < s.pcs[0].call.level
  {
    var call := Call(0, 2, 0);
    s := Torn(call, n - 1);
    acts := Tearing(call, n - 1);
    Answering(call, n - 1);
    hide Torn, Leads, Initial, LevelFor;
  }

  /** In every run every answer of the fast path to a call with `n` overlapping `Set` calls is one of a configuration during the call. */
  ghost predicate FastPathRight(n: nat) {
    forall goroutines: nat, acts, s, t: nat :: FastAnswer(goroutines, acts, s, t) && Overlapping(s.pcs[t]) == n ==>
      s.pcs[t].until <= |s.history| && Explained(s, s.pcs[t].call, s.pcs[t].answer, s.pcs[t].until)
  }

  lemma FastPathRightIff(n: nat)
    ensures FastPathRight(n) <==> n <= 1
  {
    if n <= 1 {
      forall goroutines: nat, acts, s, t: nat | FastAnswer(goroutines, acts, s, t) && Overlapping(s.pcs[t]) == n
        ensures s.pcs[t].until <= |s.history| && Explained(s, s.pcs[t].call, s.pcs[t].answer, s.pcs[t].until)
      {
        OneSetIsHarmless(goroutines, acts, s, t);
      }
    } else {
      var acts, s := FastPathCanTear(n);
      hide FastAnswer;
      assert s.pcs[0].until <= |s.history| ==> !Explained(s, s.pcs[0].call, s.pcs[0].answer, s.pcs[0].until);
    }
  }
}
