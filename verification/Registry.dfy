/** The registry of pools and execution streams (xstreams): what each operation does to the
    registered entries, and the integrity it keeps.  Handles are numbers and 0 is the NULL
    handle; the pool list of every scheduler is fixed by Argobots. */
module Registry {
  import opened Common
  import opened Names

  datatype Code = Success | InvalidArg | NoEntry | Permission | OtherError

  const UintRange: nat := 0x1_0000_0000

  datatype Pool = Pool(name: string, handle: nat, refcount: nat, numXstreams: nat, usedByPrimary: bool)
  datatype Xstream = Xstream(name: string, handle: nat, refcount: nat)

  datatype State = State(
    pools: seq<Pool>,
    xstreams: seq<Xstream>,
    sched: map<nat, seq<nat>>)  // the pools of each xstream's main scheduler

  function PoolNames(ps: seq<Pool>): (r: seq<string>)
    ensures |r| == |ps| && forall i :: 0 <= i < |ps| ==> r[i] == ps[i].name
  {
    seq(|ps|, i requires 0 <= i < |ps| => ps[i].name)
  }

  function XstreamNames(xs: seq<Xstream>): (r: seq<string>)
    ensures |r| == |xs| && forall i :: 0 <= i < |xs| ==> r[i] == xs[i].name
  {
    seq(|xs|, i requires 0 <= i < |xs| => xs[i].name)
  }

  predicate HasHandle(ps: seq<Pool>, i: int, h: nat) {
    0 <= i < |ps| && ps[i].handle == h
  }

  /** __margo_abt_find_pool_by_handle succeeds. */
  ghost predicate Registered(ps: seq<Pool>, h: nat) {
    h != 0 && exists i :: HasHandle(ps, i, h)
  }

  ghost predicate AllRegistered(ps: seq<Pool>, list: seq<nat>) {
    forall k :: 0 <= k < |list| ==> Registered(ps, list[k])
  }

  /** How many leading pools of a scheduler are registered. */
  ghost function Known(ps: seq<Pool>, list: seq<nat>): (k: nat)
    ensures k <= |list| && AllRegistered(ps, list[..k])
    ensures k < |list| ==> !Registered(ps, list[k])
  {
    if list == [] || !Registered(ps, list[0]) then 0
    else
      var k := Known(ps, list[1..]) + 1;
      assert forall j :: 0 < j < |list| ==> list[j] == list[1..][j - 1];
      k
  }

  /** What can be read of an xstream's main scheduler: nothing without a handle. */
  function SchedOf(st: State, h: nat): seq<nat> {
    if h != 0 && h in st.sched then st.sched[h] else []
  }

  function Count(list: seq<nat>, h: nat): nat {
    if list == [] then 0 else Count(list[..|list| - 1], h) + (if list[|list| - 1] == h then 1 else 0)
  }

  /** The scheduler slots of the xstreams that refer to pool h. */
  function Uses(st: State, xs: seq<Xstream>, h: nat): nat {
    if xs == [] then 0 else Uses(st, xs[..|xs| - 1], h) + Count(SchedOf(st, xs[|xs| - 1].handle), h)
  }

  function Slots(st: State, xs: seq<Xstream>): nat {
    if xs == [] then 0 else Slots(st, xs[..|xs| - 1]) + |SchedOf(st, xs[|xs| - 1].handle)|
  }

  // ---- integrity ------------------------------------------------------------

  ghost predicate CountOk(st: State, i: int) {
    0 <= i < |st.pools| ==> st.pools[i].numXstreams == Uses(st, st.xstreams, st.pools[i].handle)
  }

  ghost predicate RefersOk(st: State, j: int) {
    0 <= j < |st.xstreams| ==> AllRegistered(st.pools, SchedOf(st, st.xstreams[j].handle))
  }

  /** No two pools have the same handle, except the NULL handle. */
  ghost predicate HandlesOk(ps: seq<Pool>) {
    forall i, j, h :: HasHandle(ps, i, h) && HasHandle(ps, j, h) && i != j ==> h == 0
  }

  ghost predicate Integrity(st: State) {
    && HandlesOk(st.pools)
    && (forall i :: CountOk(st, i))
    && (forall j :: RefersOk(st, j))
    && Slots(st, st.xstreams) < UintRange
  }

  ghost predicate DistinctNames(names: seq<string>) {
    forall i, j :: 0 <= i < j < |names| ==> names[i] != names[j]
  }

  // ---- the operations -------------------------------------------------------

  /** Adding d to num_xstreams for every slot of the list, modulo 2^32. */
  function Adjust(p: Pool, list: seq<nat>, d: int, primary: bool): Pool {
    p.(numXstreams := (p.numXstreams + d * Count(list, p.handle)) % UintRange,
       usedByPrimary := p.usedByPrimary || (primary && Count(list, p.handle) > 0))
  }

  function AdjustAll(ps: seq<Pool>, list: seq<nat>, d: int, primary: bool): (r: seq<Pool>)
    ensures |r| == |ps| && forall i :: 0 <= i < |ps| ==> r[i] == Adjust(ps[i], list, d, primary)
  {
    seq(|ps|, i requires 0 <= i < |ps| => Adjust(ps[i], list, d, primary))
  }

  function SwapRemove<T>(s: seq<T>, i: nat): (r: seq<T>)
    requires i < |s|
    ensures |r| == |s| - 1
    ensures forall k :: 0 <= k < |r| ==> r[k] == (if k == i then s[|s| - 1] else s[k])
  {
    s[i := s[|s| - 1]][..|s| - 1]
  }

  function NameFor(prefix: string, name: Option<string>, names: seq<string>): string {
    if name.Some? then name.value else DefaultName(prefix, names)
  }

  /** __margo_abt_add_pool_from_json; `created` is what creating the Argobots pool gives. */
  function AddPool(st: State, name: Option<string>, created: Option<nat>): (State, bool) {
    var names := PoolNames(st.pools);
    if (name.Some? && name.value in names) || created.None? then (st, false)
    else (st.(pools := st.pools + [Pool(NameFor("__pool_", name, names), created.value, 0, 0, false)]), true)
  }

  /** __margo_abt_add_external_pool */
  ghost function AddExternalPool(st: State, name: Option<string>, h: nat): (State, bool) {
    if Registered(st.pools, h) then (st, false) else AddPool(st, name, Some(h))
  }

  /** What xstream initialisation counts and its clean-up takes off again; only the mark left
      by the primary xstream stays. */
  ghost function CountedBack(ps: seq<Pool>, list: seq<nat>, primary: bool): seq<Pool> {
    var known := list[..Known(ps, list)];
    AdjustAll(AdjustAll(ps, known, 1, primary), known, -1, false)
  }

  /** What Argobots answers when an xstream is set up. */
  datatype Answer =
    | NoScheduler                  // the scheduler cannot be created
    | NoHandle                     // nor the xstream; for the primary one, ABT_xstream_self fails
    | KeepsScheduler(handle: nat)  // the primary xstream does not accept the new scheduler
    | Ready(handle: nat)           // the new or primary xstream runs the new scheduler

  predicate IsPrimary(name: string) {
    name == "__primary__"
  }

  /** The name of the xstream to be added. */
  function ChosenName(st: State, name: Option<string>): string {
    NameFor("__xstream_", name, XstreamNames(st.xstreams))
  }

  predicate NameTaken(st: State, name: Option<string>) {
    name.Some? && name.value in XstreamNames(st.xstreams)
  }

  /** __margo_abt_add_xstream_from_json; `list` is the scheduler's pools. */
  ghost function AddXstream(st: State, name: Option<string>, list: seq<nat>, answer: Answer): (State, bool)
    requires answer.KeepsScheduler? ==> IsPrimary(ChosenName(st, name))
  {
    if NameTaken(st, name) then (st, false) else InitXstream(st, ChosenName(st, name), list, answer)
  }

  /** __margo_abt_xstream_init_from_json.  The result of ABT_xstream_create is not tested:
      without a handle the uses are counted and the entry is registered all the same, and the
      clean-up after an unregistered pool does nothing.  When the primary xstream keeps its
      scheduler, the clean-up takes off the uses of that one. */
  ghost function InitXstream(st: State, name: string, list: seq<nat>, answer: Answer): (State, bool)
    requires answer.KeepsScheduler? ==> IsPrimary(name)
  {
    var primary := IsPrimary(name);
    match answer
    case NoScheduler => (st, false)
    case NoHandle =>
      if primary then (st, false)
      else if AllRegistered(st.pools, list) then
        (st.(pools := AdjustAll(st.pools, list, 1, false),
             xstreams := st.xstreams + [Xstream(name, 0, 0)]), true)
      else
        (st.(pools := AdjustAll(st.pools, list[..Known(st.pools, list)], 1, false)), false)
    case KeepsScheduler(h) => (st.(pools := Uncounted(st, h)), false)
    case Ready(h) =>
      if AllRegistered(st.pools, list) then
        (State(AdjustAll(st.pools, list, 1, primary),
               st.xstreams + [Xstream(name, h, 0)],
               st.sched[h := list]), true)
      else
        (st.(pools := CountedBack(st.pools, list, primary),
             sched := if primary then st.sched[h := list] else st.sched), false)
  }

  /** The counting down in __margo_abt_xstream_destroy, up to the first unregistered pool. */
  ghost function Uncounted(st: State, h: nat): seq<Pool> {
    var list := SchedOf(st, h);
    AdjustAll(st.pools, list[..Known(st.pools, list)], -1, false)
  }

  /** Argobots knows the xstream, and it is not registered yet. */
  ghost predicate Addable(st: State, name: Option<string>, h: nat) {
    && (name.Some? ==> name.value !in XstreamNames(st.xstreams))
    && h != 0 && (!exists j :: HasXstream(st.xstreams, j, h)) && h in st.sched
  }

  /** The code compares the name with "__primary__" once the scheduler has been accepted, which
      is only defined when there is a name. */
  ghost predicate NameDefined(st: State, name: Option<string>, h: nat) {
    name.Some? || !Addable(st, name, h) || !AllRegistered(st.pools, SchedOf(st, h))
  }

  /** __margo_abt_add_external_xstream: when a pool of the scheduler is not registered, the
      clean-up takes one use off every registered pool in front of it. */
  ghost function AddExternalXstream(st: State, name: Option<string>, h: nat): (State, bool)
    requires NameDefined(st, name, h)
  {
    var list := SchedOf(st, h);
    if !Addable(st, name, h) then (st, false)
    else if AllRegistered(st.pools, list) then
      (st.(pools := AdjustAll(st.pools, list, 1, IsPrimary(name.value)),
           xstreams := st.xstreams + [Xstream(name.value, h, 0)]), true)
    else
      (st.(pools := Uncounted(st, h)), false)
  }

  predicate HasXstream(xs: seq<Xstream>, j: int, h: nat) {
    0 <= j < |xs| && xs[j].handle == h
  }

  /** __margo_abt_remove_pool; `size` is what ABT_pool_get_total_size answers. */
  function RemovePool(st: State, i: nat, size: Option<nat>): (State, Code) {
    if i >= |st.pools| then (st, InvalidArg)
    else if st.pools[i].refcount != 0 || st.pools[i].numXstreams != 0 then (st, Permission)
    else if size.None? then (st, OtherError)
    else if size.value != 0 then (st, Permission)
    else (st.(pools := SwapRemove(st.pools, i)), Success)
  }

  /** __margo_abt_remove_xstream */
  ghost function RemoveXstream(st: State, j: nat): (State, Code) {
    if j >= |st.xstreams| then (st, InvalidArg)
    else if IsPrimary(st.xstreams[j].name) || st.xstreams[j].refcount != 0 then (st, Permission)
    else (st.(pools := Uncounted(st, st.xstreams[j].handle), xstreams := SwapRemove(st.xstreams, j)), Success)
  }

  // ---- references -----------------------------------------------------------

  /** How callers name an entry. */
  datatype Key = Index(index: nat) | Handle(handle: nat) | Name(name: string)

  function FirstIndex<T(==)>(s: seq<T>, x: T): (i: nat)
    ensures i <= |s| && (i < |s| ==> s[i] == x) && forall k :: 0 <= k < i ==> s[k] != x
  {
    if s == [] || s[0] == x then 0 else FirstIndex(s[1..], x) + 1
  }

  /** The index of the entry that a key stands for; out of bounds when there is none. */
  function Lookup(names: seq<string>, handles: seq<nat>, key: Key): nat
    requires |names| == |handles|
  {
    match key
    case Index(i) => i
    case Handle(h) => if h == 0 then |handles| else FirstIndex(handles, h)
    case Name(n) => FirstIndex(names, n)
  }

  /** The code for a key that stands for nothing. */
  function NotFound(key: Key): Code {
    if key.Index? || key == Handle(0) then InvalidArg else NoEntry
  }

  function PoolHandles(ps: seq<Pool>): (r: seq<nat>)
    ensures |r| == |ps| && forall i :: 0 <= i < |ps| ==> r[i] == ps[i].handle
  {
    seq(|ps|, i requires 0 <= i < |ps| => ps[i].handle)
  }

  function XstreamHandles(xs: seq<Xstream>): (r: seq<nat>)
    ensures |r| == |xs| && forall i :: 0 <= i < |xs| ==> r[i] == xs[i].handle
  {
    seq(|xs|, i requires 0 <= i < |xs| => xs[i].handle)
  }

  function FindPool(st: State, key: Key): nat {
    Lookup(PoolNames(st.pools), PoolHandles(st.pools), key)
  }

  function FindXstream(st: State, key: Key): nat {
    Lookup(XstreamNames(st.xstreams), XstreamHandles(st.xstreams), key)
  }

  /** The 32-bit count after margo_*_ref_incr_*. */
  function OneMore(refcount: nat): nat {
    (refcount + 1) % UintRange
  }

  function SetPoolRefs(st: State, i: nat, n: nat): State
    requires i < |st.pools|
  {
    st.(pools := st.pools[i := st.pools[i].(refcount := n)])
  }

  function SetXstreamRefs(st: State, i: nat, n: nat): State
    requires i < |st.xstreams|
  {
    st.(xstreams := st.xstreams[i := st.xstreams[i].(refcount := n)])
  }

  /** margo_pool_ref_incr_by_index, _by_handle and _by_name */
  function RefPool(st: State, key: Key): (State, Code) {
    var i := FindPool(st, key);
    if i >= |st.pools| then (st, NotFound(key))
    else (SetPoolRefs(st, i, OneMore(st.pools[i].refcount)), Success)
  }

  /** margo_pool_release_by_index, _by_handle and _by_name */
  function ReleasePool(st: State, key: Key): (State, Code) {
    var i := FindPool(st, key);
    if i >= |st.pools| then (st, NotFound(key))
    else if st.pools[i].refcount == 0 then (st, Permission)
    else (SetPoolRefs(st, i, st.pools[i].refcount - 1), Success)
  }

  /** margo_xstream_ref_incr_* */
  function RefXstream(st: State, key: Key): (State, Code) {
    var i := FindXstream(st, key);
    if i >= |st.xstreams| then (st, NotFound(key))
    else (SetXstreamRefs(st, i, OneMore(st.xstreams[i].refcount)), Success)
  }

  /** margo_xstream_release_* */
  function ReleaseXstream(st: State, key: Key): (State, Code) {
    var i := FindXstream(st, key);
    if i >= |st.xstreams| then (st, NotFound(key))
    else if st.xstreams[i].refcount == 0 then (st, Permission)
    else (SetXstreamRefs(st, i, st.xstreams[i].refcount - 1), Success)
  }
}
